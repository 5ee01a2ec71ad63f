/** Sound data as the engine's sound table hands it to the mixer, and the random choice among it. */
module Sounds {
  import opened Events

  // A signed 16-bit sample.
  type Sample = x: int | -0x8000 <= x < 0x8000

  // The data of an event sound: stereo frames, at least one.
  type Sound = s: seq<Sample> | |s| > 0 && |s| % 2 == 0 witness [0, 0]

  // The samples of a frame: left and right.
  const STEREO: nat := 2

  const SILENCE: Sound := [0, 0]

  // EVENT_ENTRY: the sounds an event name stands for, at least one.
  type SoundSet = s: seq<Sound> | |s| > 0 witness [SILENCE]

  // The table, looked up for names that engineLoop has found in it (server/main.c:381-399).
  type SoundTable = seq<Byte> -> SoundSet

  const RAND_MAX: nat := 0x7FFF_FFFF

  // A value that rand() may return.
  type Draw = d: nat | d <= RAND_MAX

  // (int)((double)cnt * rand () / (RAND_MAX + 1.0))
  function PickIndex(cnt: nat, draw: Draw): (k: nat)
    ensures cnt > 0 ==> k < cnt
  {
    if cnt == 0 then 0
    else
      PickInRange(cnt, draw);
      cnt * draw / (RAND_MAX + 1)
  }

  lemma Monotone(a: nat, b: nat, m: nat)
    ensures a <= b ==> a * m <= b * m
  {
  }

  lemma PickInRange(cnt: nat, draw: Draw)
    requires cnt > 0
    ensures 0 <= cnt * draw / (RAND_MAX + 1) < cnt
  {
    var q := cnt * draw / (RAND_MAX + 1);
    Monotone(cnt, q, RAND_MAX + 1);
    Monotone(draw, RAND_MAX, cnt);
    assert cnt * RAND_MAX < cnt * (RAND_MAX + 1);
  }

  // The draw is scaled down: sound k is picked exactly by the draws of the k-th of cnt equal parts of
  // what rand() returns.
  lemma PickIndexIff(cnt: nat, draw: Draw, k: nat)
    requires cnt > 0
    ensures PickIndex(cnt, draw) == k <==> k * (RAND_MAX + 1) <= cnt * draw < (k + 1) * (RAND_MAX + 1)
  {
    var q := PickIndex(cnt, draw);
    assert q * (RAND_MAX + 1) <= cnt * draw < (q + 1) * (RAND_MAX + 1);
    Monotone(k + 1, q, RAND_MAX + 1);
    Monotone(q + 1, k, RAND_MAX + 1);
  }

  // So each of them is picked by some draw, if there are no more than rand() has values.
  lemma EverySoundIsPicked(cnt: nat, k: nat) returns (draw: Draw)
    requires k < cnt <= RAND_MAX + 1
    ensures PickIndex(cnt, draw) == k
  {
    var whole := RAND_MAX + 1;
    var low := k * whole;
    var d := (low + cnt - 1) / cnt;
    assert low <= cnt * d < low + cnt;
    Monotone(k + 1, cnt, whole);
    Monotone(whole, d, cnt);
    draw := d;
    assert low + cnt <= low + whole == (k + 1) * whole;
    PickIndexIff(cnt, draw, k);
  }
}
