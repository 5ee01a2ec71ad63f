/**
 * The dynamic volume multipliers of the event channels (server/mixer.c:631-668). Every channel
 * that starts is given a share of the volume that the playing ones leave: the headroom.
 */
module DynamicVolume {

  // The individual multiplier for `busy` playing channels, the new one included, out of `channels`.
  function IMul(busy: int, channels: nat): real
    requires channels >= 2
  {
    0.5 + ((busy - 1) as real / (channels - 1) as real) * 0.5
  }

  // The group multiplier.
  function GMul(busy: int, channels: nat): real
    requires channels >= 2
  {
    1.0 - 0.5 * ((busy - 1) as real / (channels - 1) as real)
  }

  function TotVol(mul: seq<real>): real {
    if mul == [] then 0.0 else TotVol(mul[..|mul| - 1]) + mul[|mul| - 1]
  }

  function Headroom(mul: seq<real>): real {
    1.0 - TotVol(mul)
  }

  // The share of a channel that starts.
  function DynVol(mul: seq<real>, busy: int): real
    requires |mul| >= 2
  {
    IMul(busy, |mul|) * GMul(busy, |mul|) * Headroom(mul)
  }

  // Whatever the load, a new channel takes between 1/2 and 9/16 of the headroom: 1/2 if it is the only one
  // or the last one that is free, and 9/16 if half of the others play.
  lemma FactorBounds(busy: nat, channels: nat)
    requires 1 <= busy <= channels && channels >= 2
    ensures 0.5 <= IMul(busy, channels) * GMul(busy, channels) <= 9.0 / 16.0
    ensures var t := (busy - 1) as real / (channels - 1) as real;
            IMul(busy, channels) * GMul(busy, channels) == 0.5 + 0.25 * (t * (1.0 - t))
  {
    var t := (busy - 1) as real / (channels - 1) as real;
    QuotientBounds((busy - 1) as real, (channels - 1) as real);
    PartBounds(t);
    FactorIs(t);
  }

  lemma QuotientBounds(n: real, d: real)
    requires 0.0 <= n <= d && d > 0.0
    ensures 0.0 <= n / d <= 1.0
  {
  }

  lemma PartBounds(t: real)
    requires 0.0 <= t <= 1.0
    ensures 0.0 <= t * (1.0 - t) <= 0.25
  {
    NonNegativeProduct(t, 1.0 - t);
    SquareOfDistance(t);
    NonNegativeSquare(t - 0.5);
  }

  lemma NonNegativeProduct(a: real, b: real)
    requires a >= 0.0 && b >= 0.0
    ensures a * b >= 0.0
  {
  }

  lemma NonNegativeSquare(v: real)
    ensures v * v >= 0.0
  {
    if v >= 0.0 {
      NonNegativeProduct(v, v);
    } else {
      NonNegativeProduct(-v, -v);
    }
  }

  lemma SquareOfDistance(t: real)
    ensures t * (1.0 - t) == 0.25 - (t - 0.5) * (t - 0.5)
  {
  }

  lemma FactorIs(t: real)
    ensures (0.5 + t * 0.5) * (1.0 - 0.5 * t) == 0.5 + 0.25 * (t * (1.0 - t))
  {
  }

  lemma DynVolBounds(mul: seq<real>, busy: nat)
    requires 1 <= busy <= |mul| && |mul| >= 2
    requires Headroom(mul) >= 0.0
    ensures 0.5 * Headroom(mul) <= DynVol(mul, busy) <= 9.0 / 16.0 * Headroom(mul)
  {
    FactorBounds(busy, |mul|);
    var f := IMul(busy, |mul|) * GMul(busy, |mul|);
    var h := Headroom(mul);
    NonNegativeProduct(f - 0.5, h);
    NonNegativeProduct(9.0 / 16.0 - f, h);
  }

  lemma {:induction false} TotVolUpdate(mul: seq<real>, j: nat, v: real)
    requires j < |mul|
    ensures TotVol(mul[j := v]) == TotVol(mul) - mul[j] + v
  {
    var n := |mul| - 1;
    if j == n {
      assert mul[j := v][..n] == mul[..n];
    } else {
      assert mul[j := v][..n] == mul[..n][j := v];
      TotVolUpdate(mul[..n], j, v);
    }
  }

  lemma {:induction false} TotVolPrefix(mul: seq<real>, k: nat)
    requires k <= |mul| && forall i :: 0 <= i < |mul| ==> mul[i] >= 0.0
    ensures 0.0 <= TotVol(mul[..k]) <= TotVol(mul)
  {
    if k < |mul| {
      assert mul[..|mul| - 1][..k] == mul[..k];
      TotVolPrefix(mul[..|mul| - 1], k);
    } else {
      assert mul[..k] == mul;
      if mul != [] {
        TotVolPrefix(mul[..|mul| - 1], |mul| - 1);
        assert mul[..|mul| - 1][..|mul| - 1] == mul[..|mul| - 1];
      }
    }
  }

  lemma {:induction false} TotVolOfSilence(mul: seq<real>)
    requires forall i :: 0 <= i < |mul| ==> mul[i] == 0.0
    ensures TotVol(mul) == 0.0
  {
    if mul != [] {
      TotVolOfSilence(mul[..|mul| - 1]);
    }
  }

  // ---------- The multipliers over a whole run ----------

  // A channel that is silent starts, or one that plays stops.
  datatype VolOp = Start(channel: nat) | Stop(channel: nat)

  function Busy(mul: seq<real>): nat {
    if mul == [] then 0 else Busy(mul[..|mul| - 1]) + (if mul[|mul| - 1] != 0.0 then 1 else 0)
  }

  lemma {:induction false} BusyUpdate(mul: seq<real>, j: nat, v: real)
    requires j < |mul|
    ensures Busy(mul[j := v]) == Busy(mul) - (if mul[j] != 0.0 then 1 else 0) + (if v != 0.0 then 1 else 0)
    ensures Busy(mul) <= |mul| && (mul[j] == 0.0 ==> Busy(mul) < |mul|)
  {
    var n := |mul| - 1;
    if j == n {
      assert mul[j := v][..n] == mul[..n];
      if n > 0 {
        BusyUpdate(mul[..n], 0, mul[0]);
      }
    } else {
      assert mul[j := v][..n] == mul[..n][j := v];
      BusyUpdate(mul[..n], j, v);
    }
  }

  function VolStep(mul: seq<real>, op: VolOp): (r: seq<real>)
    requires |mul| >= 2
    ensures |r| == |mul|
  {
    match op
    case Start(j) =>
      if j < |mul| && mul[j] == 0.0 then
        BusyUpdate(mul, j, 0.0);
        mul[j := DynVol(mul, Busy(mul) + 1)]
      else mul
    case Stop(j) =>
      if j < |mul| then mul[j := 0.0] else mul
  }

  function VolRun(mul: seq<real>, ops: seq<VolOp>): (r: seq<real>)
    requires |mul| >= 2
    ensures |r| == |mul|
    decreases |ops|
  {
    if ops == [] then mul else VolRun(VolStep(mul, ops[0]), ops[1..])
  }

  ghost predicate Proper(mul: seq<real>) {
    (forall i :: 0 <= i < |mul| ==> mul[i] >= 0.0) && TotVol(mul) < 1.0
  }

  lemma VolStepEffect(mul: seq<real>, op: VolOp)
    requires |mul| >= 2 && Proper(mul)
    ensures Proper(VolStep(mul, op))
    ensures op.Start? && op.channel < |mul| && mul[op.channel] == 0.0 ==>
              7.0 / 16.0 * Headroom(mul) <= Headroom(VolStep(mul, op)) <= 0.5 * Headroom(mul)
              && VolStep(mul, op)[op.channel] > 0.0
    ensures op.Stop? && op.channel < |mul| ==>
              Headroom(VolStep(mul, op)) == Headroom(mul) + mul[op.channel]
  {
    match op
    case Start(j) =>
      if j < |mul| && mul[j] == 0.0 {
        BusyUpdate(mul, j, 0.0);
        DynVolBounds(mul, Busy(mul) + 1);
        TotVolUpdate(mul, j, DynVol(mul, Busy(mul) + 1));
      }
    case Stop(j) =>
      if j < |mul| {
        TotVolUpdate(mul, j, 0.0);
      }
  }

  // In every run from a proper state the shares stay non-negative and sum to less than 1.
  lemma {:induction false} SharesNeverFillTheVolume(mul: seq<real>, ops: seq<VolOp>)
    requires |mul| >= 2 && Proper(mul)
    ensures Proper(VolRun(mul, ops))
    ensures 0.0 <= TotVol(VolRun(mul, ops)) < 1.0
    decreases |ops|
  {
    if ops == [] {
      TotVolPrefix(mul, |mul|);
      assert mul[..|mul|] == mul;
    } else {
      VolStepEffect(mul, ops[0]);
      SharesNeverFillTheVolume(VolStep(mul, ops[0]), ops[1..]);
    }
  }

  function Pow(x: real, k: nat): real {
    if k == 0 then 1.0 else x * Pow(x, k - 1)
  }

  // Every operation starts a channel that is silent, each channel once.
  ghost predicate FreshStarts(mul: seq<real>, ops: seq<VolOp>) {
    && (forall i :: 0 <= i < |ops| ==> ops[i].Start? && ops[i].channel < |mul| && mul[ops[i].channel] == 0.0)
    && (forall i, k :: 0 <= i < k < |ops| ==> ops[i].channel != ops[k].channel)
  }

  lemma FreshStartsStep(mul: seq<real>, ops: seq<VolOp>)
    requires |mul| >= 2 && Proper(mul) && ops != [] && FreshStarts(mul, ops)
    ensures var next := VolStep(mul, ops[0]);
            |next| == |mul| && Proper(next) && FreshStarts(next, ops[1..])
    ensures 7.0 / 16.0 * Headroom(mul) <= Headroom(VolStep(mul, ops[0])) <= 0.5 * Headroom(mul)
  {
    VolStepEffect(mul, ops[0]);
    var next := VolStep(mul, ops[0]);
    var rest := ops[1..];
    forall i | 0 <= i < |rest|
      ensures rest[i].Start? && rest[i].channel < |next| && next[rest[i].channel] == 0.0
    {
      assert rest[i] == ops[i + 1];
      assert ops[0].channel != ops[i + 1].channel;
    }
  }

  // `h` scaled `k` times by `x`.
  function Shrunk(x: real, k: nat, h: real): real {
    if k == 0 then h else Shrunk(x, k - 1, x * h)
  }

  lemma {:induction false} ShrunkIsPower(x: real, k: nat, h: real)
    ensures Shrunk(x, k, h) == Pow(x, k) * h
  {
    if k > 0 {
      ShrunkIsPower(x, k - 1, x * h);
      assert Pow(x, k - 1) * (x * h) == x * Pow(x, k - 1) * h;
    }
  }

  lemma {:induction false} ShrunkMonotone(x: real, k: nat, h: real, h': real)
    requires x >= 0.0 && h <= h'
    ensures Shrunk(x, k, h) <= Shrunk(x, k, h')
  {
    if k > 0 {
      assert x * h <= x * h';
      ShrunkMonotone(x, k - 1, x * h, x * h');
    }
  }

  // Channels that start one after another, none stopping, leave a headroom that shrinks
  // geometrically: each takes away between 1/2 and 9/16 of it.
  lemma {:induction false} HeadroomShrinks(mul: seq<real>, ops: seq<VolOp>)
    requires |mul| >= 2 && Proper(mul) && FreshStarts(mul, ops)
    ensures Shrunk(7.0 / 16.0, |ops|, Headroom(mul)) <= Headroom(VolRun(mul, ops)) <= Shrunk(0.5, |ops|, Headroom(mul))
    decreases |ops|
  {
    if ops != [] {
      FreshStartsStep(mul, ops);
      var next := VolStep(mul, ops[0]);
      HeadroomShrinks(next, ops[1..]);
      ShrunkMonotone(7.0 / 16.0, |ops| - 1, 7.0 / 16.0 * Headroom(mul), Headroom(next));
      ShrunkMonotone(0.5, |ops| - 1, Headroom(next), 0.5 * Headroom(mul));
    }
  }

  // From silence, k channels leave a headroom between (7/16)^k and (1/2)^k.
  lemma HeadroomDecay(mul: seq<real>, ops: seq<VolOp>)
    requires |mul| >= 2 && FreshStarts(mul, ops)
    requires forall i :: 0 <= i < |mul| ==> mul[i] == 0.0
    ensures Pow(7.0 / 16.0, |ops|) <= Headroom(VolRun(mul, ops)) <= Pow(0.5, |ops|)
  {
    TotVolOfSilence(mul);
    HeadroomShrinks(mul, ops);
    ShrunkFromOne(|ops|, Headroom(VolRun(mul, ops)));
  }

  lemma ShrunkFromOne(k: nat, h: real)
    requires Shrunk(7.0 / 16.0, k, 1.0) <= h <= Shrunk(0.5, k, 1.0)
    ensures Pow(7.0 / 16.0, k) <= h <= Pow(0.5, k)
  {
    ShrunkIsPower(7.0 / 16.0, k, 1.0);
    ShrunkIsPower(0.5, k, 1.0);
  }
}
