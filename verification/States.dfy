/**
 * The state sounds: continuous streams of segments chosen at random, faded into one another
 * (server/mixer.c:358-429, 507-561, 617-629, 693-854).
 *
 * One state buffer is independent of the others, so the functions here are about one STATE_BUF with
 * its FADE_REC. A read outside an array, or of a threshold index that was never set, is undefined in
 * C; the outcome is then `Fault`.
 */
module States {
  import opened Events
  import opened Options
  import opened Sounds
  import opened Samples

  type Segment = seq<Sample>

  // STATE_SND: `bufs` is None until a threshold has been added; a segment is None until it is loaded.
  datatype StateSnd = StateSnd(bufs: Option<seq<Option<Segment>>>, sndNo: nat, pos: nat)

  datatype Threshold = Threshold(lBound: real, hBound: real, snd: StateSnd)

  // STATE_BUF
  datatype StateBuf = StateBuf(thresh: Option<seq<Threshold>>, stereo: real, vol: real, flags: int)

  // FADE_REC
  datatype FadeRec = FadeRec(fadeTime: real, snd: nat, pos: nat, oldThresh: Option<nat>)

  const SAMPLE_RATE: int := 44100
  const STATE_MULT: real := 0.4
  const MAX_FADE_TIME: real := 2.0

  // ---------- Choosing the sound ----------

  predicate Matches(t: Threshold, vol: real) {
    t.lBound <= vol <= t.hBound
  }

  // The last threshold that the volume lies in, from the i-th on; `dflt` if there is none.
  function LastMatch(ts: seq<Threshold>, vol: real, i: nat, dflt: nat): nat
    requires i <= |ts|
    decreases |ts| - i
  {
    if i == |ts| then dflt
    else LastMatch(ts, vol, i + 1, if Matches(ts[i], vol) then i else dflt)
  }

  // mixerGetStateSndPtr, as the index of the threshold whose sound it points to.
  function SndIndex(sb: StateBuf): (r: Option<nat>)
    ensures r.Some? ==> sb.thresh.Some? && r.value < |sb.thresh.value| && sb.thresh.value[r.value].snd.bufs.Some?
  {
    if sb.thresh.None? then None
    else
      var ts := sb.thresh.value;
      var index := LastMatch(ts, sb.vol, 0, 0);
      if |ts| <= index || ts[index].snd.bufs.None? then None else Some(index)
  }

  // mixerGetStateThreshIndex: the first threshold that the volume lies in. Without one the C function
  // returns no value.
  function FirstMatch(ts: seq<Threshold>, vol: real, i: nat): Option<nat>
    requires i <= |ts|
    decreases |ts| - i
  {
    if i == |ts| then None else if Matches(ts[i], vol) then Some(i) else FirstMatch(ts, vol, i + 1)
  }

  lemma {:induction false} LastMatchIs(ts: seq<Threshold>, vol: real, i: nat, dflt: nat)
    requires i <= |ts|
    ensures var k := LastMatch(ts, vol, i, dflt);
            if forall m :: i <= m < |ts| ==> !Matches(ts[m], vol) then k == dflt
            else i <= k < |ts| && Matches(ts[k], vol) && forall m :: k < m < |ts| ==> !Matches(ts[m], vol)
    decreases |ts| - i
  {
    if i < |ts| {
      LastMatchIs(ts, vol, i + 1, if Matches(ts[i], vol) then i else dflt);
    }
  }

  lemma {:induction false} FirstMatchIs(ts: seq<Threshold>, vol: real, i: nat)
    requires i <= |ts|
    ensures match FirstMatch(ts, vol, i)
            case None => forall m :: i <= m < |ts| ==> !Matches(ts[m], vol)
            case Some(k) => i <= k < |ts| && Matches(ts[k], vol) && forall m :: i <= m < k ==> !Matches(ts[m], vol)
    decreases |ts| - i
  {
    if i < |ts| && !Matches(ts[i], vol) {
      FirstMatchIs(ts, vol, i + 1);
    }
  }

  // The two searches name the same threshold exactly when the volume lies in one threshold only. At
  // a bound that two thresholds share they differ, and a fade reads the wrong sound.
  lemma SearchesAgreeIff(sb: StateBuf)
    requires SndIndex(sb).Some?
    ensures FirstMatch(sb.thresh.value, sb.vol, 0) == SndIndex(sb) <==>
            exists k :: 0 <= k < |sb.thresh.value| && Matches(sb.thresh.value[k], sb.vol)
              && forall m :: 0 <= m < |sb.thresh.value| && m != k ==> !Matches(sb.thresh.value[m], sb.vol)
  {
    FirstMatchIs(sb.thresh.value, sb.vol, 0);
    LastMatchIs(sb.thresh.value, sb.vol, 0, 0);
  }

  // ---------- The fade effect ----------

  // fade_pt: the number of samples over which a fade runs, made even with C's signed remainder.
  function FadePoint(fadeTime: real): (p: int)
    ensures p % 2 == 0
  {
    var p := Trunc(fadeTime * STEREO as real * SAMPLE_RATE as real);
    if p % 2 == 0 then p else if p > 0 then p + 1 else p - 1
  }

  // That is the number of samples in the fade time, two to a frame, rounded away from 0 to whole frames.
  lemma FadePointIs(fadeTime: real)
    ensures fadeTime >= 0.0 ==> -1.0 < FadePoint(fadeTime) as real - fadeTime * 88200.0 < 2.0
                                && FadePoint(fadeTime) >= Trunc(fadeTime * 88200.0)
    ensures FadePoint(-fadeTime) == -FadePoint(fadeTime)
  {
    var x := fadeTime * STEREO as real * SAMPLE_RATE as real;
    assert x == fadeTime * 88200.0;
    assert -fadeTime * STEREO as real * SAMPLE_RATE as real == -x;
  }

  function Current(sb: StateBuf, t: nat): StateSnd
    requires sb.thresh.Some? && t < |sb.thresh.value|
  {
    sb.thresh.value[t].snd
  }

  function WithSnd(sb: StateBuf, t: nat, ss: StateSnd): (r: StateBuf)
    requires sb.thresh.Some? && t < |sb.thresh.value|
    ensures r.thresh.Some? && |r.thresh.value| == |sb.thresh.value|
  {
    sb.(thresh := Some(sb.thresh.value[t := sb.thresh.value[t].(snd := ss)]))
  }

  // The length of the segment, 0 if it is not loaded.
  function SegLen(ss: StateSnd, k: nat): nat
    requires ss.bufs.Some? && k < |ss.bufs.value|
  {
    if ss.bufs.value[k].Some? then |ss.bufs.value[k].value| else 0
  }

  // mixerPickRndStateSnd
  function PickSnd(ss: StateSnd, draw: Draw): nat {
    if ss.bufs.None? then 0 else PickIndex(|ss.bufs.value|, draw)
  }

  // A sample of the sound that is being faded in.
  function ReadIncoming(sb: StateBuf, fr: FadeRec): Option<Sample> {
    if fr.oldThresh.None? || sb.thresh.None? || fr.oldThresh.value >= |sb.thresh.value| then None
    else
      var bufs := sb.thresh.value[fr.oldThresh.value].snd.bufs;
      if bufs.None? || fr.snd >= |bufs.value| || bufs.value[fr.snd].None?
         || fr.pos >= |bufs.value[fr.snd].value| then None
      else Some(bufs.value[fr.snd].value[fr.pos])
  }

  // What a state contributes to one channel of one frame, before the arithmetic: nothing, a sample
  // of its segment, or that sample mixed with one of the incoming segment, the outgoing one with
  // weight remainder / fadePt.
  datatype Signal =
    | Zero
    | Plain(vol: real, pan: real, sample: int)
    | Mix(outgoing: Signal, incoming: int, stereo: real, vol: real, remainder: int, fadePt: int)

  // The factor by which a state's samples are scaled.
  function Gain(vol: real, pan: real): real {
    vol * pan * STATE_MULT
  }

  // The weight of the outgoing segment.
  function Weight(remainder: int, fadePt: int): real {
    if fadePt == 0 then 0.0 else remainder as real / fadePt as real
  }

  // The value the code computes for a signal.
  function Level(s: Signal): int {
    match s
    case Zero => 0
    case Plain(vol, pan, x) => Trunc(Scaled(Gain(vol, pan), x as real))
    case Mix(out, x, stereo, vol, remainder, fadePt) =>
      Trunc(Mixture(Level(out) as real, Scaled(Gain(vol, stereo), x as real), Weight(remainder, fadePt)))
  }

  datatype FadeOutcome = Fault | Faded(signal: Signal, sb: StateBuf, fr: FadeRec)

  // mixerFadeEffect for a sample `data` at position `pos`.
  function FadeEffect(sb: StateBuf, fr: FadeRec, data: Signal, pos: nat, draw: Draw): FadeOutcome {
    var idx := SndIndex(sb);
    if idx.None? then Faded(Zero, sb, fr)
    else
      var t := idx.value;
      var ss := Current(sb, t);
      if ss.sndNo >= |ss.bufs.value| then Fault
      else
        var fadePt := FadePoint(fr.fadeTime);
        var remainder := SegLen(ss, ss.sndNo) - pos;
        if remainder > fadePt then Faded(data, sb, fr)
        else if remainder == fadePt then
          Faded(data, sb, fr.(snd := PickSnd(ss, draw), pos := ss.pos % 2,
                              oldThresh := FirstMatch(sb.thresh.value, sb.vol, 0)))
        else
          var incoming := ReadIncoming(sb, fr);
          if incoming.None? || fadePt == 0 then Fault
          else
            var stereo := if ss.pos % 2 == 1 then 1.0 - sb.stereo else sb.stereo;
            var fr' := fr.(pos := fr.pos + 1);
            var sb' := if ss.pos + STEREO >= SegLen(ss, ss.sndNo)
                       then WithSnd(sb, t, ss.(sndNo := fr.snd, pos := fr'.pos)) else sb;
            Faded(Mix(data, incoming.value, stereo, sb.vol, remainder, fadePt), sb', fr')
  }

  // mixerApplyStateFilters: the one flag there is runs the fade.
  function ApplyFilters(sb: StateBuf, fr: FadeRec, data: Signal, pos: nat, draw: Draw): FadeOutcome {
    if sb.flags % 2 == 1 then FadeEffect(sb, fr, data, pos, draw) else Faded(data, sb, fr)
  }

  // ---------- One stereo frame ----------

  // Silent: the buffer contributes nothing and is left as it is.
  datatype FrameOutcome = FrameFault | Silent | Frame(left: Signal, right: Signal, sb: StateBuf, fr: FadeRec)

  // What rand() returns in the calls that one frame may make.
  datatype Draws = Draws(left: Draw, right: Draw, end: Draw)

  // The mixer's loop body for one state buffer.
  function StateFrame(sb: StateBuf, fr: FadeRec, d: Draws): FrameOutcome {
    var idx := SndIndex(sb);
    if sb.vol == 0.0 || idx.None? then Silent
    else
      var t := idx.value;
      var ss := Current(sb, t);
      if ss.sndNo >= |ss.bufs.value| then FrameFault
      else if ss.bufs.value[ss.sndNo].None? then Silent
      else
        var seg := ss.bufs.value[ss.sndNo].value;
        if ss.pos + 1 >= |seg| then FrameFault
        else
          var sleft := Plain(sb.vol, sb.stereo, seg[ss.pos]);
          var sright := Plain(sb.vol, 1.0 - sb.stereo, seg[ss.pos + 1]);
          match ApplyFilters(sb, fr, sleft, ss.pos, d.left)
          case Fault => FrameFault
          case Faded(left, sb1, fr1) =>
            if sb1.thresh.None? || t >= |sb1.thresh.value| then FrameFault
            else
              match ApplyFilters(sb1, fr1, sright, Current(sb1, t).pos + 1, d.right)
              case Fault => FrameFault
              case Faded(right, sb2, fr2) =>
                if sb2.thresh.None? || t >= |sb2.thresh.value| then FrameFault
                else FinishFrame(left, right, sb2, fr2, t, d.end)
  }

  // The position moves on; at the end of the segment a new one is drawn.
  function FinishFrame(left: Signal, right: Signal, sb: StateBuf, fr: FadeRec, t: nat, draw: Draw): FrameOutcome
    requires sb.thresh.Some? && t < |sb.thresh.value|
  {
    var ss := Current(sb, t);
    var pos := ss.pos + STEREO;
    if ss.bufs.None? || ss.sndNo >= |ss.bufs.value| then FrameFault
    else if pos >= SegLen(ss, ss.sndNo)
    then Frame(left, right, WithSnd(sb, t, ss.(sndNo := PickSnd(ss, draw), pos := 0)), fr)
    else Frame(left, right, WithSnd(sb, t, ss.(pos := pos)), fr)
  }

  // engineIO for a state event: fade time, volume, position and flags (server/engine.c:574-617).
  function SetState(sb: StateBuf, fr: FadeRec, ev: Event): (r: (StateBuf, FadeRec)) {
    (sb.(vol := ev.vol as real / 255.0, stereo := ev.loc as real / 255.0, flags := ev.flags),
     if ev.dither != 255 then fr.(fadeTime := ev.dither as real / (255.0 / MAX_FADE_TIME)) else fr)
  }

  // A fade mixes in the sound of the threshold that the second search names when it starts: that of the
  // sound that plays exactly if the volume lies in one threshold only.
  lemma FadeMixesOwnSoundIff(sb: StateBuf, fr: FadeRec, data: Signal, pos: nat, draw: Draw)
    requires SndIndex(sb).Some?
    requires var ss := Current(sb, SndIndex(sb).value);
             ss.sndNo < |ss.bufs.value| && SegLen(ss, ss.sndNo) - pos == FadePoint(fr.fadeTime)
    ensures var r := FadeEffect(sb, fr, data, pos, draw);
            && r.Faded? && r.sb == sb
            && (r.fr.oldThresh == SndIndex(sb) <==>
                  exists k :: 0 <= k < |sb.thresh.value| && Matches(sb.thresh.value[k], sb.vol)
                    && forall m :: 0 <= m < |sb.thresh.value| && m != k ==> !Matches(sb.thresh.value[m], sb.vol))
  {
    hide FadePoint, PickSnd;
    SearchesAgreeIff(sb);
  }

  // The volume 153 of 255 lies on the bound that two thresholds share.
  function OnBound(low: Segment, high: Segment, pos: nat): StateBuf {
    StateBuf(Some([Threshold(0.0, 0.6, StateSnd(Some([Some(low)]), 0, 0)),
                   Threshold(0.6, 1.0, StateSnd(Some([Some(high)]), 0, pos))]),
             0.5, 153 as real / 255.0, 1)
  }

  // There the louder sound plays, and the fade between its segments mixes in the quieter one.
  lemma FadeMixesInAnotherSound(low: Segment, high: Segment, pos: nat, fr: FadeRec, a: Signal, b: Signal, d: Draw)
    requires low != [] && pos % 2 == 0 && |high| - pos == FadePoint(fr.fadeTime) >= 4
    ensures var sb := OnBound(low, high, pos);
            var r := FadeEffect(sb, fr, a, pos, d);
            && SndIndex(sb) == Some(1) && Current(sb, 1).bufs.value == [Some(high)] && r.Faded?
            && var next := FadeEffect(r.sb, r.fr, b, pos + 1, d);
               next.Faded? && next.signal == Mix(b, low[0], 0.5, 0.6, |high| - pos - 1, |high| - pos)
  {
    var sb := OnBound(low, high, pos);
    LastMatchIs(sb.thresh.value, sb.vol, 0, 0);
    FirstMatchIs(sb.thresh.value, sb.vol, 0);
    assert Matches(sb.thresh.value[0], sb.vol) && Matches(sb.thresh.value[1], sb.vol);
    hide FadePoint;
    assert PickSnd(Current(sb, 1), d) == 0;
  }
}
