/**
 * The cross-fade between state segments over whole runs (server/mixer.c:534-557, 748-854), for a
 * state that keeps its volume, strictly inside one threshold, and its fade time.
 */
module CrossFade {
  import opened Options
  import opened Sounds
  import opened Samples
  import opened States

  // What a state keeps while nothing is sent to it: its volume lies in threshold t alone, its
  // segments are loaded, and each is long enough for a fade at both ends.
  ghost predicate Settings(sb: StateBuf, fr: FadeRec, t: nat) {
    && sb.thresh.Some? && t < |sb.thresh.value|
    && (forall m :: 0 <= m < |sb.thresh.value| ==> (Matches(sb.thresh.value[m], sb.vol) <==> m == t))
    && sb.vol > 0.0 && 0.0 <= sb.stereo <= 1.0 && sb.flags % 2 == 1
    && FadePoint(fr.fadeTime) >= 2
    && LongSegments(Current(sb, t), FadePoint(fr.fadeTime))
  }

  ghost predicate LongSegments(ss: StateSnd, fp: nat) {
    && ss.bufs.Some? && ss.bufs.value != []
    && forall k :: 0 <= k < |ss.bufs.value| ==> LongSegment(ss.bufs.value[k], fp)
  }

  ghost predicate LongSegment(b: Option<Segment>, fp: nat) {
    b.Some? && |b.value| % 2 == 0 && |b.value| >= 2 * fp
  }

  // The length of the segment that plays.
  function Len(sb: StateBuf, t: nat): nat {
    if sb.thresh.Some? && t < |sb.thresh.value| && Current(sb, t).bufs.Some?
       && Current(sb, t).sndNo < |Current(sb, t).bufs.value|
    then SegLen(Current(sb, t), Current(sb, t).sndNo) else 0
  }

  // Between frames: either no fade runs, or the incoming segment has been read up to the sample one
  // before the frame's distance from the start of the fade.
  ghost predicate Steady(sb: StateBuf, fr: FadeRec, t: nat) {
    && Settings(sb, fr, t)
    && var ss := Current(sb, t);
       var fp := FadePoint(fr.fadeTime);
       && fp >= 4
       && ss.sndNo < |ss.bufs.value|
       && ss.pos % 2 == 0 && ss.pos < Len(sb, t)
       && (InFade(sb, fr, t) ==>
             && fr.snd < |ss.bufs.value|
             && fr.oldThresh == Some(t)
             && fr.pos == ss.pos - (Len(sb, t) - fp) - 1)
  }

  // A fade has started and not yet handed over.
  predicate InFade(sb: StateBuf, fr: FadeRec, t: nat) {
    sb.thresh.Some? && t < |sb.thresh.value| && Current(sb, t).pos > Len(sb, t) - FadePoint(fr.fadeTime)
  }

  // The next frame starts a fade; it is the last one of its segment.
  predicate AtStart(sb: StateBuf, fr: FadeRec, t: nat) {
    sb.thresh.Some? && t < |sb.thresh.value| && Current(sb, t).pos == Len(sb, t) - FadePoint(fr.fadeTime)
  }

  predicate AtEnd(sb: StateBuf, t: nat) {
    sb.thresh.Some? && t < |sb.thresh.value| && Current(sb, t).pos + STEREO == Len(sb, t)
  }

  lemma SettingsSelect(sb: StateBuf, fr: FadeRec, t: nat)
    requires Settings(sb, fr, t)
    ensures SndIndex(sb) == Some(t) && FirstMatch(sb.thresh.value, sb.vol, 0) == Some(t)
  {
    FirstMatchIs(sb.thresh.value, sb.vol, 0);
    LastMatchIs(sb.thresh.value, sb.vol, 0, 0);
  }

  // Moving within the sound keeps the settings.
  lemma SettingsAfterMove(sb: StateBuf, fr: FadeRec, t: nat, sndNo: nat, pos: nat, fr': FadeRec)
    requires Settings(sb, fr, t) && fr'.fadeTime == fr.fadeTime
    requires sndNo < |Current(sb, t).bufs.value|
    ensures var sb' := WithSnd(sb, t, Current(sb, t).(sndNo := sndNo, pos := pos));
            Settings(sb', fr', t) && Current(sb', t).bufs == Current(sb, t).bufs
            && Current(sb', t).sndNo == sndNo && Current(sb', t).pos == pos
            && Len(sb', t) == SegLen(Current(sb, t), sndNo)
  {
    var sb' := WithSnd(sb, t, Current(sb, t).(sndNo := sndNo, pos := pos));
    forall m | 0 <= m < |sb'.thresh.value| ensures Matches(sb'.thresh.value[m], sb'.vol) <==> m == t {
      assert Matches(sb.thresh.value[m], sb.vol) <==> m == t;
    }
  }

  // ---------- One sample ----------

  lemma NoFadeYet(sb: StateBuf, fr: FadeRec, t: nat, data: Signal, pos: nat, draw: Draw)
    requires Settings(sb, fr, t) && Current(sb, t).sndNo < |Current(sb, t).bufs.value|
    requires Len(sb, t) - pos > FadePoint(fr.fadeTime)
    ensures ApplyFilters(sb, fr, data, pos, draw) == Faded(data, sb, fr)
  {
    SettingsSelect(sb, fr, t);
  }

  lemma FadeStarts(sb: StateBuf, fr: FadeRec, t: nat, data: Signal, pos: nat, draw: Draw)
    requires Settings(sb, fr, t) && Current(sb, t).sndNo < |Current(sb, t).bufs.value|
    requires Len(sb, t) - pos == FadePoint(fr.fadeTime)
    ensures ApplyFilters(sb, fr, data, pos, draw)
            == Faded(data, sb,
                     fr.(snd := PickSnd(Current(sb, t), draw), pos := Current(sb, t).pos % 2, oldThresh := Some(t)))
  {
    SettingsSelect(sb, fr, t);
  }

  // Within a fade the incoming sample is in range, its weight lies strictly between 0 and 1, and the
  // sound is handed over when the frame is the last of its segment. The incoming sample is heard at the
  // position of the left side, or of the right one if the sound is out of step.
  lemma FadeMixes(sb: StateBuf, fr: FadeRec, t: nat, data: Signal, pos: nat, draw: Draw)
    requires Settings(sb, fr, t) && Current(sb, t).sndNo < |Current(sb, t).bufs.value|
    requires 0 < Len(sb, t) - pos < FadePoint(fr.fadeTime)
    requires fr.oldThresh == Some(t) && fr.snd < |Current(sb, t).bufs.value| && fr.pos < FadePoint(fr.fadeTime)
    ensures var ss := Current(sb, t);
            var seg := ss.bufs.value[fr.snd];
            && seg.Some? && fr.pos < |seg.value|
            && ApplyFilters(sb, fr, data, pos, draw)
               == Faded(Mix(data, seg.value[fr.pos], if ss.pos % 2 == 0 then sb.stereo else 1.0 - sb.stereo, sb.vol,
                            Len(sb, t) - pos, FadePoint(fr.fadeTime)),
                        if ss.pos + STEREO >= Len(sb, t)
                        then WithSnd(sb, t, ss.(sndNo := fr.snd, pos := fr.pos + 1)) else sb,
                        fr.(pos := fr.pos + 1))
  {
    SettingsSelect(sb, fr, t);
    assert LongSegment(Current(sb, t).bufs.value[fr.snd], FadePoint(fr.fadeTime));
  }

  // ---------- One frame ----------

  // The incoming segment of a fade.
  function Incoming(sb: StateBuf, fr: FadeRec, t: nat): Segment
    requires Settings(sb, fr, t) && fr.snd < |Current(sb, t).bufs.value|
  {
    assert LongSegment(Current(sb, t).bufs.value[fr.snd], FadePoint(fr.fadeTime));
    Current(sb, t).bufs.value[fr.snd].value
  }

  function Playing(sb: StateBuf, fr: FadeRec, t: nat): Segment
    requires Settings(sb, fr, t) && Current(sb, t).sndNo < |Current(sb, t).bufs.value|
  {
    assert LongSegment(Current(sb, t).bufs.value[Current(sb, t).sndNo], FadePoint(fr.fadeTime));
    Current(sb, t).bufs.value[Current(sb, t).sndNo].value
  }

  function MovedTo(sb: StateBuf, t: nat, sndNo: nat, pos: nat): StateBuf
    requires sb.thresh.Some? && t < |sb.thresh.value|
  {
    WithSnd(sb, t, Current(sb, t).(sndNo := sndNo, pos := pos))
  }

  // A frame is its two filtered samples, one after the other.
  lemma FrameIs(sb: StateBuf, fr: FadeRec, t: nat, d: Draws,
                left: Signal, sb1: StateBuf, fr1: FadeRec, right: Signal, sb2: StateBuf, fr2: FadeRec)
    requires Settings(sb, fr, t) && Current(sb, t).sndNo < |Current(sb, t).bufs.value|
    requires sb1.thresh.Some? && t < |sb1.thresh.value| && sb2.thresh.Some? && t < |sb2.thresh.value|
    requires var seg := Playing(sb, fr, t);
             var pos := Current(sb, t).pos;
             && pos + 1 < |seg|
             && ApplyFilters(sb, fr, Plain(sb.vol, sb.stereo, seg[pos]), pos, d.left) == Faded(left, sb1, fr1)
             && ApplyFilters(sb1, fr1, Plain(sb.vol, 1.0 - sb.stereo, seg[pos + 1]), Current(sb1, t).pos + 1, d.right)
                == Faded(right, sb2, fr2)
    ensures StateFrame(sb, fr, d) == FinishFrame(left, right, sb2, fr2, t, d.end)
  {
    hide ApplyFilters, FinishFrame;
    SettingsSelect(sb, fr, t);
  }

  lemma MovedTwice(sb: StateBuf, t: nat, sndNo: nat, pos: nat, pos': nat)
    requires sb.thresh.Some? && t < |sb.thresh.value|
    ensures MovedTo(MovedTo(sb, t, sndNo, pos), t, sndNo, pos') == MovedTo(sb, t, sndNo, pos')
  {
    assert MovedTo(MovedTo(sb, t, sndNo, pos), t, sndNo, pos').thresh.value == MovedTo(sb, t, sndNo, pos').thresh.value;
  }

  // Within the segment, the next position is steady if the fade record keeps pace.
  lemma SteadyAfterMove(sb: StateBuf, fr: FadeRec, t: nat, fr': FadeRec)
    requires Steady(sb, fr, t) && !AtEnd(sb, t) && fr'.fadeTime == fr.fadeTime
    requires var ss := Current(sb, t);
             var p := ss.pos + STEREO - (Len(sb, t) - FadePoint(fr.fadeTime));
             p > 0 ==> fr'.snd < |ss.bufs.value| && fr'.oldThresh == Some(t) && fr'.pos == p - 1
    ensures Steady(MovedTo(sb, t, Current(sb, t).sndNo, Current(sb, t).pos + STEREO), fr', t)
  {
    var ss := Current(sb, t);
    SettingsAfterMove(sb, fr, t, ss.sndNo, ss.pos + STEREO, fr');
    assert LongSegment(ss.bufs.value[ss.sndNo], FadePoint(fr.fadeTime));
  }

  // Away from a fade both samples of a frame are the segment's own.
  lemma FrameBeforeFade(sb: StateBuf, fr: FadeRec, t: nat, d: Draws)
    requires Steady(sb, fr, t) && !InFade(sb, fr, t) && !AtStart(sb, fr, t)
    ensures var ss := Current(sb, t);
            var seg := Playing(sb, fr, t);
            && ss.pos + 1 < |seg|
            && StateFrame(sb, fr, d)
               == Frame(Plain(sb.vol, sb.stereo, seg[ss.pos]), Plain(sb.vol, 1.0 - sb.stereo, seg[ss.pos + 1]),
                        MovedTo(sb, t, ss.sndNo, ss.pos + STEREO), fr)
    ensures Steady(MovedTo(sb, t, Current(sb, t).sndNo, Current(sb, t).pos + STEREO), fr, t)
  {
    hide StateFrame, ApplyFilters;
    var ss := Current(sb, t);
    var seg := Playing(sb, fr, t);
    assert LongSegment(ss.bufs.value[ss.sndNo], FadePoint(fr.fadeTime));
    var l := Plain(sb.vol, sb.stereo, seg[ss.pos]);
    var r := Plain(sb.vol, 1.0 - sb.stereo, seg[ss.pos + 1]);
    NoFadeYet(sb, fr, t, l, ss.pos, d.left);
    NoFadeYet(sb, fr, t, r, ss.pos + 1, d.right);
    FrameIs(sb, fr, t, d, l, sb, fr, r, sb, fr);
    SteadyAfterMove(sb, fr, t, fr);
  }

  // The frame whose left sample is fade_pt from the end starts the fade; its right sample already
  // mixes in sample 0 of the segment that was drawn.
  lemma FrameStartsFade(sb: StateBuf, fr: FadeRec, t: nat, d: Draws)
    requires Steady(sb, fr, t) && AtStart(sb, fr, t)
    ensures var ss := Current(sb, t);
            var seg := Playing(sb, fr, t);
            var pick := PickSnd(ss, d.left);
            var fr1 := fr.(snd := pick, pos := 0, oldThresh := Some(t));
            && pick < |ss.bufs.value| && ss.pos + 1 < |seg|
            && 0 < |Incoming(sb, fr1, t)|
            && StateFrame(sb, fr, d)
               == Frame(Plain(sb.vol, sb.stereo, seg[ss.pos]),
                        Mix(Plain(sb.vol, 1.0 - sb.stereo, seg[ss.pos + 1]), Incoming(sb, fr1, t)[0],
                              sb.stereo, sb.vol, Len(sb, t) - (ss.pos + 1), FadePoint(fr.fadeTime)),
                        MovedTo(sb, t, ss.sndNo, ss.pos + STEREO), fr1.(pos := 1))
    ensures var pick := PickSnd(Current(sb, t), d.left);
            Steady(MovedTo(sb, t, Current(sb, t).sndNo, Current(sb, t).pos + STEREO),
                   fr.(snd := pick, pos := 1, oldThresh := Some(t)), t)
  {
    hide StateFrame, ApplyFilters;
    var ss := Current(sb, t);
    var seg := Playing(sb, fr, t);
    var fr1 := fr.(snd := PickSnd(ss, d.left), pos := 0, oldThresh := Some(t));
    assert LongSegment(ss.bufs.value[ss.sndNo], FadePoint(fr.fadeTime));
    var l := Plain(sb.vol, sb.stereo, seg[ss.pos]);
    var r := Plain(sb.vol, 1.0 - sb.stereo, seg[ss.pos + 1]);
    FadeStarts(sb, fr, t, l, ss.pos, d.left);
    FadeMixes(sb, fr1, t, r, ss.pos + 1, d.right);
    FrameIs(sb, fr, t, d, l, sb, fr1,
            Mix(r, Incoming(sb, fr1, t)[0], sb.stereo, sb.vol, Len(sb, t) - (ss.pos + 1), FadePoint(fr.fadeTime)),
            sb, fr1.(pos := 1));
    SteadyAfterMove(sb, fr, t, fr1.(pos := 1));
  }

  // In the middle of a fade both samples are mixtures. The incoming segment is read one sample late,
  // so its right samples go to the left channel and its left samples to the right one.
  lemma FrameInFade(sb: StateBuf, fr: FadeRec, t: nat, d: Draws)
    requires Steady(sb, fr, t) && InFade(sb, fr, t) && !AtEnd(sb, t)
    ensures var ss := Current(sb, t);
            var seg := Playing(sb, fr, t);
            var inc := Incoming(sb, fr, t);
            && ss.pos + 1 < |seg| && fr.pos % 2 == 1 && fr.pos + 1 < |inc|
            && StateFrame(sb, fr, d)
               == Frame(Mix(Plain(sb.vol, sb.stereo, seg[ss.pos]), inc[fr.pos],
                              sb.stereo, sb.vol, Len(sb, t) - ss.pos, FadePoint(fr.fadeTime)),
                        Mix(Plain(sb.vol, 1.0 - sb.stereo, seg[ss.pos + 1]), inc[fr.pos + 1],
                              sb.stereo, sb.vol, Len(sb, t) - (ss.pos + 1), FadePoint(fr.fadeTime)),
                        MovedTo(sb, t, ss.sndNo, ss.pos + STEREO), fr.(pos := fr.pos + 2))
    ensures Steady(MovedTo(sb, t, Current(sb, t).sndNo, Current(sb, t).pos + STEREO), fr.(pos := fr.pos + 2), t)
  {
    hide StateFrame, ApplyFilters, FadePoint, SndIndex, FirstMatch;
    var ss := Current(sb, t);
    var seg := Playing(sb, fr, t);
    assert LongSegment(ss.bufs.value[ss.sndNo], FadePoint(fr.fadeTime));
    var l := Plain(sb.vol, sb.stereo, seg[ss.pos]);
    var r := Plain(sb.vol, 1.0 - sb.stereo, seg[ss.pos + 1]);
    var fr1 := fr.(pos := fr.pos + 1);
    var fr2 := fr.(pos := fr.pos + 2);
    var inc := Incoming(sb, fr, t);
    FadeMixes(sb, fr, t, l, ss.pos, d.left);
    FadeMixes(sb, fr1, t, r, ss.pos + 1, d.right);
    FrameIs(sb, fr, t, d,
            Mix(l, inc[fr.pos], sb.stereo, sb.vol, Len(sb, t) - ss.pos, FadePoint(fr.fadeTime)), sb, fr1,
            Mix(r, inc[fr.pos + 1], sb.stereo, sb.vol, Len(sb, t) - (ss.pos + 1), FadePoint(fr.fadeTime)), sb, fr2);
    SteadyAfterMove(sb, fr, t, fr2);
  }

  // The last frame of a segment hands over on its left sample, at position fade_pt - 2 of the new
  // segment; the frame ends at fade_pt, so the end-of-sound branch is not taken.
  lemma FrameHandsOver(sb: StateBuf, fr: FadeRec, t: nat, d: Draws)
    requires Steady(sb, fr, t) && AtEnd(sb, t)
    ensures InFade(sb, fr, t)
    ensures var ss := Current(sb, t);
            var seg := Playing(sb, fr, t);
            var inc := Incoming(sb, fr, t);
            var fp := FadePoint(fr.fadeTime);
            && ss.pos + 1 < |seg| && fr.pos == fp - 3 && fp < |inc|
            && StateFrame(sb, fr, d)
               == Frame(Mix(Plain(sb.vol, sb.stereo, seg[ss.pos]), inc[fr.pos],
                              sb.stereo, sb.vol, Len(sb, t) - ss.pos, FadePoint(fr.fadeTime)),
                        Plain(sb.vol, 1.0 - sb.stereo, seg[ss.pos + 1]),
                        MovedTo(sb, t, fr.snd, fp), fr.(pos := fp - 2))
    ensures var fp := FadePoint(fr.fadeTime);
            var sb' := MovedTo(sb, t, fr.snd, fp);
            Steady(sb', fr.(pos := fp - 2), t) && !InFade(sb', fr.(pos := fp - 2), t)
  {
    hide StateFrame, ApplyFilters;
    var ss := Current(sb, t);
    var seg := Playing(sb, fr, t);
    var fp := FadePoint(fr.fadeTime);
    assert LongSegment(ss.bufs.value[ss.sndNo], fp);
    var l := Plain(sb.vol, sb.stereo, seg[ss.pos]);
    var r := Plain(sb.vol, 1.0 - sb.stereo, seg[ss.pos + 1]);
    FadeMixes(sb, fr, t, l, ss.pos, d.left);
    var fr1 := fr.(pos := fp - 2);
    var sb1 := MovedTo(sb, t, fr.snd, fp - 2);
    SettingsAfterMove(sb, fr, t, fr.snd, fp - 2, fr1);
    assert LongSegment(ss.bufs.value[fr.snd], fp);
    NoFadeYet(sb1, fr1, t, r, fp - 1, d.right);
    FrameIs(sb, fr, t, d,
            Mix(l, Incoming(sb, fr, t)[fr.pos], sb.stereo, sb.vol, Len(sb, t) - ss.pos, fp), sb1, fr1, r, sb1, fr1);
    MovedTwice(sb, t, fr.snd, fp - 2, fp);
    SettingsAfterMove(sb, fr, t, fr.snd, fp, fr1);
  }

  // ---------- Whole runs ----------

  // The state after the given frames; None if one of them faults.
  function After(sb: StateBuf, fr: FadeRec, ds: seq<Draws>): Option<(StateBuf, FadeRec)>
    decreases |ds|
  {
    if ds == [] then Some((sb, fr))
    else
      match StateFrame(sb, fr, ds[0])
      case FrameFault => None
      case Silent => After(sb, fr, ds[1..])
      case Frame(_, _, sb', fr') => After(sb', fr', ds[1..])
  }

  // How many of the frames start a fade, and how many hand over.
  function Starts(sb: StateBuf, fr: FadeRec, t: nat, ds: seq<Draws>): nat
    decreases |ds|
  {
    if ds == [] then 0
    else
      (if AtStart(sb, fr, t) then 1 else 0) +
      match StateFrame(sb, fr, ds[0])
      case FrameFault => 0
      case Silent => Starts(sb, fr, t, ds[1..])
      case Frame(_, _, sb', fr') => Starts(sb', fr', t, ds[1..])
  }

  function Handovers(sb: StateBuf, fr: FadeRec, t: nat, ds: seq<Draws>): nat
    decreases |ds|
  {
    if ds == [] then 0
    else
      (if AtEnd(sb, t) then 1 else 0) +
      match StateFrame(sb, fr, ds[0])
      case FrameFault => 0
      case Silent => Handovers(sb, fr, t, ds[1..])
      case Frame(_, _, sb', fr') => Handovers(sb', fr', t, ds[1..])
  }

  // The one frame, whichever it is: it plays, stays steady, and changes only the playing position.
  lemma SteadyFrame(sb: StateBuf, fr: FadeRec, t: nat, d: Draws)
    requires Steady(sb, fr, t)
    ensures var r := StateFrame(sb, fr, d);
            && r.Frame? && Steady(r.sb, r.fr, t) && r.fr.fadeTime == fr.fadeTime && r.sb.vol == sb.vol
            && r.sb == MovedTo(sb, t, Current(r.sb, t).sndNo, Current(r.sb, t).pos)
            && (InFade(r.sb, r.fr, t) <==> (InFade(sb, fr, t) || AtStart(sb, fr, t)) && !AtEnd(sb, t))
            && (AtEnd(sb, t) ==> InFade(sb, fr, t))
            && (if AtEnd(sb, t)
                then Current(r.sb, t).sndNo == fr.snd && Current(r.sb, t).pos == FadePoint(fr.fadeTime)
                else Current(r.sb, t).sndNo == Current(sb, t).sndNo
                     && Current(r.sb, t).pos == Current(sb, t).pos + STEREO
                     && Len(r.sb, t) == Len(sb, t))
            && (AtStart(sb, fr, t) ==> r.fr.snd == PickSnd(Current(sb, t), d.left))
            && (!AtStart(sb, fr, t) ==> r.fr.snd == fr.snd)
  {
    hide StateFrame;
    if AtEnd(sb, t) {
      FrameHandsOver(sb, fr, t, d);
    } else if InFade(sb, fr, t) {
      FrameInFade(sb, fr, t, d);
    } else if AtStart(sb, fr, t) {
      FrameStartsFade(sb, fr, t, d);
    } else {
      FrameBeforeFade(sb, fr, t, d);
    }
  }

  // In every run no read is out of range, the stream stays in step, and fades are started and handed
  // over in turn: between two hand-overs exactly one fade starts.
  lemma {:induction false} EveryFadeStartsOnce(sb: StateBuf, fr: FadeRec, t: nat, ds: seq<Draws>)
    requires Steady(sb, fr, t)
    ensures var r := After(sb, fr, ds);
            && r.Some? && Steady(r.value.0, r.value.1, t)
            && Starts(sb, fr, t, ds) + (if InFade(sb, fr, t) then 1 else 0)
               == Handovers(sb, fr, t, ds) + (if InFade(r.value.0, r.value.1, t) then 1 else 0)
    decreases |ds|
  {
    hide StateFrame;
    if ds != [] {
      SteadyFrame(sb, fr, t, ds[0]);
      var r := StateFrame(sb, fr, ds[0]);
      EveryFadeStartsOnce(r.sb, r.fr, t, ds[1..]);
    }
  }

  // A segment plays to its very end and is then followed, fade_pt samples in, by the one drawn by
  // the frame that was fade_pt before the end.
  lemma {:induction false} SegmentPlaysThrough(sb: StateBuf, fr: FadeRec, t: nat, ds: seq<Draws>)
    requires Steady(sb, fr, t) && STEREO * |ds| == Len(sb, t) - Current(sb, t).pos
    ensures var r := After(sb, fr, ds);
            var k := (Len(sb, t) - FadePoint(fr.fadeTime) - Current(sb, t).pos) / STEREO;
            && r.Some? && Steady(r.value.0, r.value.1, t) && !InFade(r.value.0, r.value.1, t)
            && Current(r.value.0, t).pos == FadePoint(fr.fadeTime)
            && (!InFade(sb, fr, t) ==> 0 <= k < |ds|)
            && Current(r.value.0, t).sndNo == if InFade(sb, fr, t) then fr.snd else PickSnd(Current(sb, t), ds[k].left)
    decreases |ds|
  {
    hide StateFrame, LongSegments, Len, FadePoint, PickIndex;
    SteadyFrame(sb, fr, t, ds[0]);
    var r := StateFrame(sb, fr, ds[0]);
    if AtEnd(sb, t) {
      assert |ds| == 1;
    } else {
      SegmentPlaysThrough(r.sb, r.fr, t, ds[1..]);
    }
  }

  // ---------- The shortest fade ----------

  lemma FrameOfShortestFade(sb: StateBuf, fr: FadeRec, t: nat, d: Draws)
    requires Settings(sb, fr, t) && Current(sb, t).sndNo < |Current(sb, t).bufs.value|
    requires AtStart(sb, fr, t) && FadePoint(fr.fadeTime) == 2
    ensures var r := StateFrame(sb, fr, d);
            r.Frame? && r.sb.thresh.Some? && t < |r.sb.thresh.value| && Current(r.sb, t).pos == 3
  {
    hide StateFrame, ApplyFilters;
    var ss := Current(sb, t);
    var seg := Playing(sb, fr, t);
    var l := Plain(sb.vol, sb.stereo, seg[ss.pos]);
    var r := Plain(sb.vol, 1.0 - sb.stereo, seg[ss.pos + 1]);
    var fr1 := fr.(snd := PickSnd(ss, d.left), pos := 0, oldThresh := Some(t));
    assert LongSegment(ss.bufs.value[ss.sndNo], 2);
    assert LongSegment(ss.bufs.value[fr1.snd], 2);
    FadeStarts(sb, fr, t, l, ss.pos, d.left);
    FadeMixes(sb, fr1, t, r, ss.pos + 1, d.right);
    FrameIs(sb, fr, t, d, l, sb, fr1, Mix(r, Incoming(sb, fr1, t)[0], sb.stereo, sb.vol, 1, 2),
            MovedTo(sb, t, fr1.snd, 1), fr1.(pos := 1));
  }

  // A fade point of 2 is too short: the sound is handed over on the right sample, in the middle of a
  // frame, and from then on left and right are out of step. With 4 or more they never are.
  lemma InStepAfterHandoverIff(sb: StateBuf, fr: FadeRec, t: nat, ds: seq<Draws>)
    requires Settings(sb, fr, t)
    requires Current(sb, t).sndNo < |Current(sb, t).bufs.value|
    requires AtStart(sb, fr, t) && STEREO * |ds| == FadePoint(fr.fadeTime)
    ensures var r := After(sb, fr, ds);
            r.Some? && r.value.0.thresh.Some? && t < |r.value.0.thresh.value|
            && (Current(r.value.0, t).pos % 2 == 0 <==> FadePoint(fr.fadeTime) >= 4)
  {
    hide StateFrame;
    assert LongSegment(Current(sb, t).bufs.value[Current(sb, t).sndNo], FadePoint(fr.fadeTime));
    if FadePoint(fr.fadeTime) >= 4 {
      SegmentPlaysThrough(sb, fr, t, ds);
    } else {
      FrameOfShortestFade(sb, fr, t, ds[0]);
      assert ds[1..] == [];
    }
  }

  // ---------- Loudness ----------

  // The state sounds' part of the sample range: 32768 * STATE_MULT.
  const STATE_LIMIT: real := 13107.2

  // A signal whose samples are 16-bit, whose positions are proper, and whose weights are at most 1.
  ghost predicate Tame(s: Signal, vol: real) {
    match s
    case Zero => true
    case Plain(v, pan, x) => v == vol && 0.0 <= pan <= 1.0 && InShort(x)
    case Mix(out, x, stereo, v, remainder, fadePt) =>
      out.Plain? && Tame(out, vol) && v == vol && 0.0 <= stereo <= 1.0 && InShort(x) && 0 <= remainder < fadePt
  }

  // A state contributes at most its volume's share of the state range to either channel.
  lemma {:induction false} TameIsBounded(s: Signal, vol: real)
    requires vol >= 0.0 && Tame(s, vol)
    ensures Within(Level(s) as real, Scaled(STATE_LIMIT, vol))
  {
    hide Scaled, Gain, Weight, Mixture, Trunc;
    match s
    case Zero =>
      PlainWithin(vol, 0.0, 0);
    case Plain(v, pan, x) =>
      PlainWithin(vol, pan, x);
      TruncWithin(Scaled(Gain(vol, pan), x as real), Scaled(STATE_LIMIT, vol));
    case Mix(out, x, stereo, v, remainder, fadePt) =>
      TameIsBounded(out, vol);
      PlainWithin(vol, stereo, x);
      WeightIsProper(remainder, fadePt);
      var w := Weight(remainder, fadePt);
      MixtureWithin(Level(out) as real, Scaled(Gain(vol, stereo), x as real), w, Scaled(STATE_LIMIT, vol));
      TruncWithin(Mixture(Level(out) as real, Scaled(Gain(vol, stereo), x as real), w), Scaled(STATE_LIMIT, vol));
  }

  lemma PlainWithin(vol: real, pan: real, x: int)
    requires vol >= 0.0 && 0.0 <= pan <= 1.0 && InShort(x)
    ensures Within(Scaled(Gain(vol, pan), x as real), Scaled(STATE_LIMIT, vol))
    ensures Scaled(STATE_LIMIT, vol) >= 0.0
  {
    GainBound(vol, pan);
    ScaledWithin(Gain(vol, pan), x as real, 32768.0);
  }

  lemma GainBound(vol: real, pan: real)
    requires vol >= 0.0 && 0.0 <= pan <= 1.0
    ensures 0.0 <= Gain(vol, pan) && Scaled(Gain(vol, pan), 32768.0) <= Scaled(STATE_LIMIT, vol)
  {
    Product(vol, pan);
    Product(vol, 1.0 - pan);
  }

  lemma WeightIsProper(remainder: int, fadePt: int)
    requires 0 <= remainder < fadePt
    ensures 0.0 <= Weight(remainder, fadePt) < 1.0
    ensures remainder > 0 ==> 0.0 < Weight(remainder, fadePt)
  {
  }

  // The weight of the outgoing segment, if there is an incoming one, lies strictly between 0 and 1.
  ghost predicate WeighsBoth(s: Signal) {
    s.Mix? ==> 0.0 < Weight(s.remainder, s.fadePt) < 1.0
  }

  // In a steady frame the samples are tame, and both segments are heard throughout a fade.
  lemma SteadyFrameIsTame(sb: StateBuf, fr: FadeRec, t: nat, d: Draws)
    requires Steady(sb, fr, t)
    ensures var r := StateFrame(sb, fr, d); r.Frame? && Tame(r.left, sb.vol) && Tame(r.right, sb.vol)
    ensures var r := StateFrame(sb, fr, d); WeighsBoth(r.left) && WeighsBoth(r.right)
  {
    hide StateFrame, Weight;
    if AtEnd(sb, t) {
      FrameHandsOver(sb, fr, t, d);
      WeightIsProper(Len(sb, t) - Current(sb, t).pos, FadePoint(fr.fadeTime));
    } else if InFade(sb, fr, t) {
      FrameInFade(sb, fr, t, d);
      WeightIsProper(Len(sb, t) - Current(sb, t).pos, FadePoint(fr.fadeTime));
      WeightIsProper(Len(sb, t) - (Current(sb, t).pos + 1), FadePoint(fr.fadeTime));
    } else if AtStart(sb, fr, t) {
      FrameStartsFade(sb, fr, t, d);
      WeightIsProper(Len(sb, t) - (Current(sb, t).pos + 1), FadePoint(fr.fadeTime));
    } else {
      FrameBeforeFade(sb, fr, t, d);
    }
  }

  // The left sample of the next frame is the last of a fade: it makes the incoming segment the current one.
  predicate HandsOver(sb: StateBuf, fr: FadeRec) {
    var idx := SndIndex(sb);
    && sb.vol != 0.0 && idx.Some? && sb.flags % 2 == 1
    && var ss := Current(sb, idx.value);
       && ss.sndNo < |ss.bufs.value| && ss.bufs.value[ss.sndNo].Some?
       && SegLen(ss, ss.sndNo) - ss.pos < FadePoint(fr.fadeTime) && SegLen(ss, ss.sndNo) <= ss.pos + STEREO
  }

  // The segment that is then handed over is not shorter than what has been played of it.
  predicate RoomToHandOver(sb: StateBuf, fr: FadeRec) {
    HandsOver(sb, fr) ==>
      var ss := Current(sb, SndIndex(sb).value);
      fr.snd < |ss.bufs.value| ==> fr.pos + 1 < SegLen(ss, fr.snd)
  }

  // A proper volume and position.
  ghost predicate Panned(sb: StateBuf) {
    sb.vol >= 0.0 && 0.0 <= sb.stereo <= 1.0
  }

  // Whatever the state of a state buffer, whatever threshold its volume lies in, with a fade or
  // without: a frame that reads inside the arrays, and does not hand a shorter segment over, is never
  // louder than the volume.
  lemma FrameIsTame(sb: StateBuf, fr: FadeRec, d: Draws)
    requires Panned(sb) && RoomToHandOver(sb, fr) && StateFrame(sb, fr, d).Frame?
    ensures var r := StateFrame(sb, fr, d);
            && Tame(r.left, sb.vol) && Tame(r.right, sb.vol) && r.sb.vol == sb.vol && r.sb.stereo == sb.stereo
  {
    hide FadePoint, PickSnd, PickIndex;
    var t := SndIndex(sb).value;
    var ss := Current(sb, t);
    var seg := ss.bufs.value[ss.sndNo].value;
    var left := ApplyFilters(sb, fr, Plain(sb.vol, sb.stereo, seg[ss.pos]), ss.pos, d.left);
    SameIndex(sb, left.sb);
  }

  // Exactly then the weights are proper: otherwise the right sample of the frame is a mixture with a
  // negative weight.
  lemma FrameIsTameIff(sb: StateBuf, fr: FadeRec, d: Draws)
    requires Panned(sb) && StateFrame(sb, fr, d).Frame?
    ensures var r := StateFrame(sb, fr, d);
            && (Tame(r.left, sb.vol) && Tame(r.right, sb.vol) <==> RoomToHandOver(sb, fr))
            && (!RoomToHandOver(sb, fr) ==> r.right.Mix? && Weight(r.right.remainder, r.right.fadePt) < 0.0)
  {
    hide FadePoint, PickSnd, PickIndex;
    if RoomToHandOver(sb, fr) {
      FrameIsTame(sb, fr, d);
    } else {
      var t := SndIndex(sb).value;
      var ss := Current(sb, t);
      var seg := ss.bufs.value[ss.sndNo].value;
      var left := ApplyFilters(sb, fr, Plain(sb.vol, sb.stereo, seg[ss.pos]), ss.pos, d.left);
      SameIndex(sb, left.sb);
    }
  }

  // The state is skipped: its volume is 0, or the sound or segment that would play is not loaded.
  predicate Mute(sb: StateBuf) {
    sb.vol == 0.0 || SndIndex(sb).None?
    || (var ss := Current(sb, SndIndex(sb).value);
        ss.sndNo < |ss.bufs.value| && ss.bufs.value[ss.sndNo].None?)
  }

  // The fade record names a sample: a threshold, a loaded segment of its sound, and a position in it.
  predicate Names(sb: StateBuf, fr: FadeRec) {
    && sb.thresh.Some? && fr.oldThresh.Some? && fr.oldThresh.value < |sb.thresh.value|
    && var ss := Current(sb, fr.oldThresh.value);
       ss.bufs.Some? && fr.snd < |ss.bufs.value| && fr.pos < SegLen(ss, fr.snd)
  }

  // What the next frame of the state reads lies inside the arrays: the frame of the playing segment, and
  // the incoming samples that the fade needs. `rest` is what is left of the segment; a fade that starts
  // with this frame needs one sample of the segment it draws, a fade that hands over needs the segment
  // handed over to be there, and its second sample only if that one is near its end, too.
  predicate ReadsInside(sb: StateBuf, fr: FadeRec, draw: Draw) {
    Mute(sb) || (
      var ss := Current(sb, SndIndex(sb).value);
      && ss.sndNo < |ss.bufs.value| && ss.pos + 1 < SegLen(ss, ss.sndNo)
      && (sb.flags % 2 == 1 ==>
            var rest, fp := SegLen(ss, ss.sndNo) - ss.pos, FadePoint(fr.fadeTime);
            && (rest == fp ==> Names(sb, Started(sb, fr, ss, draw)))
            && (rest < fp ==> Names(sb, fr))
            && (2 < rest < fp ==> Names(sb, fr.(pos := fr.pos + 1)))
            && (rest == 2 < fp ==>
                  && fr.snd < |ss.bufs.value|
                  && (SegLen(ss, fr.snd) - (fr.pos + 2) < fp ==> Names(sb, fr.(pos := fr.pos + 1))))))
  }

  // The record of a fade that starts.
  function Started(sb: StateBuf, fr: FadeRec, ss: StateSnd, draw: Draw): FadeRec
    requires sb.thresh.Some?
  {
    fr.(snd := PickSnd(ss, draw), pos := ss.pos % 2, oldThresh := FirstMatch(sb.thresh.value, sb.vol, 0))
  }

  lemma NamesIff(sb: StateBuf, fr: FadeRec)
    ensures ReadIncoming(sb, fr).Some? <==> Names(sb, fr)
  {
  }

  // A frame is not defined exactly if one of those reads is outside.
  lemma FrameFaultsIff(sb: StateBuf, fr: FadeRec, d: Draws)
    ensures StateFrame(sb, fr, d).FrameFault? <==> !ReadsInside(sb, fr, d.left)
  {
    if !Mute(sb) {
      var t := SndIndex(sb).value;
      var ss := Current(sb, t);
      assert ss.bufs.value != [] ==> PickSnd(ss, d.left) < |ss.bufs.value|;
      hide FadePoint, PickSnd, PickIndex;
      if ss.sndNo < |ss.bufs.value| && ss.pos + 1 < SegLen(ss, ss.sndNo) {
        var seg := ss.bufs.value[ss.sndNo].value;
        var left := ApplyFilters(sb, fr, Plain(sb.vol, sb.stereo, seg[ss.pos]), ss.pos, d.left);
        if left.Faded? {
          SameIndex(sb, left.sb);
        }
      }
    }
  }

  // The threshold that plays does not depend on where its sound is.
  lemma SameIndex(sb: StateBuf, sb': StateBuf)
    requires sb.vol == sb'.vol && (sb.thresh.Some? <==> sb'.thresh.Some?)
    requires sb.thresh.Some? ==>
               && |sb.thresh.value| == |sb'.thresh.value|
               && forall m :: 0 <= m < |sb.thresh.value| ==> SameButPlace(sb.thresh.value[m], sb'.thresh.value[m])
    ensures SndIndex(sb') == SndIndex(sb)
  {
    if sb.thresh.Some? {
      SameMatches(sb.thresh.value, sb'.thresh.value, sb.vol, 0, 0);
    }
  }

  ghost predicate SameButPlace(a: Threshold, b: Threshold) {
    a.lBound == b.lBound && a.hBound == b.hBound && a.snd.bufs == b.snd.bufs
  }

  lemma {:induction false} SameMatches(ts: seq<Threshold>, us: seq<Threshold>, vol: real, i: nat, dflt: nat)
    requires i <= |ts| == |us| && forall m :: 0 <= m < |ts| ==> SameButPlace(ts[m], us[m])
    ensures LastMatch(ts, vol, i, dflt) == LastMatch(us, vol, i, dflt)
    decreases |ts| - i
  {
    if i < |ts| {
      SameMatches(ts, us, vol, i + 1, if Matches(ts[i], vol) then i else dflt);
    }
  }
}
