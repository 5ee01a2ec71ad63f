/**
 * Which runs of the state buffers are defined: when no frame reads outside its arrays and no shorter
 * segment is handed over, so that the bound on the output applies (server/mixer.c:506-561, 748-854).
 */
module StateRuns {
  import opened Events
  import opened Options
  import opened Samples
  import opened Sounds
  import opened States
  import opened Output
  import CrossFade

  // ---------- One state buffer ----------

  // The sound is at a frame of its segment, if that is loaded, and its segments are whole frames.
  ghost predicate AtFrame(ss: StateSnd) {
    ss.bufs.Some? ==>
      && ss.sndNo < |ss.bufs.value|
      && (forall k :: 0 <= k < |ss.bufs.value| ==> WholeFrames(ss.bufs.value[k]))
      && ss.pos % 2 == 0 && (ss.bufs.value[ss.sndNo].Some? ==> ss.pos < SegLen(ss, ss.sndNo))
  }

  ghost predicate WholeFrames(b: Option<Segment>) {
    b.Some? ==> b.value != [] && |b.value| % 2 == 0
  }

  ghost predicate AllAtFrame(sb: StateBuf) {
    sb.thresh.Some? ==> forall m :: 0 <= m < |sb.thresh.value| ==> AtFrame(sb.thresh.value[m].snd)
  }

  // The fade filter is off, or the fade has no length.
  predicate Unfaded(sb: StateBuf, fr: FadeRec) {
    sb.flags % 2 == 0 || FadePoint(fr.fadeTime) <= 0
  }

  // A state that is skipped, that plays its segments one after the other, or whose fades are in step.
  ghost predicate InOrder(sb: StateBuf, fr: FadeRec) {
    && AllAtFrame(sb)
    && (CrossFade.Mute(sb) || Unfaded(sb, fr) || exists t: nat :: CrossFade.Steady(sb, fr, t))
  }

  // What a frame makes of it: it is defined, and the state is in order again.
  ghost predicate KeepsOrder(sb: StateBuf, fr: FadeRec, f: FrameOutcome) {
    && !f.FrameFault? && CrossFade.RoomToHandOver(sb, fr)
    && InOrder(NextBuf(f, sb), NextRec(f, fr))
  }

  lemma MuteFrame(sb: StateBuf, fr: FadeRec, d: Draws)
    requires InOrder(sb, fr) && CrossFade.Mute(sb)
    ensures KeepsOrder(sb, fr, StateFrame(sb, fr, d))
  {
    if SndIndex(sb).Some? {
      assert AtFrame(Current(sb, SndIndex(sb).value));
    }
    assert StateFrame(sb, fr, d).Silent?;
  }

  lemma UnfadedFrame(sb: StateBuf, fr: FadeRec, d: Draws)
    requires AllAtFrame(sb) && Unfaded(sb, fr) && !CrossFade.Mute(sb)
    ensures KeepsOrder(sb, fr, StateFrame(sb, fr, d))
  {
    var t := SndIndex(sb).value;
    var ss := Current(sb, t);
    assert AtFrame(ss);
    var r := StateFrame(sb, fr, d);
    var pick := PickSnd(ss, d.end);
    assert WholeFrames(ss.bufs.value[pick]) && WholeFrames(ss.bufs.value[ss.sndNo]);
    assert AtFrame(Current(r.sb, t));
    forall m | 0 <= m < |r.sb.thresh.value| ensures AtFrame(r.sb.thresh.value[m].snd) {
      assert m != t ==> r.sb.thresh.value[m] == sb.thresh.value[m];
    }
  }

  lemma SteadyHasRoom(sb: StateBuf, fr: FadeRec, t: nat)
    requires CrossFade.Steady(sb, fr, t)
    ensures CrossFade.RoomToHandOver(sb, fr)
  {
    CrossFade.SettingsSelect(sb, fr, t);
    var ss := Current(sb, t);
    assert CrossFade.LongSegment(ss.bufs.value[ss.sndNo], FadePoint(fr.fadeTime));
    if fr.snd < |ss.bufs.value| {
      assert CrossFade.LongSegment(ss.bufs.value[fr.snd], FadePoint(fr.fadeTime));
    }
  }

  lemma SteadyIsAtFrame(sb: StateBuf, fr: FadeRec, t: nat)
    requires CrossFade.Steady(sb, fr, t)
    ensures AtFrame(Current(sb, t))
  {
    var ss := Current(sb, t);
    forall k | 0 <= k < |ss.bufs.value| ensures WholeFrames(ss.bufs.value[k]) {
      assert CrossFade.LongSegment(ss.bufs.value[k], FadePoint(fr.fadeTime));
    }
  }

  lemma SteadyFrameKeepsOrder(sb: StateBuf, fr: FadeRec, t: nat, d: Draws)
    requires AllAtFrame(sb) && CrossFade.Steady(sb, fr, t)
    ensures KeepsOrder(sb, fr, StateFrame(sb, fr, d))
  {
    hide StateFrame;
    CrossFade.SteadyFrame(sb, fr, t, d);
    SteadyHasRoom(sb, fr, t);
    var r := StateFrame(sb, fr, d);
    SteadyIsAtFrame(r.sb, r.fr, t);
    forall m | 0 <= m < |r.sb.thresh.value| ensures AtFrame(r.sb.thresh.value[m].snd) {
      assert m != t ==> r.sb.thresh.value[m] == sb.thresh.value[m];
    }
  }

  lemma FrameKeepsOrder(sb: StateBuf, fr: FadeRec, d: Draws)
    requires InOrder(sb, fr)
    ensures KeepsOrder(sb, fr, StateFrame(sb, fr, d))
  {
    if CrossFade.Mute(sb) {
      MuteFrame(sb, fr, d);
    } else if Unfaded(sb, fr) {
      UnfadedFrame(sb, fr, d);
    } else {
      var t: nat :| CrossFade.Steady(sb, fr, t);
      SteadyFrameKeepsOrder(sb, fr, t, d);
    }
  }

  // ---------- State events ----------

  // After a state event a fade may run in threshold t: none is under way there, or the one that was goes
  // on with its length unchanged.
  ghost predicate FadeMayRun(sb: StateBuf, fr: FadeRec, sb': StateBuf, fr': FadeRec, t: nat) {
    && CrossFade.Settings(sb', fr', t) && FadePoint(fr'.fadeTime) >= 4
    && (!CrossFade.InFade(sb', fr', t) || (CrossFade.Steady(sb, fr, t) && fr'.fadeTime == fr.fadeTime))
  }

  // The volume 0, the filter off, a fade of no length, or a fade that may run.
  ghost predicate Smooth(sb: StateBuf, fr: FadeRec, ev: Event) {
    var r := SetState(sb, fr, ev);
    CrossFade.Mute(r.0) || Unfaded(r.0, r.1) || exists t: nat :: FadeMayRun(sb, fr, r.0, r.1, t)
  }

  // Such a state event leaves the state in order, whatever threshold its volume moves to.
  lemma SmoothEventKeepsOrder(sb: StateBuf, fr: FadeRec, ev: Event)
    requires InOrder(sb, fr) && Smooth(sb, fr, ev)
    ensures var r := SetState(sb, fr, ev); InOrder(r.0, r.1)
  {
    var r := SetState(sb, fr, ev);
    if !CrossFade.Mute(r.0) && !Unfaded(r.0, r.1) {
      var t: nat :| FadeMayRun(sb, fr, r.0, r.1, t);
      assert AtFrame(sb.thresh.value[t].snd);
      var ss := Current(r.0, t);
      assert CrossFade.LongSegment(ss.bufs.value[ss.sndNo], FadePoint(r.1.fadeTime));
      assert CrossFade.Steady(r.0, r.1, t);
    }
  }

  // A fade from segment a to segment b of the lower of two thresholds; the sound of the upper one was
  // left at its last frame.
  function MidFade(a: Segment, b: Segment, c: Segment, pos: nat): StateBuf
    requires |c| >= 2
  {
    StateBuf(Some([Threshold(0.0, 0.6, StateSnd(Some([Some(a), Some(b)]), 0, pos)),
                   Threshold(0.6, 1.0, StateSnd(Some([Some(c)]), 0, |c| - 2))]),
             0.5, 0.4, 1)
  }

  // A state event that is not smooth: it turns the volume up in the middle of that fade. The fade then
  // hands over the second segment of a sound that has only one, and the frame reads outside its arrays.
  lemma LouderInMidFadeFaults(a: Segment, b: Segment, c: Segment, pos: nat, fr: FadeRec, ev: Event, d: Draws)
    requires var fp := FadePoint(fr.fadeTime);
             && fp >= 4 && |a| % 2 == |b| % 2 == |c| % 2 == 0
             && |a| >= 2 * fp && |b| >= 2 * fp && |c| >= 2 * fp
             && pos % 2 == 0 && |a| - fp < pos < |a|
             && fr.snd == 1 && fr.pos == pos - (|a| - fp) - 1 && fr.oldThresh == Some(0)
    requires ev.vol == 204 && ev.dither == 255 && ev.flags == 1
    ensures var sb := MidFade(a, b, c, pos);
            var r := SetState(sb, fr, ev);
            && CrossFade.Steady(sb, fr, 0) && InOrder(sb, fr) && !Smooth(sb, fr, ev)
            && StateFrame(r.0, r.1, d).FrameFault?
  {
    hide FadePoint;
    var sb := MidFade(a, b, c, pos);
    assert CrossFade.Steady(sb, fr, 0);
    assert AtFrame(sb.thresh.value[0].snd) && AtFrame(sb.thresh.value[1].snd);
    var r := SetState(sb, fr, ev);
    LastMatchIs(r.0.thresh.value, r.0.vol, 0, 0);
    assert SndIndex(r.0) == Some(1);
    var x := Plain(r.0.vol, r.0.stereo, c[|c| - 2]);
    var left := FadeEffect(r.0, r.1, x, |c| - 2, d.left);
    assert left.Faded? && Current(left.sb, 1).sndNo == 1;
    CrossFade.SameIndex(r.0, left.sb);
  }

  // ---------- Whole runs ----------

  ghost predicate AllInOrder(m: Machine) {
    |m.sbs| == |m.frs| && forall j :: 0 <= j < |m.sbs| ==> InOrder(m.sbs[j], m.frs[j])
  }

  ghost predicate OrderlyAct(m: Machine, a: MachineAct) {
    match a
    case EventAct(_, _, _) => ActFits(m, a)
    case StateAct(k, ev) => ActFits(m, a) && Smooth(m.sbs[k], m.frs[k], ev)
    case FrameAct(ps, ds) => |ps| == |m.voices.ebuffs| && PassesOk(ps) && |ds| == |m.sbs|
  }

  // Nothing is asked of a frame; it is defined by itself and leaves all states in order.
  lemma OrderlyActFits(table: SoundTable, m: Machine, a: MachineAct)
    requires GoodMachine(m) && AllInOrder(m) && OrderlyAct(m, a)
    ensures ActFits(m, a) && AllInOrder(MachineStep(table, m, a))
  {
    hide StateFrame, GoodMachine, Smooth, InOrder;
    match a
    case EventAct(_, _, _) =>
    case StateAct(k, ev) =>
      SmoothEventKeepsOrder(m.sbs[k], m.frs[k], ev);
    case FrameAct(ps, ds) =>
      forall j | 0 <= j < |m.sbs| ensures KeepsOrder(m.sbs[j], m.frs[j], StateOutcome(m.sbs, m.frs, ds, j)) {
        FrameKeepsOrder(m.sbs[j], m.frs[j], ds[j]);
      }
  }

  ghost predicate OrderlyRun(table: SoundTable, m: Machine, acts: seq<MachineAct>)
    requires GoodMachine(m) && AllInOrder(m)
    decreases |acts|
  {
    acts == [] || (OrderlyAct(m, acts[0]) &&
      (OrderlyActFits(table, m, acts[0]);
       MachineStepGood(table, m, acts[0]);
       OrderlyRun(table, MachineStep(table, m, acts[0]), acts[1..])))
  }

  // So every run of events, smooth state events and frames is defined throughout, and no sum of it
  // wraps.
  lemma {:induction false} OrderlyRunsAreDefined(table: SoundTable, m: Machine, acts: seq<MachineAct>)
    requires GoodMachine(m) && AllInOrder(m) && OrderlyRun(table, m, acts)
    ensures MachineRunFits(table, m, acts) && AllInOrder(MachineRun(table, m, acts))
    decreases |acts|
  {
    hide MachineStep, ActFits, OrderlyAct, GoodMachine, AllInOrder;
    if acts != [] {
      OrderlyActFits(table, m, acts[0]);
      MachineStepGood(table, m, acts[0]);
      OrderlyRunsAreDefined(table, MachineStep(table, m, acts[0]), acts[1..]);
    }
  }

  lemma OrderlyRunsDoNotWrap(table: SoundTable, m: Machine, acts: seq<MachineAct>, ds: seq<Draws>,
                             side: Side, k: nat, n: nat)
    requires GoodMachine(m) && AllInOrder(m) && OrderlyRun(table, m, acts)
    requires |ds| == |m.sbs| && k <= |m.voices.ebuffs| && n <= |m.sbs|
    ensures MachineRunFits(table, m, acts)
    ensures var r := MachineRun(table, m, acts);
            && InShort(EventPart(r.voices, side, k))
            && InShort(EventPart(r.voices, side, |r.voices.ebuffs|) + StatePart(r.sbs, r.frs, ds, side, n))
  {
    hide StateFrame, MachineStep, GoodMachine, InOrder, ActFits, OrderlyRun;
    OrderlyRunsAreDefined(table, m, acts);
    var r := MachineRun(table, m, acts);
    forall j | 0 <= j < |r.sbs| ensures KeepsOrder(r.sbs[j], r.frs[j], StateOutcome(r.sbs, r.frs, ds, j)) {
      FrameKeepsOrder(r.sbs[j], r.frs[j], ds[j]);
    }
    NoSumWrapsInAnyRun(table, m, acts, ds, side, k, n);
  }
}
