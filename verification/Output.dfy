/**
 * The sum that the mixer writes to the sound card (server/mixer.c:447-563): for each channel of each
 * stereo frame, the event channels and then the state buffers are added up in a 16-bit cell.
 */
module Output {
  import opened Events
  import opened Options
  import opened Sounds
  import opened Samples
  import opened DynamicVolume
  import opened Voices
  import opened VoiceRuns
  import States
  import CrossFade

  datatype Side = Left | Right

  const EVENT_MULT: real := 0.6
  // The event sounds' part of the sample range: 32768 * EVENT_MULT.
  const EVENT_LIMIT: real := 19660.8

  // ---------- What one channel adds ----------

  function EventGain(mul: real, pan: real): real {
    mul * EVENT_MULT * pan
  }

  function Pan(stereo: real, side: Side): real {
    if side.Left? then stereo else 1.0 - stereo
  }

  // The sample of an event channel; its filter flags name no filter (MAX_EVENT_FLAG is the first bit).
  function EventLevel(b: EventBuf, mul: real, side: Side): int {
    var at := b.pos + (if side.Left? then 0 else 1);
    if b.snd.Some? && at < |b.snd.value|
    then Trunc(Scaled(EventGain(mul, Pan(b.stereo, side)), b.snd.value[at] as real))
    else 0
  }

  // The sum of what the first k event channels play in the state `s`.
  function EventPart(s: Voices, side: Side, k: nat): int
    requires Shape(s) && k <= |s.ebuffs|
  {
    if k == 0 then 0
    else EventPart(s, side, k - 1) + EventLevel(s.ebuffs[k - 1], s.dynMul[k - 1], side)
  }

  function StateLevel(f: States.FrameOutcome, side: Side): int {
    if f.Frame? then States.Level(if side.Left? then f.left else f.right) else 0
  }

  type StateBufs = seq<States.StateBuf>
  type FadeRecs = seq<States.FadeRec>

  function StateOutcome(sbs: StateBufs, frs: FadeRecs, ds: seq<States.Draws>, j: nat): States.FrameOutcome
    requires |sbs| == |frs| == |ds| && j < |sbs|
  {
    States.StateFrame(sbs[j], frs[j], ds[j])
  }

  // The sum of what the first k state buffers play.
  function StatePart(sbs: StateBufs, frs: FadeRecs, ds: seq<States.Draws>, side: Side, k: nat): int
    requires |sbs| == |frs| == |ds| && k <= |sbs|
  {
    if k == 0 then 0
    else StatePart(sbs, frs, ds, side, k - 1) + StateLevel(StateOutcome(sbs, frs, ds, k - 1), side)
  }

  // ---------- A frame moves every channel on ----------

  // The clock readings and the random number that one pass over a channel may use.
  datatype Pass = Pass(now: real, later: real, draw: Draw)

  predicate PassesOk(ps: seq<Pass>) {
    forall i :: 0 <= i < |ps| ==> ps[i].now > 0.0 && ps[i].later > 0.0
  }

  // The event channels after the passes over the first k of them.
  function VoicesAfter(table: SoundTable, s: Voices, ps: seq<Pass>, k: nat): (r: Voices)
    requires Shape(s) && k <= |ps| == |s.ebuffs|
    ensures Shape(r) && |r.ebuffs| == |s.ebuffs|
  {
    if k == 0 then s
    else Advance(table, VoicesAfter(table, s, ps, k - 1), k - 1, ps[k - 1].now, ps[k - 1].later, ps[k - 1].draw)
  }

  // A channel that has not been passed yet is as it was when the frame began, although a channel
  // before it may have ended and been refilled with a share of the new headroom.
  lemma {:induction false} NotYetPassed(table: SoundTable, s: Voices, ps: seq<Pass>, k: nat, j: nat)
    requires Shape(s) && k <= j < |ps| == |s.ebuffs|
    ensures SameChannel(s, VoicesAfter(table, s, ps, k), j)
  {
    hide Advance;
    if k > 0 {
      NotYetPassed(table, s, ps, k - 1, j);
      AdvanceLeavesOtherChannels(table, VoicesAfter(table, s, ps, k - 1), k - 1,
                                 ps[k - 1].now, ps[k - 1].later, ps[k - 1].draw, j);
    }
  }

  lemma {:induction false} VoicesAfterCoherent(table: SoundTable, s: Voices, ps: seq<Pass>, k: nat)
    requires Coherent(s) && k <= |ps| == |s.ebuffs| && PassesOk(ps)
    ensures Coherent(VoicesAfter(table, s, ps, k))
  {
    hide Advance;
    if k > 0 {
      VoicesAfterCoherent(table, s, ps, k - 1);
      AdvanceCoherent(table, VoicesAfter(table, s, ps, k - 1), k - 1,
                      ps[k - 1].now, ps[k - 1].later, ps[k - 1].draw);
    }
  }

  // The state buffer and its fade record after a frame.
  function NextBuf(f: States.FrameOutcome, sb: States.StateBuf): States.StateBuf {
    if f.Frame? then f.sb else sb
  }

  function NextRec(f: States.FrameOutcome, fr: States.FadeRec): States.FadeRec {
    if f.Frame? then f.fr else fr
  }

  // ---------- Loudness ----------

  lemma EventGainBound(mul: real, pan: real)
    requires mul >= 0.0 && 0.0 <= pan <= 1.0
    ensures 0.0 <= EventGain(mul, pan) && Scaled(EventGain(mul, pan), 32768.0) <= Scaled(EVENT_LIMIT, mul)
  {
    Product(mul, pan);
    Product(mul, 1.0 - pan);
  }

  lemma EventLevelBound(s: Voices, j: nat, side: Side)
    requires Coherent(s) && j < |s.ebuffs|
    ensures s.dynMul[j] >= 0.0
    ensures Within(EventLevel(s.ebuffs[j], s.dynMul[j], side) as real, Scaled(EVENT_LIMIT, s.dynMul[j]))
  {
    assert ChannelOkAt(s, j);
    var b := s.ebuffs[j];
    EventGainBound(s.dynMul[j], 0.0);
    if b.snd.Some? {
      var x := b.snd.value[b.pos + (if side.Left? then 0 else 1)];
      var pan := Pan(b.stereo, side);
      EventSampleBound(s.dynMul[j], pan, x);
    }
  }

  lemma EventSampleBound(mul: real, pan: real, x: Sample)
    requires mul >= 0.0 && 0.0 <= pan <= 1.0
    ensures Within(Trunc(Scaled(EventGain(mul, pan), x as real)) as real, Scaled(EVENT_LIMIT, mul))
  {
    hide Scaled, EventGain, Trunc;
    EventGainBound(mul, pan);
    ScaledWithin(EventGain(mul, pan), x as real, 32768.0);
    TruncWithin(Scaled(EventGain(mul, pan), x as real), Scaled(EVENT_LIMIT, mul));
  }

  lemma {:induction false} EventPartBound(s: Voices, side: Side, k: nat)
    requires Coherent(s) && k <= |s.ebuffs|
    ensures Within(EventPart(s, side, k) as real, Scaled(EVENT_LIMIT, TotVol(s.dynMul[..k])))
  {
    hide EventLevel, ChannelOkAt, Busy;
    if k > 0 {
      EventPartBound(s, side, k - 1);
      EventLevelBound(s, k - 1, side);
      assert s.dynMul[..k][..k - 1] == s.dynMul[..k - 1];
    }
  }

  // ---------- State buffers ----------

  // Every state buffer's part of the next frame reads inside its arrays, and no segment is handed over
  // that is shorter than what has been played of it.
  predicate FrameDefined(sbs: StateBufs, frs: FadeRecs, ds: seq<States.Draws>) {
    && |sbs| == |frs| == |ds|
    && forall j :: 0 <= j < |sbs| ==>
         !StateOutcome(sbs, frs, ds, j).FrameFault? && CrossFade.RoomToHandOver(sbs[j], frs[j])
  }

  // Whether that is so can be told from the positions, the lengths of the segments and the fade records.
  lemma FrameDefinedIff(sbs: StateBufs, frs: FadeRecs, ds: seq<States.Draws>)
    requires |sbs| == |frs| == |ds|
    ensures FrameDefined(sbs, frs, ds) <==>
            forall j :: 0 <= j < |sbs| ==>
              CrossFade.ReadsInside(sbs[j], frs[j], ds[j].left) && CrossFade.RoomToHandOver(sbs[j], frs[j])
  {
    hide States.StateFrame, CrossFade.ReadsInside, CrossFade.RoomToHandOver;
    forall j | 0 <= j < |sbs|
      ensures StateOutcome(sbs, frs, ds, j).FrameFault? <==> !CrossFade.ReadsInside(sbs[j], frs[j], ds[j].left)
    {
      CrossFade.FrameFaultsIff(sbs[j], frs[j], ds[j]);
    }
  }

  ghost predicate AllPanned(sbs: StateBufs) {
    forall j :: 0 <= j < |sbs| ==> CrossFade.Panned(sbs[j])
  }

  function VolSum(sbs: StateBufs, k: nat): real
    requires k <= |sbs|
  {
    if k == 0 then 0.0 else VolSum(sbs, k - 1) + sbs[k - 1].vol
  }

  lemma {:induction false} VolSumPrefix(sbs: StateBufs, k: nat, m: nat)
    requires k <= m <= |sbs| && forall j :: 0 <= j < |sbs| ==> sbs[j].vol >= 0.0
    ensures VolSum(sbs, k) <= VolSum(sbs, m)
  {
    if k < m {
      VolSumPrefix(sbs, k, m - 1);
    }
  }

  lemma StateLevelBound(sb: States.StateBuf, fr: States.FadeRec, d: States.Draws, side: Side)
    requires CrossFade.Panned(sb) && CrossFade.RoomToHandOver(sb, fr)
    ensures Within(StateLevel(States.StateFrame(sb, fr, d), side) as real, Scaled(CrossFade.STATE_LIMIT, sb.vol))
  {
    hide States.StateFrame, CrossFade.RoomToHandOver;
    var f := States.StateFrame(sb, fr, d);
    CrossFade.TameIsBounded(States.Zero, sb.vol);
    if f.Frame? {
      CrossFade.FrameIsTame(sb, fr, d);
      CrossFade.TameIsBounded(if side.Left? then f.left else f.right, sb.vol);
    }
  }

  lemma {:induction false} StatePartBound(sbs: StateBufs, frs: FadeRecs, ds: seq<States.Draws>, side: Side, k: nat)
    requires AllPanned(sbs) && FrameDefined(sbs, frs, ds) && k <= |sbs|
    ensures Within(StatePart(sbs, frs, ds, side, k) as real, Scaled(CrossFade.STATE_LIMIT, VolSum(sbs, k)))
  {
    hide States.StateFrame, StateLevel, CrossFade.RoomToHandOver;
    if k > 0 {
      StatePartBound(sbs, frs, ds, side, k - 1);
      StateLevelBound(sbs[k - 1], frs[k - 1], ds[k - 1], side);
    }
  }

  // ---------- No sum of a frame leaves the 16-bit range ----------

  // After the first k event channels, and after all of them and the first m state buffers, the sum
  // is a 16-bit value: no store into the output wraps around. The event sounds together stay below
  // 0.6 of the range, because the multipliers in force at the start of the frame sum to less than 1;
  // the states stay within 0.4 of it, because their volumes sum to at most 1, wherever they lie among
  // the thresholds and whether or not the fade filter is on.
  lemma NoSumWraps(s: Voices, sbs: StateBufs, frs: FadeRecs, ds: seq<States.Draws>, side: Side, k: nat, m: nat)
    requires Coherent(s) && AllPanned(sbs) && FrameDefined(sbs, frs, ds)
    requires VolSum(sbs, |sbs|) <= 1.0
    requires k <= |s.ebuffs| && m <= |sbs|
    ensures InShort(EventPart(s, side, k))
    ensures InShort(EventPart(s, side, |s.ebuffs|) + StatePart(sbs, frs, ds, side, m))
  {
    hide ChannelOkAt, EventLevel, FrameDefined;
    forall j | 0 <= j < |s.dynMul| ensures s.dynMul[j] >= 0.0 {
      EventLevelBound(s, j, side);
    }
    TotVolPrefix(s.dynMul, k);
    EventPartBound(s, side, k);
    EventPartBound(s, side, |s.ebuffs|);
    assert s.dynMul[..|s.ebuffs|] == s.dynMul;
    StatePartBound(sbs, frs, ds, side, m);
    VolSumPrefix(sbs, m, |sbs|);
  }

  // ---------- Whole runs of the mixer ----------

  // The engine and the mixer together; events reach the engine between two frames. `k` is the state
  // buffer that the sound table gives for a state event.
  datatype Machine = Machine(voices: Voices, sbs: StateBufs, frs: FadeRecs)

  datatype MachineAct =
    | EventAct(ev: Event, now: real, draw: Draw)
    | StateAct(k: nat, ev: Event)
    | FrameAct(ps: seq<Pass>, ds: seq<States.Draws>)

  // A state event may set any volume, position, flags and fade time that leave the volumes within 1;
  // a frame has to be defined.
  ghost predicate ActFits(m: Machine, a: MachineAct) {
    match a
    case EventAct(_, now, _) => now > 0.0
    case StateAct(k, ev) =>
      && k < |m.sbs| == |m.frs|
      && VolSum(m.sbs[k := States.SetState(m.sbs[k], m.frs[k], ev).0], |m.sbs|) <= 1.0
    case FrameAct(ps, ds) =>
      |ps| == |m.voices.ebuffs| && PassesOk(ps) && |ds| == |m.sbs| && FrameDefined(m.sbs, m.frs, ds)
  }

  ghost predicate GoodMachine(m: Machine) {
    Coherent(m.voices) && |m.sbs| == |m.frs| && AllPanned(m.sbs) && VolSum(m.sbs, |m.sbs|) <= 1.0
  }

  // The state buffers and fade records after the mixer has handled the first k of them.
  function BufsAfter(sbs: StateBufs, frs: FadeRecs, ds: seq<States.Draws>, k: nat): (r: StateBufs)
    requires |sbs| == |frs| == |ds|
    ensures |r| == |sbs|
  {
    seq(|sbs|, j requires 0 <= j < |sbs| => if j < k then NextBuf(StateOutcome(sbs, frs, ds, j), sbs[j]) else sbs[j])
  }

  function RecsAfter(sbs: StateBufs, frs: FadeRecs, ds: seq<States.Draws>, k: nat): (r: FadeRecs)
    requires |sbs| == |frs| == |ds|
    ensures |r| == |frs|
  {
    seq(|frs|, j requires 0 <= j < |frs| => if j < k then NextRec(StateOutcome(sbs, frs, ds, j), frs[j]) else frs[j])
  }

  ghost function MachineStep(table: SoundTable, m: Machine, a: MachineAct): Machine
    requires GoodMachine(m) && ActFits(m, a)
  {
    match a
    case EventAct(ev, now, draw) => m.(voices := Arrive(table, m.voices, ev, now, draw))
    case StateAct(k, ev) =>
      var r := States.SetState(m.sbs[k], m.frs[k], ev);
      m.(sbs := m.sbs[k := r.0], frs := m.frs[k := r.1])
    case FrameAct(ps, ds) =>
      Machine(VoicesAfter(table, m.voices, ps, |ps|),
              BufsAfter(m.sbs, m.frs, ds, |ds|), RecsAfter(m.sbs, m.frs, ds, |ds|))
  }

  lemma {:induction false} SameVolumes(sbs: StateBufs, sbs': StateBufs, k: nat)
    requires k <= |sbs| == |sbs'| && forall j :: 0 <= j < |sbs| ==> sbs'[j].vol == sbs[j].vol
    ensures VolSum(sbs', k) == VolSum(sbs, k)
  {
    if k > 0 {
      SameVolumes(sbs, sbs', k - 1);
    }
  }

  lemma FrameKeepsPanned(sb: States.StateBuf, fr: States.FadeRec, d: States.Draws)
    requires CrossFade.Panned(sb) && CrossFade.RoomToHandOver(sb, fr)
    ensures var next := NextBuf(States.StateFrame(sb, fr, d), sb);
            CrossFade.Panned(next) && next.vol == sb.vol
  {
    hide States.StateFrame, CrossFade.RoomToHandOver;
    if States.StateFrame(sb, fr, d).Frame? {
      CrossFade.FrameIsTame(sb, fr, d);
    }
  }

  // Events, state events and frames keep all that the bound needs.
  lemma MachineStepGood(table: SoundTable, m: Machine, a: MachineAct)
    requires GoodMachine(m) && ActFits(m, a)
    ensures GoodMachine(MachineStep(table, m, a)) && |MachineStep(table, m, a).sbs| == |m.sbs|
            && |MachineStep(table, m, a).voices.ebuffs| == |m.voices.ebuffs|
  {
    hide Arrive, States.StateFrame, ChannelOkAt, CrossFade.RoomToHandOver;
    match a
    case EventAct(ev, now, draw) =>
      ArriveCoherent(table, m.voices, ev, now, draw);
    case StateAct(k, ev) =>
      assert CrossFade.Panned(States.SetState(m.sbs[k], m.frs[k], ev).0);
    case FrameAct(ps, ds) =>
      VoicesAfterCoherent(table, m.voices, ps, |ps|);
      var next := BufsAfter(m.sbs, m.frs, ds, |ds|);
      forall j | 0 <= j < |m.sbs| ensures CrossFade.Panned(next[j]) && next[j].vol == m.sbs[j].vol {
        FrameKeepsPanned(m.sbs[j], m.frs[j], ds[j]);
      }
      SameVolumes(m.sbs, next, |m.sbs|);
  }

  ghost predicate MachineRunFits(table: SoundTable, m: Machine, acts: seq<MachineAct>)
    requires GoodMachine(m)
    decreases |acts|
  {
    acts == [] || (ActFits(m, acts[0]) &&
      (MachineStepGood(table, m, acts[0]);
       MachineRunFits(table, MachineStep(table, m, acts[0]), acts[1..])))
  }

  ghost function MachineRun(table: SoundTable, m: Machine, acts: seq<MachineAct>): (r: Machine)
    requires GoodMachine(m) && MachineRunFits(table, m, acts)
    ensures GoodMachine(r) && |r.sbs| == |m.sbs| && |r.voices.ebuffs| == |m.voices.ebuffs|
    decreases |acts|
  {
    if acts == [] then m
    else
      MachineStepGood(table, m, acts[0]);
      MachineRun(table, MachineStep(table, m, acts[0]), acts[1..])
  }

  lemma {:induction false} MachineRunAppends(table: SoundTable, m: Machine, acts: seq<MachineAct>, a: MachineAct)
    requires GoodMachine(m) && MachineRunFits(table, m, acts + [a])
    ensures MachineRunFits(table, m, acts) && ActFits(MachineRun(table, m, acts), a)
    ensures MachineRun(table, m, acts + [a]) == MachineStep(table, MachineRun(table, m, acts), a)
    decreases |acts|
  {
    hide MachineStep, GoodMachine, ActFits;
    if acts == [] {
      assert acts + [a] == [a];
      assert [a][1..] == [];
    } else {
      MachineStepGood(table, m, acts[0]);
      assert (acts + [a])[0] == acts[0] && (acts + [a])[1..] == acts[1..] + [a];
      MachineRunAppends(table, MachineStep(table, m, acts[0]), acts[1..], a);
    }
  }

  lemma {:induction false} MachineRunPrefix(table: SoundTable, m: Machine, acts: seq<MachineAct>, f: nat)
    requires GoodMachine(m) && MachineRunFits(table, m, acts) && f <= |acts|
    ensures MachineRunFits(table, m, acts[..f])
    decreases |acts|
  {
    hide MachineStep, GoodMachine, ActFits;
    if f > 0 {
      MachineStepGood(table, m, acts[0]);
      assert acts[..f][0] == acts[0] && acts[..f][1..] == acts[1..][..f - 1];
      MachineRunPrefix(table, MachineStep(table, m, acts[0]), acts[1..], f - 1);
    }
  }

  // What a frame puts in one of its two cells.
  ghost function FrameSum(m: Machine, ds: seq<States.Draws>, side: Side): int
    requires GoodMachine(m) && |ds| == |m.sbs|
  {
    EventPart(m.voices, side, |m.voices.ebuffs|) + StatePart(m.sbs, m.frs, ds, side, |m.sbs|)
  }

  // However long the mixer has run and whatever events and state events came, no partial sum of the
  // next frame wraps.
  lemma NoSumWrapsInAnyRun(table: SoundTable, m: Machine, acts: seq<MachineAct>, ds: seq<States.Draws>,
                           side: Side, k: nat, n: nat)
    requires GoodMachine(m) && MachineRunFits(table, m, acts) && k <= |m.voices.ebuffs| && n <= |m.sbs|
    requires var r := MachineRun(table, m, acts); FrameDefined(r.sbs, r.frs, ds)
    ensures var r := MachineRun(table, m, acts);
            && InShort(EventPart(r.voices, side, k))
            && InShort(EventPart(r.voices, side, |r.voices.ebuffs|) + StatePart(r.sbs, r.frs, ds, side, n))
  {
    hide States.StateFrame, MachineStep, ChannelOkAt, FrameDefined, EventLevel, StateLevel;
    var r := MachineRun(table, m, acts);
    NoSumWraps(r.voices, r.sbs, r.frs, ds, side, k, n);
  }

  // The loudest sound there is: one frame at full scale.
  const LOUD: Sound := [-0x8000, -0x8000]

  // Two of three channels play the loud sound, far left.
  function TwoLoud(table: SoundTable, ev: Event): (s: Voices)
    ensures Shape(s) && |s.ebuffs| == 3
  {
    Arrive(table, Arrive(table, Initial(3, 64), ev, 1.0, 0), ev, 2.0, 0)
  }

  // After the pass over the first channel, which ends there, another event comes.
  function ThirdComesBetween(table: SoundTable, ev: Event): (s: Voices)
    ensures Shape(s) && |s.ebuffs| == 3
  {
    Arrive(table, Advance(table, TwoLoud(table, ev), 0, 3.0, 3.0, 0), ev, 4.0, 0)
  }

  lemma SharesOfThree(table: SoundTable, ev: Event)
    requires ev.kind == EVENT_T && ev.loc == 255 && table(ev.sound) == [LOUD]
    ensures var s := TwoLoud(table, ev);
            && s.dynMul == [0.5, 0.28125, 0.0] && s.queue == [] && s.lastc == 2 && s.dynBufCnt == 2
            && s.ebuffs[..2] == [EventBuf(Some(LOUD), 2, 0, 1.0, ev.flags), EventBuf(Some(LOUD), 2, 0, 1.0, ev.flags)]
            && s.ebuffs[2] == EventBuf(None, 0, 0, 0.0, 0)
            && s.sched[0].startt != 0.0 && s.sched[1].startt != 0.0 && s.sched[2].startt == 0.0
  {
    var none := Initial(3, 64);
    assert none.dynMul == [0.0, 0.0, 0.0];
    OfThree(0.0, 0.0, 0.0);
    var one := Arrive(table, none, ev, 1.0, 0);
    assert IdleFrom(none.sched, 0, 0) == 0;
    assert one.dynMul == [0.5, 0.0, 0.0];
    OfThree(0.5, 0.0, 0.0);
    assert IdleFrom(one.sched, 1, 0) == 1;
    assert TwoLoud(table, ev).dynMul == [0.5, 0.28125, 0.0];
  }

  lemma FirstHasEnded(table: SoundTable, ev: Event)
    requires ev.kind == EVENT_T && ev.loc == 255 && table(ev.sound) == [LOUD]
    ensures var s := TwoLoud(table, ev);
            var t := Advance(table, s, 0, 3.0, 3.0, 0);
            && t.dynMul == [0.0, 0.28125, 0.0] && t.lastc == 2 && t.dynBufCnt == 1
            && t.ebuffs[1] == s.ebuffs[1] && t.ebuffs[2] == EventBuf(None, 0, 0, 0.0, 0)
            && t.sched[2].startt == 0.0
  {
    hide TwoLoud;
    SharesOfThree(table, ev);
    var s := TwoLoud(table, ev);
    assert s.ebuffs[0] == s.ebuffs[..2][0];
  }

  lemma ThirdShare(table: SoundTable, ev: Event)
    requires ev.kind == EVENT_T && ev.loc == 255 && table(ev.sound) == [LOUD]
    ensures var s := ThirdComesBetween(table, ev);
            && s.dynMul == [0.0, 0.28125, 0.404296875]
            && s.ebuffs[1] == TwoLoud(table, ev).ebuffs[1]
            && s.ebuffs[2] == EventBuf(Some(LOUD), 2, 0, 1.0, ev.flags)
  {
    hide TwoLoud, Advance;
    FirstHasEnded(table, ev);
    var t := Advance(table, TwoLoud(table, ev), 0, 3.0, 3.0, 0);
    OfThree(0.0, 0.28125, 0.0);
    assert IdleFrom(t.sched, 2, 0) == 2;
  }

  // It takes an arrival between the passes over two channels of one frame to break the bound. Of three
  // channels two play; the first ends in this frame, and before the last one is passed an event gets it,
  // with a share of the headroom that the first has just given back. The three and one state at full
  // volume add up to more than 16 bits hold.
  lemma ArrivalWithinFrameWraps(table: SoundTable, ev: Event)
    requires ev.kind == EVENT_T && ev.loc == 255 && table(ev.sound) == [LOUD]
    ensures var s := TwoLoud(table, ev);
            var t := ThirdComesBetween(table, ev);
            var u := Advance(table, t, 1, 5.0, 5.0, 0);
            !InShort(EventLevel(s.ebuffs[0], s.dynMul[0], Left) + EventLevel(t.ebuffs[1], t.dynMul[1], Left)
                     + EventLevel(u.ebuffs[2], u.dynMul[2], Left) + States.Level(States.Plain(1.0, 1.0, -0x8000)))
  {
    SharesOfThree(table, ev);
    ThirdShare(table, ev);
    var s, t := TwoLoud(table, ev), ThirdComesBetween(table, ev);
    assert s.ebuffs[0] == s.ebuffs[..2][0] && s.ebuffs[1] == s.ebuffs[..2][1];
    AdvanceLeavesOtherChannels(table, t, 1, 5.0, 5.0, 0, 2);
    LoudLevels(ev.flags);
  }

  lemma LoudLevels(flags: int)
    ensures var b := EventBuf(Some(LOUD), 2, 0, 1.0, flags);
            && EventLevel(b, 0.5, Left) == -9830 && EventLevel(b, 0.28125, Left) == -5529
            && EventLevel(b, 0.404296875, Left) == -7948
    ensures States.Level(States.Plain(1.0, 1.0, -0x8000)) == -13107
  {
  }

  lemma OfThree(a: real, b: real, c: real)
    ensures TotVol([a, b, c]) == a + b + c
    ensures Busy([a, b, c]) == (if a != 0.0 then 1 else 0) + (if b != 0.0 then 1 else 0) + (if c != 0.0 then 1 else 0)
  {
    assert [a, b, c][..2] == [a, b] && [a, b][..1] == [a] && [a][..0] == [];
    assert TotVol([a, b]) == TotVol([a]) + b && TotVol([a]) == TotVol([]) + a;
    assert Busy([a, b]) == Busy([a]) + if b != 0.0 then 1 else 0;
    assert Busy([a]) == Busy([]) + if a != 0.0 then 1 else 0;
  }
}
