/**
 * The output sum when events come at any time, also between the passes over two channels of one frame
 * (server/engine.c:436-564, server/mixer.c:447-563): a machine whose steps are one arrival, one pass,
 * or the mixing of the states at the end of a frame.
 */
module PassRuns {
  import opened Events
  import opened Options
  import opened Sounds
  import opened Samples
  import opened DynamicVolume
  import opened Voices
  import opened VoiceRuns
  import opened Output
  import States
  import CrossFade

  // ---------- The event channels of one frame ----------

  // How far a frame has come: the next channel to be passed, what has been summed up on either side, the
  // sum of the multipliers with which that was played, and whether a sound has ended in this frame.
  datatype Progress = Progress(j: nat, left: int, right: int, played: real, ended: bool)

  const NEW_FRAME: Progress := Progress(0, 0, 0, 0.0, false)

  // The pass over channel j finds the last frame of its sound.
  predicate Ends(s: Voices, j: nat)
    requires Shape(s) && j < |s.ebuffs|
  {
    s.ebuffs[j].snd.Some? && s.ebuffs[j].pos + STEREO == s.ebuffs[j].len
  }

  function Passed(s: Voices, p: Progress): Progress
    requires Shape(s) && p.j < |s.ebuffs|
  {
    Progress(p.j + 1,
             p.left + EventLevel(s.ebuffs[p.j], s.dynMul[p.j], Left),
             p.right + EventLevel(s.ebuffs[p.j], s.dynMul[p.j], Right),
             p.played + s.dynMul[p.j],
             p.ended || Ends(s, p.j))
  }

  // Once a sound has ended in a frame, no event may get a channel that is still to be passed.
  predicate MayCome(s: Voices, p: Progress, ev: Event)
    requires Shape(s)
  {
    p.ended && ev.kind == EVENT_T ==> IdleFrom(s.sched, s.lastc, 0) < p.j
  }

  // What has been played is bounded by its multipliers, and these together with those of the channels
  // still to be passed do not fill the volume. Until a sound ends, what has been played still plays.
  ghost predicate InBounds(s: Voices, p: Progress)
    requires Shape(s)
  {
    && p.j <= |s.ebuffs|
    && 0.0 <= p.played && p.played + TotVol(s.dynMul) - TotVol(s.dynMul[..p.j]) < 1.0
    && (!p.ended ==> p.played <= TotVol(s.dynMul[..p.j]))
    && Within(p.left as real, Scaled(EVENT_LIMIT, p.played))
    && Within(p.right as real, Scaled(EVENT_LIMIT, p.played))
  }

  lemma NewFrameInBounds(s: Voices)
    requires Coherent(s)
    ensures InBounds(s, NEW_FRAME)
  {
  }

  lemma NoShareIsNegative(s: Voices)
    requires Coherent(s)
    ensures forall k :: 0 <= k < |s.dynMul| ==> s.dynMul[k] >= 0.0
  {
    forall k | 0 <= k < |s.dynMul| ensures s.dynMul[k] >= 0.0 {
      assert ChannelOkAt(s, k);
    }
  }

  // The multipliers up to j and in all, when the one of channel c changes.
  lemma ShareChanges(mul: seq<real>, c: nat, v: real, j: nat)
    requires c < |mul| && j <= |mul|
    ensures TotVol(mul[c := v]) == TotVol(mul) - mul[c] + v
    ensures TotVol(mul[c := v][..j]) == TotVol(mul[..j]) + if c < j then v - mul[c] else 0.0
  {
    TotVolUpdate(mul, c, v);
    if c < j {
      assert mul[c := v][..j] == mul[..j][c := v];
      TotVolUpdate(mul[..j], c, v);
    } else {
      assert mul[c := v][..j] == mul[..j];
    }
  }

  // An arrival leaves the multipliers alone or gives one to an idle channel.
  lemma ArrivalShares(table: SoundTable, s: Voices, ev: Event, now: real, draw: Draw)
    requires Coherent(s) && now > 0.0
    ensures var r := Arrive(table, s, ev, now, draw);
            var c := IdleFrom(s.sched, s.lastc, 0);
            && Coherent(r) && (ev.kind != EVENT_T || c < 0 ==> r.dynMul == s.dynMul)
            && (ev.kind == EVENT_T && c >= 0 ==>
                  c < |s.dynMul| && s.dynMul[c] == 0.0 && r.dynMul == s.dynMul[c := r.dynMul[c]])
  {
    ArriveCoherent(table, s, ev, now, draw);
    RoundRobin(s.sched, s.lastc);
    var c := IdleFrom(s.sched, s.lastc, 0);
    if c >= 0 {
      assert ChannelOkAt(s, c);
    }
  }

  lemma ArrivalKeepsBounds(table: SoundTable, s: Voices, p: Progress, ev: Event, now: real, draw: Draw)
    requires Coherent(s) && InBounds(s, p) && MayCome(s, p, ev) && now > 0.0
    ensures InBounds(Arrive(table, s, ev, now, draw), p)
  {
    hide Arrive, ChannelOkAt, IdleFrom, Scaled;
    ArrivalShares(table, s, ev, now, draw);
    var r := Arrive(table, s, ev, now, draw);
    var c := IdleFrom(s.sched, s.lastc, 0);
    if ev.kind == EVENT_T && c >= 0 {
      ShareChanges(s.dynMul, c, r.dynMul[c], p.j);
      NoShareIsNegative(r);
      SharesBelowOne(r);
    }
  }

  lemma SharesBelowOne(s: Voices)
    requires Coherent(s)
    ensures TotVol(s.dynMul) < 1.0
  {
  }

  // A pass changes the multiplier of its channel only, and only if the sound ends.
  lemma PassShares(table: SoundTable, s: Voices, j: nat, a: Pass)
    requires Coherent(s) && j < |s.ebuffs| && a.later > 0.0
    ensures var r := Advance(table, s, j, a.now, a.later, a.draw);
            && Coherent(r) && r.dynMul == s.dynMul[j := r.dynMul[j]]
            && (!Ends(s, j) ==> r.dynMul == s.dynMul)
  {
    AdvanceCoherent(table, s, j, a.now, a.later, a.draw);
    var r := Advance(table, s, j, a.now, a.later, a.draw);
    forall k: nat | k < |s.ebuffs| && k != j ensures r.dynMul[k] == s.dynMul[k] {
      AdvanceLeavesOtherChannels(table, s, j, a.now, a.later, a.draw, k);
    }
  }

  lemma PassKeepsBounds(table: SoundTable, s: Voices, p: Progress, a: Pass)
    requires Coherent(s) && InBounds(s, p) && p.j < |s.ebuffs| && a.later > 0.0
    ensures InBounds(Advance(table, s, p.j, a.now, a.later, a.draw), Passed(s, p))
  {
    hide Advance, ChannelOkAt, EventLevel, Ends;
    PassShares(table, s, p.j, a);
    var r := Advance(table, s, p.j, a.now, a.later, a.draw);
    ShareChanges(s.dynMul, p.j, r.dynMul[p.j], p.j + 1);
    EventLevelBound(s, p.j, Left);
    EventLevelBound(s, p.j, Right);
    assert s.dynMul[..p.j + 1][..p.j] == s.dynMul[..p.j];
  }

  // So at any point of a frame what the event channels have played is less than 0.6 of the range.
  lemma PlayedStaysBelow(s: Voices, p: Progress)
    requires Coherent(s) && InBounds(s, p)
    ensures p.played < 1.0
    ensures Within(p.left as real, EVENT_LIMIT) && Within(p.right as real, EVENT_LIMIT)
    ensures InShort(p.left) && InShort(p.right)
  {
    NoShareIsNegative(s);
    TotVolPrefix(s.dynMul, p.j);
  }

  // ---------- Whole runs ----------

  // The engine and the mixer at any point of a frame.
  datatype Fine = Fine(m: Machine, p: Progress)

  // An event comes; a state event comes; the mixer passes over the next channel; it mixes the states,
  // which completes the frame.
  datatype FineAct =
    | Come(ev: Event, now: real, draw: Draw)
    | ComeState(k: nat, ev: Event)
    | PassOver(a: Pass)
    | MixStates(ds: seq<States.Draws>)

  ghost predicate FineFits(f: Fine, a: FineAct)
    requires Shape(f.m.voices)
  {
    match a
    case Come(ev, now, draw) => now > 0.0 && MayCome(f.m.voices, f.p, ev)
    case ComeState(k, ev) => ActFits(f.m, StateAct(k, ev))
    case PassOver(a) => f.p.j < |f.m.voices.ebuffs| && a.now > 0.0 && a.later > 0.0
    case MixStates(ds) =>
      f.p.j == |f.m.voices.ebuffs| && |ds| == |f.m.sbs| && FrameDefined(f.m.sbs, f.m.frs, ds)
  }

  ghost predicate GoodFine(f: Fine) {
    GoodMachine(f.m) && InBounds(f.m.voices, f.p)
  }

  ghost function FineStep(table: SoundTable, f: Fine, a: FineAct): Fine
    requires GoodFine(f) && FineFits(f, a)
  {
    match a
    case Come(ev, now, draw) => f.(m := f.m.(voices := Arrive(table, f.m.voices, ev, now, draw)))
    case ComeState(k, ev) => f.(m := MachineStep(table, f.m, StateAct(k, ev)))
    case PassOver(a) =>
      Fine(f.m.(voices := Advance(table, f.m.voices, f.p.j, a.now, a.later, a.draw)), Passed(f.m.voices, f.p))
    case MixStates(ds) =>
      Fine(f.m.(sbs := BufsAfter(f.m.sbs, f.m.frs, ds, |ds|), frs := RecsAfter(f.m.sbs, f.m.frs, ds, |ds|)), NEW_FRAME)
  }

  lemma FineStepGood(table: SoundTable, f: Fine, a: FineAct)
    requires GoodFine(f) && FineFits(f, a)
    ensures GoodFine(FineStep(table, f, a)) && |FineStep(table, f, a).m.sbs| == |f.m.sbs|
  {
    hide Arrive, Advance, InBounds, Passed, FrameDefined, MayCome, ChannelOkAt, States.StateFrame;
    match a
    case Come(ev, now, draw) =>
      ArriveCoherent(table, f.m.voices, ev, now, draw);
      ArrivalKeepsBounds(table, f.m.voices, f.p, ev, now, draw);
    case ComeState(k, ev) =>
      MachineStepGood(table, f.m, StateAct(k, ev));
    case PassOver(a) =>
      AdvanceCoherent(table, f.m.voices, f.p.j, a.now, a.later, a.draw);
      PassKeepsBounds(table, f.m.voices, f.p, a);
    case MixStates(ds) =>
      StatesKeepGood(f.m, ds);
      NewFrameInBounds(f.m.voices);
  }

  lemma StatesKeepGood(m: Machine, ds: seq<States.Draws>)
    requires GoodMachine(m) && |ds| == |m.sbs| && FrameDefined(m.sbs, m.frs, ds)
    ensures GoodMachine(m.(sbs := BufsAfter(m.sbs, m.frs, ds, |ds|), frs := RecsAfter(m.sbs, m.frs, ds, |ds|)))
  {
    hide States.StateFrame, ChannelOkAt, CrossFade.RoomToHandOver;
    var next := BufsAfter(m.sbs, m.frs, ds, |ds|);
    forall j | 0 <= j < |m.sbs| ensures CrossFade.Panned(next[j]) && next[j].vol == m.sbs[j].vol {
      FrameKeepsPanned(m.sbs[j], m.frs[j], ds[j]);
    }
    SameVolumes(m.sbs, next, |m.sbs|);
  }

  ghost predicate FineRunFits(table: SoundTable, f: Fine, acts: seq<FineAct>)
    requires GoodFine(f)
    decreases |acts|
  {
    acts == [] || (FineFits(f, acts[0]) &&
      (FineStepGood(table, f, acts[0]);
       FineRunFits(table, FineStep(table, f, acts[0]), acts[1..])))
  }

  ghost function FineRun(table: SoundTable, f: Fine, acts: seq<FineAct>): (r: Fine)
    requires GoodFine(f) && FineRunFits(table, f, acts)
    ensures GoodFine(r) && |r.m.sbs| == |f.m.sbs|
    decreases |acts|
  {
    if acts == [] then f
    else
      FineStepGood(table, f, acts[0]);
      FineRun(table, FineStep(table, f, acts[0]), acts[1..])
  }

  // What stands in a cell after the passes so far and the first n states.
  function CellSum(f: Fine, ds: seq<States.Draws>, side: Side, n: nat): int
    requires |f.m.sbs| == |f.m.frs| == |ds| && n <= |ds|
  {
    (if side.Left? then f.p.left else f.p.right) + StatePart(f.m.sbs, f.m.frs, ds, side, n)
  }

  // At any point, in the middle of a frame or when the states are mixed, of any run in which events come
  // at any time that the guard allows, no sum has wrapped.
  lemma NoSumWrapsAtAnyPoint(table: SoundTable, f: Fine, acts: seq<FineAct>, ds: seq<States.Draws>, side: Side, n: nat)
    requires GoodFine(f) && FineRunFits(table, f, acts) && |ds| == |f.m.sbs| && n <= |ds|
    ensures var r := FineRun(table, f, acts);
            && InShort(r.p.left) && InShort(r.p.right)
            && (FrameDefined(r.m.sbs, r.m.frs, ds) ==> InShort(CellSum(r, ds, side, n)))
  {
    hide FineStep, FineFits, FrameDefined, InBounds, States.StateFrame, StateLevel, ChannelOkAt;
    var r := FineRun(table, f, acts);
    PlayedStaysBelow(r.m.voices, r.p);
    if FrameDefined(r.m.sbs, r.m.frs, ds) {
      StatePartBound(r.m.sbs, r.m.frs, ds, side, n);
      VolSumPrefix(r.m.sbs, n, |r.m.sbs|);
    }
  }

  // The guard bars the third of the events with which a sum wraps: a sound has ended in that frame, and
  // it gets a channel that is still to be passed.
  lemma ThirdMayNotCome(table: SoundTable, ev: Event)
    requires ev.kind == EVENT_T && ev.loc == 255 && table(ev.sound) == [LOUD]
    ensures var s := TwoLoud(table, ev);
            !MayCome(Advance(table, s, 0, 3.0, 3.0, 0), Passed(s, NEW_FRAME), ev)
  {
    hide TwoLoud, Advance, EventLevel;
    SharesOfThree(table, ev);
    FirstHasEnded(table, ev);
    var s := TwoLoud(table, ev);
    assert s.ebuffs[0] == s.ebuffs[..2][0];
    var t := Advance(table, s, 0, 3.0, 3.0, 0);
    assert IdleFrom(t.sched, 2, 0) == 2;
  }

  // ---------- Frames without arrivals ----------

  // The passes over the first k channels.
  function FirstPasses(ps: seq<Pass>, k: nat): seq<FineAct>
    requires k <= |ps|
  {
    if k == 0 then [] else FirstPasses(ps, k - 1) + [PassOver(ps[k - 1])]
  }

  lemma {:induction false} FineRunAppends(table: SoundTable, f: Fine, acts: seq<FineAct>, a: FineAct)
    requires GoodFine(f) && FineRunFits(table, f, acts) && FineFits(FineRun(table, f, acts), a)
    ensures FineRunFits(table, f, acts + [a])
    ensures FineRun(table, f, acts + [a]) == FineStep(table, FineRun(table, f, acts), a)
    decreases |acts|
  {
    hide FineStep, GoodFine, FineFits;
    if acts == [] {
      assert acts + [a] == [a] && [a][1..] == [];
      FineStepGood(table, f, a);
    } else {
      FineStepGood(table, f, acts[0]);
      assert (acts + [a])[0] == acts[0] && (acts + [a])[1..] == acts[1..] + [a];
      FineRunAppends(table, FineStep(table, f, acts[0]), acts[1..], a);
    }
  }

  // The first k channels of a frame that began in the state `m` have been passed.
  ghost predicate AfterPasses(table: SoundTable, m: Machine, ps: seq<Pass>, k: nat, r: Fine)
    requires GoodMachine(m) && k <= |ps| == |m.voices.ebuffs|
  {
    && r.m == m.(voices := VoicesAfter(table, m.voices, ps, k)) && r.p.j == k
    && r.p.left == EventPart(m.voices, Left, k) && r.p.right == EventPart(m.voices, Right, k)
  }

  lemma OnePass(table: SoundTable, m: Machine, ps: seq<Pass>, k: nat, r: Fine)
    requires GoodMachine(m) && k < |ps| == |m.voices.ebuffs| && PassesOk(ps) && GoodFine(r)
    requires AfterPasses(table, m, ps, k, r)
    ensures FineFits(r, PassOver(ps[k])) && AfterPasses(table, m, ps, k + 1, FineStep(table, r, PassOver(ps[k])))
  {
    hide Advance, InBounds, EventLevel, ChannelOkAt, Ends;
    NotYetPassed(table, m.voices, ps, k, k);
  }

  lemma {:induction false} PassesInTurn(table: SoundTable, m: Machine, ps: seq<Pass>, k: nat)
    requires GoodMachine(m) && k <= |ps| == |m.voices.ebuffs| && PassesOk(ps)
    ensures GoodFine(Fine(m, NEW_FRAME)) && FineRunFits(table, Fine(m, NEW_FRAME), FirstPasses(ps, k))
    ensures AfterPasses(table, m, ps, k, FineRun(table, Fine(m, NEW_FRAME), FirstPasses(ps, k)))
  {
    NewFrameInBounds(m.voices);
    if k > 0 {
      PassesInTurn(table, m, ps, k - 1);
      var r := FineRun(table, Fine(m, NEW_FRAME), FirstPasses(ps, k - 1));
      hide AfterPasses, FineStep, FineFits, GoodMachine, FineRunFits, FineRun;
      OnePass(table, m, ps, k - 1, r);
      FineRunAppends(table, Fine(m, NEW_FRAME), FirstPasses(ps, k - 1), PassOver(ps[k - 1]));
    }
  }

  lemma StatesEndFrame(table: SoundTable, r: Fine, m: Machine, ps: seq<Pass>, ds: seq<States.Draws>)
    requires GoodMachine(m) && ActFits(m, FrameAct(ps, ds)) && GoodFine(r)
    requires r.m == m.(voices := VoicesAfter(table, m.voices, ps, |ps|)) && r.p.j == |ps|
    ensures FineFits(r, MixStates(ds))
    ensures FineStep(table, r, MixStates(ds)) == Fine(MachineStep(table, m, FrameAct(ps, ds)), NEW_FRAME)
  {
    hide FrameDefined, InBounds, VoicesAfter, GoodMachine, BufsAfter, RecsAfter;
  }

  // A frame of the mixer is such a run: the passes over all channels in turn, and the states.
  lemma FrameIsPassByPass(table: SoundTable, m: Machine, ps: seq<Pass>, ds: seq<States.Draws>)
    requires GoodMachine(m) && ActFits(m, FrameAct(ps, ds))
    ensures var acts := FirstPasses(ps, |ps|) + [MixStates(ds)];
            && GoodFine(Fine(m, NEW_FRAME)) && FineRunFits(table, Fine(m, NEW_FRAME), acts)
            && FineRun(table, Fine(m, NEW_FRAME), acts) == Fine(MachineStep(table, m, FrameAct(ps, ds)), NEW_FRAME)
  {
    PassesInTurn(table, m, ps, |ps|);
    var r := FineRun(table, Fine(m, NEW_FRAME), FirstPasses(ps, |ps|));
    StatesEndFrame(table, r, m, ps, ds);
    hide FineRun, FineRunFits, FineStep, FineFits, GoodFine, MachineStep, FirstPasses;
    FineRunAppends(table, Fine(m, NEW_FRAME), FirstPasses(ps, |ps|), MixStates(ds));
  }
}
