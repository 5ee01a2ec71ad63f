/**
 * What is heard of the event sounds: each voice plays every sample of its sound once and in order, in
 * every run of the engine and the mixer and in every frame that the mixer writes
 * (server/mixer.c:451-503).
 */
module Hearing {
  import opened Events
  import opened Options
  import opened Sounds
  import opened Samples
  import opened DynamicVolume
  import opened Voices
  import opened VoiceRuns
  import opened Arrivals
  import opened Output
  import States

  // The two samples of the k-th frame of a sound.
  function SampleOf(snd: Sound, k: nat, side: Side): Sample
    requires 2 * k + 1 < |snd|
  {
    if side.Left? then snd[2 * k] else snd[2 * k + 1]
  }

  // How loud the k-th frame is on one side, for a share of the volume and a stereo position; the rest of
  // the position is for the other side.
  function Heard(snd: Sound, k: nat, share: real, position: real, side: Side): int
    requires 2 * k + 1 < |snd|
  {
    if side.Left? then Trunc(SampleOf(snd, k, Left) as real * share * 0.6 * position)
    else Trunc(SampleOf(snd, k, Right) as real * share * 0.6 * (1.0 - position))
  }

  // A pass over a channel plays the frame that the channel is at.
  lemma PassIsHeard(b: EventBuf, share: real, side: Side)
    requires b.snd.Some? && b.pos % 2 == 0 && b.pos + 1 < |b.snd.value|
    ensures EventLevel(b, share, side) == Heard(b.snd.value, b.pos / 2, share, b.stereo, side)
  {
    var pan := Pan(b.stereo, side);
    var x := SampleOf(b.snd.value, b.pos / 2, side) as real;
    assert Scaled(EventGain(share, pan), x) == x * share * 0.6 * pan;
  }

  lemma SilenceIsHeard(b: EventBuf, share: real, side: Side)
    requires b.snd.None?
    ensures EventLevel(b, share, side) == 0
  {
  }

  // ---------- Runs of the engine and the mixer ----------

  // What the passes over channel j add to the output in a run, one after the other.
  function Outputs(table: SoundTable, s: Voices, acts: seq<Action>, j: nat, side: Side): seq<int>
    requires Shape(s) && RunOk(|s.ebuffs|, acts) && j < |s.ebuffs|
    decreases |acts|
  {
    if acts == [] then []
    else
      (if acts[0].AdvanceAct? && acts[0].j == j then [EventLevel(s.ebuffs[j], s.dynMul[j], side)] else [])
      + Outputs(table, Step(table, s, acts[0]), acts[1..], j, side)
  }

  lemma {:induction false} OutputsPerPass(table: SoundTable, s: Voices, acts: seq<Action>, j: nat, side: Side)
    requires Shape(s) && RunOk(|s.ebuffs|, acts) && j < |s.ebuffs|
    ensures |Outputs(table, s, acts, j, side)| == Passes(acts, j)
    decreases |acts|
  {
    hide Step, EventLevel;
    if acts != [] {
      OutputsPerPass(table, Step(table, s, acts[0]), acts[1..], j, side);
    }
  }

  lemma StepOfPlaying(table: SoundTable, s: Voices, a: Action, j: nat)
    requires Coherent(s) && ActionOk(|s.ebuffs|, a) && j < |s.ebuffs| && s.ebuffs[j].snd.Some?
    requires a.AdvanceAct? && a.j == j ==> s.ebuffs[j].pos + STEREO < s.ebuffs[j].len
    ensures var r := Step(table, s, a);
            && r.ebuffs[j] == s.ebuffs[j].(pos := s.ebuffs[j].pos + if a.AdvanceAct? && a.j == j then STEREO else 0)
            && r.dynMul[j] == s.dynMul[j]
  {
    assert RunOk(|s.ebuffs|, [a]);
    assert [a][1..] == [];
    assert Passes([a], j) == if a.AdvanceAct? && a.j == j then 1 else 0;
    assert ChannelOkAt(s, j);
    PlaysToTheEnd(table, s, [a], j);
    assert Run(table, s, [a]) == Step(table, s, a);
  }

  // Whatever else happens, the passes over a channel play the rest of its sound, frame by frame, at the
  // share of the volume and the position that the channel has.
  lemma {:induction false} EveryFrameIsHeard(table: SoundTable, s: Voices, acts: seq<Action>, j: nat, side: Side)
    requires Coherent(s) && RunOk(|s.ebuffs|, acts) && j < |s.ebuffs| && s.ebuffs[j].snd.Some?
    requires s.ebuffs[j].pos + STEREO * Passes(acts, j) <= s.ebuffs[j].len
    ensures var b, out := s.ebuffs[j], Outputs(table, s, acts, j, side);
            && b.pos % 2 == 0 && b.len == |b.snd.value| && |out| == Passes(acts, j)
            && forall i :: 0 <= i < |out| ==>
                 out[i] == Heard(b.snd.value, b.pos / 2 + i, s.dynMul[j], b.stereo, side)
    decreases |acts|
  {
    hide Step, EventLevel, Heard;
    OutputsPerPass(table, s, acts, j, side);
    assert ChannelOkAt(s, j);
    if acts != [] {
      var a := acts[0];
      var t := Step(table, s, a);
      var b := s.ebuffs[j];
      StepCoherent(table, s, a);
      if a.AdvanceAct? && a.j == j {
        PassIsHeard(b, s.dynMul[j], side);
      }
      if Passes(acts[1..], j) > 0 {
        StepOfPlaying(table, s, a, j);
        EveryFrameIsHeard(table, t, acts[1..], j, side);
      } else {
        OutputsPerPass(table, t, acts[1..], j, side);
      }
    }
  }

  // From its arrival on an idle channel to its last pass an event is heard whole: every frame of the sound
  // that was drawn for it, once and in order, at the position that it asked for.
  lemma ArrivalIsHeardWhole(table: SoundTable, s: Voices, ev: Event, now: real, draw: Draw,
                            acts: seq<Action>, side: Side)
    requires Coherent(s) && !AllBusy(s) && ev.kind == EVENT_T && now > 0.0 && RunOk(|s.ebuffs|, acts)
    requires var r := Arrive(table, s, ev, now, draw);
             var c := IdleFrom(s.sched, s.lastc, 0);
             0 <= c < |r.ebuffs| && STEREO * Passes(acts, c) == r.ebuffs[c].len
    ensures var r := Arrive(table, s, ev, now, draw);
            var c := IdleFrom(s.sched, s.lastc, 0);
            var share := DynVol(s.dynMul, Busy(s.dynMul) + 1);
            var out := Outputs(table, r, acts, c, side);
            && exists k :: 0 <= k < |table(ev.sound)|
                 && k * 0x8000_0000 <= |table(ev.sound)| * draw < (k + 1) * 0x8000_0000
                 && 2 * |out| == |table(ev.sound)[k]|
                 && forall i :: 0 <= i < |out| ==>
                      out[i] == Heard(table(ev.sound)[k], i, share, ev.loc as real / 255.0, side)
  {
    hide Arrive, IdleFrom, Heard, DynVol, Outputs;
    ArrivalStarts(table, s, ev, now, draw);
    ArriveCoherent(table, s, ev, now, draw);
    EveryFrameIsHeard(table, Arrive(table, s, ev, now, draw), acts, IdleFrom(s.sched, s.lastc, 0), side);
  }

  // ---------- The frames that the mixer writes ----------

  function Frames(acts: seq<MachineAct>): nat
    decreases |acts|
  {
    if acts == [] then 0 else (if acts[0].FrameAct? then 1 else 0) + Frames(acts[1..])
  }

  lemma PassMovesChannel(table: SoundTable, s: Voices, k: nat, p: Pass, j: nat)
    requires Coherent(s) && k < |s.ebuffs| && p.now > 0.0 && p.later > 0.0
    requires j < |s.ebuffs| && s.ebuffs[j].snd.Some? && (k == j ==> s.ebuffs[j].pos + STEREO < s.ebuffs[j].len)
    ensures var r := Advance(table, s, k, p.now, p.later, p.draw);
            && r.ebuffs[j] == s.ebuffs[j].(pos := s.ebuffs[j].pos + if k == j then STEREO else 0)
            && r.dynMul[j] == s.dynMul[j]
  {
    StepOfPlaying(table, s, AdvanceAct(k, p.now, p.later, p.draw), j);
  }

  // A frame moves every channel on by one frame of its sound.
  lemma {:induction false} FrameMovesChannel(table: SoundTable, s: Voices, ps: seq<Pass>, k: nat, j: nat)
    requires Coherent(s) && k <= |ps| == |s.ebuffs| && PassesOk(ps)
    requires j < |s.ebuffs| && s.ebuffs[j].snd.Some? && s.ebuffs[j].pos + STEREO < s.ebuffs[j].len
    ensures var r := VoicesAfter(table, s, ps, k);
            && r.ebuffs[j] == s.ebuffs[j].(pos := s.ebuffs[j].pos + if j < k then STEREO else 0)
            && r.dynMul[j] == s.dynMul[j]
  {
    hide Advance, ChannelOkAt, Busy, TotVol;
    if k > 0 {
      FrameMovesChannel(table, s, ps, k - 1, j);
      VoicesAfterCoherent(table, s, ps, k - 1);
      PassMovesChannel(table, VoicesAfter(table, s, ps, k - 1), k - 1, ps[k - 1], j);
    }
  }

  lemma MachineStepMovesVoice(table: SoundTable, m: Machine, a: MachineAct, j: nat)
    requires GoodMachine(m) && ActFits(m, a) && j < |m.voices.ebuffs| && m.voices.ebuffs[j].snd.Some?
    requires a.FrameAct? ==> m.voices.ebuffs[j].pos + STEREO < m.voices.ebuffs[j].len
    ensures var r := MachineStep(table, m, a).voices;
            && |r.ebuffs| == |m.voices.ebuffs|
            && r.ebuffs[j] == m.voices.ebuffs[j].(pos := m.voices.ebuffs[j].pos + if a.FrameAct? then STEREO else 0)
            && r.dynMul[j] == m.voices.dynMul[j]
  {
    hide Arrive, VoicesAfter, ChannelOkAt, FrameDefined, States.SetState;
    match a
    case EventAct(ev, now, draw) =>
      ArrivalLeavesPlayingChannels(table, m.voices, ev, now, draw, j);
    case StateAct(_, _) =>
    case FrameAct(ps, ds) =>
      FrameMovesChannel(table, m.voices, ps, |ps|, j);
  }

  // In every run of the machine a voice is, after n frames, n frames further.
  lemma {:induction false} VoiceAfterFrames(table: SoundTable, m: Machine, acts: seq<MachineAct>, j: nat)
    requires GoodMachine(m) && MachineRunFits(table, m, acts)
    requires j < |m.voices.ebuffs| && m.voices.ebuffs[j].snd.Some?
    requires m.voices.ebuffs[j].pos + STEREO * Frames(acts) < m.voices.ebuffs[j].len
    ensures var r := MachineRun(table, m, acts).voices;
            && r.ebuffs[j] == m.voices.ebuffs[j].(pos := m.voices.ebuffs[j].pos + STEREO * Frames(acts))
            && r.dynMul[j] == m.voices.dynMul[j]
    decreases |acts|
  {
    hide MachineStep, GoodMachine, ActFits;
    if acts != [] {
      MachineStepGood(table, m, acts[0]);
      MachineStepMovesVoice(table, m, acts[0], j);
      VoiceAfterFrames(table, MachineStep(table, m, acts[0]), acts[1..], j);
    }
  }

  // The event channels without channel j.
  function Without(s: Voices, j: nat): (r: Voices)
    requires Shape(s) && j < |s.ebuffs|
    ensures Shape(r) && |r.ebuffs| == |s.ebuffs|
  {
    s.(ebuffs := s.ebuffs[j := EventBuf(None, 0, 0, 0.0, 0)])
  }

  // The event part of a frame is the sum over its channels.
  lemma {:induction false} EventPartSplits(s: Voices, side: Side, k: nat, j: nat)
    requires Shape(s) && k <= |s.ebuffs| && j < |s.ebuffs|
    ensures EventPart(s, side, k)
            == EventPart(Without(s, j), side, k) + if j < k then EventLevel(s.ebuffs[j], s.dynMul[j], side) else 0
  {
    hide EventLevel;
    if k > 0 {
      EventPartSplits(s, side, k - 1, j);
      SilenceIsHeard(Without(s, j).ebuffs[j], s.dynMul[j], side);
    }
  }

  lemma {:induction false} NoVoiceNoSound(s: Voices, side: Side, k: nat)
    requires Shape(s) && k <= |s.ebuffs| && forall j :: 0 <= j < |s.ebuffs| ==> s.ebuffs[j].snd.None?
    ensures EventPart(s, side, k) == 0
  {
    hide EventLevel;
    if k > 0 {
      NoVoiceNoSound(s, side, k - 1);
      SilenceIsHeard(s.ebuffs[k - 1], s.dynMul[k - 1], side);
    }
  }

  // Each frame that the mixer writes holds, besides what the others play, the next frame of each voice:
  // a voice at its first frame when a run begins is heard with frame n after n frames.
  lemma FrameHoldsVoice(table: SoundTable, m: Machine, acts: seq<MachineAct>, ds: seq<States.Draws>, j: nat, side: Side)
    requires GoodMachine(m) && MachineRunFits(table, m, acts) && |ds| == |m.sbs|
    requires j < |m.voices.ebuffs| && m.voices.ebuffs[j].snd.Some?
    requires m.voices.ebuffs[j].pos + STEREO * Frames(acts) < m.voices.ebuffs[j].len
    ensures var b := m.voices.ebuffs[j];
            var r := MachineRun(table, m, acts);
            && b.pos % 2 == 0 && b.pos + STEREO * Frames(acts) + 1 < |b.snd.value|
            && FrameSum(r, ds, side)
               == Heard(b.snd.value, b.pos / 2 + Frames(acts), m.voices.dynMul[j], b.stereo, side)
                  + EventPart(Without(r.voices, j), side, |r.voices.ebuffs|)
                  + StatePart(r.sbs, r.frs, ds, side, |r.sbs|)
  {
    hide EventLevel, Heard, MachineRunFits, MachineRun, EventPart, StatePart;
    assert ChannelOkAt(m.voices, j);
    VoiceAfterFrames(table, m, acts, j);
    var r := MachineRun(table, m, acts);
    PassIsHeard(r.voices.ebuffs[j], r.voices.dynMul[j], side);
    EventPartSplits(r.voices, side, |r.voices.ebuffs|, j);
  }
}
