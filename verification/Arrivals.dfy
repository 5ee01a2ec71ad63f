/**
 * What becomes of an event that reaches the engine: it starts on a channel, waits in the heap or is
 * turned away, and what a channel plays is what its event asked for (server/engine.c:494-564,
 * server/mixer.c:119-147, 210-250).
 */
module Arrivals {
  import opened Events
  import opened Options
  import opened Sounds
  import opened DynamicVolume
  import opened MixerQueue
  import opened Voices
  import opened VoiceRuns

  ghost predicate AllBusy(s: Voices) {
    forall j :: 0 <= j < |s.ebuffs| ==> s.ebuffs[j].snd.Some?
  }

  lemma NoneIdleIff(s: Voices)
    requires Coherent(s)
    ensures AllBusy(s) <==> IdleFrom(s.sched, s.lastc, 0) == -1
    ensures IdleFrom(s.sched, s.lastc, 0) != -1 ==>
              var c := IdleFrom(s.sched, s.lastc, 0); 0 <= c < |s.ebuffs| && s.ebuffs[c].snd.None?
  {
    RoundRobin(s.sched, s.lastc);
    forall j: nat | j < |s.ebuffs| ensures s.ebuffs[j].snd.Some? <==> s.sched[j].startt != 0.0 {
      assert ChannelOkAt(s, j);
    }
  }

  // ---------- An event that finds every channel busy ----------

  // It waits in the heap as long as that has room, and is discarded only if it has none. No channel is
  // touched either way.
  lemma BusyArrivalWaitsIff(table: SoundTable, s: Voices, ev: Event, now: real, draw: Draw)
    requires Coherent(s) && AllBusy(s) && ev.kind == EVENT_T
    ensures var r := Arrive(table, s, ev, now, draw);
            var who := EngineEvent(ev, now);
            && r == s.(queue := r.queue, account := s.account.(discarded := r.account.discarded))
            && (|s.queue| < s.capacity ==>
                  && multiset(r.queue) == multiset(s.queue) + multiset{who} && r.queue == Enqueued(s.queue, who)
                  && r.account.discarded == s.account.discarded)
            && (|s.queue| == s.capacity ==>
                  r.queue == s.queue && r.account.discarded == s.account.discarded + multiset{who})
            && (r.account.discarded == s.account.discarded <==> |s.queue| < s.capacity)
  {
    hide Enqueued;
    NoneIdleIff(s);
    var who := EngineEvent(ev, now);
    EnqueueAddsOne(s.queue, who);
    assert |s.account.discarded + multiset{who}| == |s.account.discarded| + 1;
  }

  // An event arrives although all channels are busy and the heap is full.
  ghost predicate TurnsAway(s: Voices, a: Action) {
    a.ArriveAct? && a.ev.kind == EVENT_T && AllBusy(s) && |s.queue| == s.capacity
  }

  // The events of a run to which that happens.
  ghost function TurnedAway(table: SoundTable, s: Voices, acts: seq<Action>): multiset<Arrival>
    requires Shape(s) && RunOk(|s.ebuffs|, acts)
    decreases |acts|
  {
    if acts == [] then multiset{}
    else (if TurnsAway(s, acts[0]) then multiset{EngineEvent(acts[0].ev, acts[0].now)} else multiset{})
         + TurnedAway(table, Step(table, s, acts[0]), acts[1..])
  }

  lemma StepTurnsAway(table: SoundTable, s: Voices, a: Action)
    requires Coherent(s) && ActionOk(|s.ebuffs|, a)
    ensures Step(table, s, a).account.discarded
            == s.account.discarded + (if TurnsAway(s, a) then multiset{EngineEvent(a.ev, a.now)} else multiset{})
  {
    hide Dequeued, DynVol, PickIndex, Enqueued;
    NoneIdleIff(s);
  }

  lemma MoreOfSome(a: multiset<Arrival>, b: multiset<Arrival>)
    ensures a + b == a <==> b == multiset{}
  {
    assert |a + b| == |a| + |b|;
  }

  // In any run the events that are discarded are those, and no others.
  lemma {:induction false} AnyDiscardedIff(table: SoundTable, s: Voices, acts: seq<Action>)
    requires Coherent(s) && RunOk(|s.ebuffs|, acts)
    ensures var d := Run(table, s, acts).account.discarded;
            && d == s.account.discarded + TurnedAway(table, s, acts)
            && (d != s.account.discarded <==> TurnedAway(table, s, acts) != multiset{})
    decreases |acts|
  {
    assert Shape(s);
    hide Step, TurnsAway, Coherent;
    if acts != [] {
      StepCoherent(table, s, acts[0]);
      StepTurnsAway(table, s, acts[0]);
      AnyDiscardedIff(table, Step(table, s, acts[0]), acts[1..]);
    }
    MoreOfSome(s.account.discarded, TurnedAway(table, s, acts));
  }

  // ---------- The heap in a run ----------

  // What a step does to the heap.
  ghost function HeapOps(s: Voices, a: Action): seq<HeapOp>
    requires Shape(s) && ActionOk(|s.ebuffs|, a)
  {
    match a
    case ArriveAct(ev, now, _) =>
      if ev.kind == EVENT_T && AllBusy(s) && |s.queue| < s.capacity then [Enq(EngineEvent(ev, now))] else []
    case AdvanceAct(j, _, _, _) =>
      if s.ebuffs[j].snd.Some? && s.ebuffs[j].pos + STEREO == s.ebuffs[j].len && s.queue != [] then [Deq] else []
  }

  ghost function AllHeapOps(table: SoundTable, s: Voices, acts: seq<Action>): seq<HeapOp>
    requires Shape(s) && RunOk(|s.ebuffs|, acts)
    decreases |acts|
  {
    if acts == [] then [] else HeapOps(s, acts[0]) + AllHeapOps(table, Step(table, s, acts[0]), acts[1..])
  }

  lemma StepOfHeap(table: SoundTable, s: Voices, a: Action)
    requires Coherent(s) && ActionOk(|s.ebuffs|, a)
    ensures Step(table, s, a).queue == if HeapOps(s, a) == [] then s.queue else StepAsWritten(s.queue, HeapOps(s, a)[0])
    ensures Step(table, s, a).capacity == s.capacity
  {
    hide Dequeued, DynVol, PickIndex, Enqueued;
    NoneIdleIff(s);
  }

  // So the heap goes through the operations that MixerQueue speaks of: one is put in by each event that
  // has to wait, and the front one is taken by each sound that ends.
  lemma {:induction false} HeapOfRun(table: SoundTable, s: Voices, acts: seq<Action>)
    requires Coherent(s) && RunOk(|s.ebuffs|, acts)
    ensures Run(table, s, acts).queue == RunAsWritten(s.queue, AllHeapOps(table, s, acts))
    decreases |acts|
  {
    assert Shape(s);
    hide Step, Coherent, StepAsWritten;
    if acts != [] {
      StepCoherent(table, s, acts[0]);
      StepOfHeap(table, s, acts[0]);
      var t := Step(table, s, acts[0]);
      HeapOfRun(table, t, acts[1..]);
      var ops := HeapOps(s, acts[0]);
      var rest := AllHeapOps(table, t, acts[1..]);
      assert |ops| <= 1;
      assert ops == [] ==> ops + rest == rest;
      assert ops != [] ==> (ops + rest)[0] == ops[0] && (ops + rest)[1..] == rest;
    }
  }

  // ---------- An event that starts ----------

  // In `r` channel j starts to play for `who`: from its first frame on, a sound of those that the event's
  // name stands for, the one in whose part the draw lies, where and with the flags that the event says,
  // with the share due to one channel more than the shares `mul` count.
  ghost predicate Starts(table: SoundTable, r: Voices, j: nat, who: Arrival, mul: seq<real>, draw: Draw)
    requires Shape(r) && |mul| == |r.ebuffs| && j < |mul|
  {
    var b := r.ebuffs[j];
    var snds := table(who.event.sound);
    && (exists k :: 0 <= k < |snds| && k * 0x8000_0000 <= |snds| * draw < (k + 1) * 0x8000_0000
          && b.snd == Some(snds[k]) && b.len == |snds[k]|)
    && b.pos == 0 && b.stereo == who.event.loc as real / 255.0 && b.flags == who.event.flags
    && r.account.playing[j] == Some(who)
    && r.dynMul == mul[j := DynVol(mul, Busy(mul) + 1)]
    && r.sched[j].priorit == who.event.prior
  }

  lemma PickOf(snds: SoundSet, draw: Draw)
    ensures var k := PickIndex(|snds|, draw);
            k < |snds| && k * 0x8000_0000 <= |snds| * draw < (k + 1) * 0x8000_0000
  {
    PickIndexIff(|snds|, draw, PickIndex(|snds|, draw));
  }

  // An event that finds an idle channel starts on the first one in cyclic order, and the next search
  // begins behind it. Nothing waits or is dropped, and no other channel is touched.
  lemma ArrivalStarts(table: SoundTable, s: Voices, ev: Event, now: real, draw: Draw)
    requires Coherent(s) && !AllBusy(s) && ev.kind == EVENT_T && now > 0.0
    ensures var c := IdleFrom(s.sched, s.lastc, 0);
            var r := Arrive(table, s, ev, now, draw);
            && 0 <= c < |s.ebuffs| && s.ebuffs[c].snd.None?
            && Starts(table, r, c, EngineEvent(ev, now), s.dynMul, draw)
            && r.lastc == (c + 1) % |s.ebuffs| && r.sched[c].startt == now && r.sched[c].minendt == s.sched[c].minendt
            && r.queue == s.queue && r.account == s.account.(playing := r.account.playing)
            && forall k :: 0 <= k < |s.ebuffs| && k != c ==> SameChannel(s, r, k)
  {
    hide DynVol, PickIndex, Busy, TotVol;
    NoneIdleIff(s);
    var c: nat := IdleFrom(s.sched, s.lastc, 0);
    assert ChannelOkAt(s, c);
    PickOf(table(ev.sound), draw);
  }

  // So does the event at the front of the heap, on the channel on which a sound has just ended, unless
  // it has waited too long.
  lemma RefillStarts(table: SoundTable, s: Voices, j: nat, now: real, later: real, draw: Draw)
    requires Coherent(s) && j < |s.ebuffs| && later > 0.0
    requires s.ebuffs[j].snd.Some? && s.ebuffs[j].pos + STEREO == s.ebuffs[j].len
    requires s.queue != [] && now - s.queue[0].mixTime < QUEUE_EXPIRED
    ensures var r := Advance(table, s, j, now, later, draw);
            && Starts(table, r, j, s.queue[0], s.dynMul[j := 0.0], draw)
            && r.lastc == s.lastc && r.sched[j].startt == r.sched[j].minendt == later
            && r.queue == Dequeued(s.queue) && r.account.expired == s.account.expired
            && r.account.discarded == s.account.discarded
            && forall k :: 0 <= k < |s.ebuffs| && k != j ==> SameChannel(s, r, k)
  {
    hide DynVol, PickIndex, Busy, TotVol, Dequeued;
    MovedCoherent(s, j);
    var u := RemoveEvent(Moved(s, j), j);
    assert u.dynMul == s.dynMul[j := 0.0] && u.dynBufCnt == Busy(u.dynMul);
    PickOf(table(s.queue[0].event.sound), draw);
    assert Starts(table, AddOldEvent(table, u, j, now, later, draw), j, s.queue[0], u.dynMul, draw);
  }

  // Without one that may start, the channel on which the sound has ended is left as if it had never
  // played, but for its flags.
  lemma LeftEmpty(table: SoundTable, s: Voices, j: nat, now: real, later: real, draw: Draw)
    requires Coherent(s) && j < |s.ebuffs| && later > 0.0
    requires s.ebuffs[j].snd.Some? && s.ebuffs[j].pos + STEREO == s.ebuffs[j].len
    requires s.queue == [] || now - s.queue[0].mixTime >= QUEUE_EXPIRED
    ensures var r := Advance(table, s, j, now, later, draw);
            && r.ebuffs == s.ebuffs[j := EventBuf(None, 0, 0, 0.0, s.ebuffs[j].flags)]
            && r.sched == s.sched[j := Sched(0.0, 0, 0.0)] && r.dynMul == s.dynMul[j := 0.0]
            && r.lastc == s.lastc && r.account.discarded == s.account.discarded
            && r.account.expired == s.account.expired + (if s.queue == [] then multiset{} else multiset{s.queue[0]})
  {
    hide Dequeued;
  }

  // ---------- A channel plays what its event asked for ----------

  ghost predicate PlaysFor(table: SoundTable, b: EventBuf, who: Option<Arrival>) {
    match who
    case None => b.snd.None?
    case Some(a) =>
      && b.snd.Some? && b.snd.value in table(a.event.sound) && b.len == |b.snd.value|
      && b.stereo == a.event.loc as real / 255.0 && b.flags == a.event.flags
  }

  ghost predicate AllPlayFor(table: SoundTable, s: Voices) {
    Shape(s) && forall j :: 0 <= j < |s.ebuffs| ==> PlaysFor(table, s.ebuffs[j], s.account.playing[j])
  }

  lemma ChannelPlaysFor(table: SoundTable, s: Voices, a: Action, k: nat)
    requires Coherent(s) && AllPlayFor(table, s) && ActionOk(|s.ebuffs|, a) && k < |s.ebuffs|
    ensures var r := Step(table, s, a); PlaysFor(table, r.ebuffs[k], r.account.playing[k])
  {
    hide Coherent, IdleFrom, DynVol, PickIndex, Dequeued, Enqueued;
    match a
    case ArriveAct(ev, now, draw) =>
      NoneIdleIff(s);
      if ev.kind == EVENT_T && AllBusy(s) {
        BusyArrivalWaitsIff(table, s, ev, now, draw);
      } else if ev.kind == EVENT_T {
        ArrivalStarts(table, s, ev, now, draw);
        assert IdleFrom(s.sched, s.lastc, 0) != k ==> SameChannel(s, Arrive(table, s, ev, now, draw), k);
      }
    case AdvanceAct(j, now, later, draw) =>
      if j != k {
        AdvanceLeavesOtherChannels(table, s, j, now, later, draw, k);
      } else if s.ebuffs[j].snd.Some? && s.ebuffs[j].pos + STEREO == s.ebuffs[j].len {
        if s.queue != [] && now - s.queue[0].mixTime < QUEUE_EXPIRED {
          RefillStarts(table, s, j, now, later, draw);
        }
      }
  }

  // In every run: a channel that plays for an event plays one of the sounds of that event, where and
  // with the flags that it said.
  lemma {:induction false} EveryChannelPlaysItsEvent(table: SoundTable, s: Voices, acts: seq<Action>)
    requires Coherent(s) && AllPlayFor(table, s) && RunOk(|s.ebuffs|, acts)
    ensures AllPlayFor(table, Run(table, s, acts))
    decreases |acts|
  {
    hide Step, Coherent, PlaysFor;
    if acts != [] {
      StepCoherent(table, s, acts[0]);
      forall k | 0 <= k < |s.ebuffs|
        ensures var r := Step(table, s, acts[0]); PlaysFor(table, r.ebuffs[k], r.account.playing[k])
      {
        ChannelPlaysFor(table, s, acts[0], k);
      }
      EveryChannelPlaysItsEvent(table, Step(table, s, acts[0]), acts[1..]);
    }
  }

  lemma InitialPlaysFor(table: SoundTable, channels: nat, capacity: nat)
    requires channels >= 2
    ensures AllPlayFor(table, Initial(channels, capacity))
  {
  }
}
