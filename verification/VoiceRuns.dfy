/**
 * What every run of the engine and the mixer keeps: the four tables agree, no event is lost, no
 * channel idles while events wait, and no playing sound is cut short.
 */
module VoiceRuns {
  import opened Events
  import opened Options
  import opened Sounds
  import opened DynamicVolume
  import opened MixerQueue
  import opened Voices

  // ---------- Coherence of ebuffs, dyn_mul, sched and the heap ----------

  ghost predicate ChannelOk(b: EventBuf, mul: real, e: Sched, who: Option<Arrival>) {
    match b.snd
    case None =>
      b.pos == 0 && mul == 0.0 && e.startt == 0.0 && who.None?
    case Some(snd) =>
      && b.len == |snd| && b.pos % 2 == 0 && b.pos < b.len
      && 0.0 <= b.stereo <= 1.0
      && mul > 0.0 && e.startt != 0.0 && who.Some?
  }

  ghost predicate ChannelOkAt(s: Voices, j: nat)
    requires Shape(s) && j < |s.ebuffs|
  {
    ChannelOk(s.ebuffs[j], s.dynMul[j], s.sched[j], s.account.playing[j])
  }

  ghost predicate Coherent(s: Voices) {
    && Shape(s)
    && (forall j: nat :: j < |s.ebuffs| ==> ChannelOkAt(s, j))
    && s.dynBufCnt == Busy(s.dynMul)
    && TotVol(s.dynMul) < 1.0
    && |s.queue| <= s.capacity
  }

  // What mixerInit and the calloc'd tables start from.
  function Initial(channels: nat, capacity: nat): Voices
    requires channels >= 2
  {
    Voices(seq(channels, _ => EventBuf(None, 0, 0, 0.0, 0)), seq(channels, _ => 0.0), 0,
           seq(channels, _ => Sched(0.0, 0, 0.0)), 0, [], capacity,
           Account(seq(channels, _ => None), multiset{}, multiset{}, multiset{}))
  }

  lemma {:induction false} BusyOfSilence(mul: seq<real>)
    requires forall i :: 0 <= i < |mul| ==> mul[i] == 0.0
    ensures Busy(mul) == 0
  {
    if mul != [] {
      BusyOfSilence(mul[..|mul| - 1]);
    }
  }

  lemma InitialCoherent(channels: nat, capacity: nat)
    requires channels >= 2
    ensures Coherent(Initial(channels, capacity))
  {
    var s := Initial(channels, capacity);
    TotVolOfSilence(s.dynMul);
    BusyOfSilence(s.dynMul);
  }

  // The reading of Coherent: a channel has no buffer iff its start time is 0 iff its multiplier is
  // 0; dyn_buf_cnt counts the channels that play.
  lemma CoherentMeans(s: Voices, j: nat)
    requires Coherent(s) && j < |s.ebuffs|
    ensures s.ebuffs[j].snd.None? <==> s.sched[j].startt == 0.0
    ensures s.ebuffs[j].snd.None? <==> s.dynMul[j] == 0.0
    ensures s.ebuffs[j].snd.None? ==> s.ebuffs[j].pos == 0
    ensures s.ebuffs[j].snd.Some? ==> s.ebuffs[j].pos % 2 == 0 && s.ebuffs[j].pos + 1 < |s.ebuffs[j].snd.value|
    ensures s.dynBufCnt == |set k: nat | k < |s.ebuffs| && s.ebuffs[k].snd.Some?|
  {
    assert ChannelOkAt(s, j);
    var playing := set k: nat | k < |s.ebuffs| && s.ebuffs[k].snd.Some?;
    var counted := set k: nat | k < |s.dynMul| && s.dynMul[k] != 0.0;
    assert playing == counted by {
      forall k: nat | k < |s.ebuffs| ensures k in playing <==> k in counted {
        assert ChannelOkAt(s, k);
      }
    }
    BusyCounts(s.dynMul);
  }

  lemma {:induction false} BusyCounts(mul: seq<real>)
    ensures Busy(mul) == |set k: nat | k < |mul| && mul[k] != 0.0|
  {
    var counted := set k: nat | k < |mul| && mul[k] != 0.0;
    if mul == [] {
      assert counted == {};
    } else {
      var n := |mul| - 1;
      var before := set k: nat | k < n && mul[..n][k] != 0.0;
      BusyCounts(mul[..n]);
      assert counted == before + (if mul[n] != 0.0 then {n} else {});
    }
  }

  // Giving a silent channel a sound and a start time keeps the tables coherent, whatever headroom
  // there is, and gives it a positive share of the headroom.
  lemma StartCoherent(s: Voices, j: nat, snd: Sound, loc: real, flags: int, who: Arrival, e: Sched)
    requires Coherent(s) && j < |s.ebuffs| && s.ebuffs[j].snd.None?
    requires 0.0 <= loc <= 1.0 && e.startt != 0.0
    ensures Coherent(SetSched(AddEvent(s, j, snd, loc, flags, who), j, e))
  {
    var t := SetSched(AddEvent(s, j, snd, loc, flags, who), j, e);
    var v := DynVol(s.dynMul, s.dynBufCnt + 1);
    assert ChannelOkAt(s, j);
    BusyUpdate(s.dynMul, j, v);
    DynVolBounds(s.dynMul, s.dynBufCnt + 1);
    TotVolUpdate(s.dynMul, j, v);
    forall k: nat | k < |t.ebuffs| ensures ChannelOkAt(t, k) {
      assert ChannelOkAt(s, k);
    }
  }

  lemma StopCoherent(s: Voices, j: nat)
    requires Shape(s) && j < |s.ebuffs|
    requires forall k: nat :: k < |s.ebuffs| && k != j ==> ChannelOkAt(s, k)
    requires s.dynMul[j] > 0.0 && s.dynBufCnt == Busy(s.dynMul) && TotVol(s.dynMul) < 1.0 && |s.queue| <= s.capacity
    ensures Coherent(RemoveEvent(s, j))
    ensures Headroom(RemoveEvent(s, j).dynMul) == Headroom(s.dynMul) + s.dynMul[j]
  {
    var t := RemoveEvent(s, j);
    BusyUpdate(s.dynMul, j, 0.0);
    TotVolUpdate(s.dynMul, j, 0.0);
    forall k: nat | k < |t.ebuffs| ensures ChannelOkAt(t, k) {
      if k != j {
        assert ChannelOkAt(s, k);
      }
    }
  }

  lemma QueueShrinksCoherent(s: Voices)
    requires Coherent(s) && s.queue != []
    ensures Coherent(s.(queue := Dequeued(s.queue)))
  {
    var t := s.(queue := Dequeued(s.queue));
    forall k: nat | k < |t.ebuffs| ensures ChannelOkAt(t, k) {
      assert ChannelOkAt(s, k);
    }
  }

  lemma AddOldEventCoherent(table: SoundTable, s: Voices, j: nat, now: real, later: real, draw: Draw)
    requires Coherent(s) && j < |s.ebuffs| && s.ebuffs[j].snd.None? && s.queue != [] && later > 0.0
    ensures Coherent(AddOldEvent(table, s, j, now, later, draw))
  {
    var oldEvent := s.queue[0];
    var t := s.(queue := Dequeued(s.queue));
    QueueShrinksCoherent(s);
    if now - oldEvent.mixTime < QUEUE_EXPIRED {
      var snds := table(oldEvent.event.sound);
      StartCoherent(t, j, snds[PickIndex(|snds|, draw)], oldEvent.event.loc as real / 255.0, oldEvent.event.flags,
                    oldEvent, Sched(later, oldEvent.event.prior, later));
    } else {
      var u := AddOldEvent(table, s, j, now, later, draw);
      forall k: nat | k < |u.ebuffs| ensures ChannelOkAt(u, k) {
        assert ChannelOkAt(t, k);
      }
    }
  }

  lemma MovedCoherent(s: Voices, j: nat)
    requires Coherent(s) && j < |s.ebuffs| && s.ebuffs[j].snd.Some?
    ensures var t := Moved(s, j);
            if t.ebuffs[j].pos == t.ebuffs[j].len then Coherent(RemoveEvent(t, j)) else Coherent(t)
  {
    var t := Moved(s, j);
    assert ChannelOkAt(s, j);
    forall k: nat | k < |t.ebuffs| && (k != j || t.ebuffs[j].pos != t.ebuffs[j].len) ensures ChannelOkAt(t, k) {
      assert ChannelOkAt(s, k);
    }
    if t.ebuffs[j].pos == t.ebuffs[j].len {
      StopCoherent(t, j);
    }
  }

  lemma AdvanceCoherent(table: SoundTable, s: Voices, j: nat, now: real, later: real, draw: Draw)
    requires Coherent(s) && j < |s.ebuffs| && later > 0.0
    ensures Coherent(Advance(table, s, j, now, later, draw))
  {
    if s.ebuffs[j].snd.Some? {
      MovedCoherent(s, j);
      var t := Moved(s, j);
      if t.ebuffs[j].pos == t.ebuffs[j].len && t.queue != [] {
        AddOldEventCoherent(table, RemoveEvent(t, j), j, now, later, draw);
      }
    }
  }

  lemma AllocatedCoherent(table: SoundTable, s: Voices, c: nat, ev: Event, now: real, draw: Draw)
    requires Coherent(s) && c < |s.ebuffs| && s.ebuffs[c].snd.None? && now > 0.0
    ensures Coherent(Allocated(table, s, c, ev, now, draw))
  {
    var t := s.(lastc := (c + 1) % |s.ebuffs|);
    forall k: nat | k < |t.ebuffs| ensures ChannelOkAt(t, k) {
      assert ChannelOkAt(s, k);
    }
    var snds := table(ev.sound);
    StartCoherent(t, c, snds[PickIndex(|snds|, draw)], ev.loc as real / 255.0, ev.flags, EngineEvent(ev, now),
                  Sched(now, ev.prior, s.sched[c].minendt));
  }

  lemma QueuedCoherent(s: Voices, who: Arrival)
    requires Coherent(s)
    ensures Coherent(Queued(s, who))
  {
    var t := Queued(s, who);
    forall k: nat | k < |t.ebuffs| ensures ChannelOkAt(t, k) {
      assert ChannelOkAt(s, k);
    }
  }

  lemma ArriveCoherent(table: SoundTable, s: Voices, ev: Event, now: real, draw: Draw)
    requires Coherent(s) && now > 0.0
    ensures Coherent(Arrive(table, s, ev, now, draw))
  {
    if ev.kind == EVENT_T {
      var c := IdleFrom(s.sched, s.lastc, 0);
      RoundRobin(s.sched, s.lastc);
      if c == -1 {
        QueuedCoherent(s, EngineEvent(ev, now));
      } else {
        assert ChannelOkAt(s, c);
        AllocatedCoherent(table, s, c, ev, now, draw);
      }
    }
  }

  // ---------- Runs ----------

  // One atomic step: an event reaches the engine, or the mixer passes over a channel. The numbers
  // are what the clock and rand() give the code; a clock reading is positive.
  datatype Action =
    | ArriveAct(ev: Event, now: real, draw: Draw)
    | AdvanceAct(j: nat, now: real, later: real, draw: Draw)

  predicate ActionOk(channels: nat, a: Action) {
    match a
    case ArriveAct(_, now, _) => now > 0.0
    case AdvanceAct(j, now, later, _) => j < channels && now > 0.0 && later > 0.0
  }

  function Step(table: SoundTable, s: Voices, a: Action): (r: Voices)
    requires Shape(s) && ActionOk(|s.ebuffs|, a)
    ensures Shape(r) && |r.ebuffs| == |s.ebuffs|
  {
    match a
    case ArriveAct(ev, now, draw) => Arrive(table, s, ev, now, draw)
    case AdvanceAct(j, now, later, draw) => Advance(table, s, j, now, later, draw)
  }

  ghost predicate RunOk(channels: nat, acts: seq<Action>) {
    forall i :: 0 <= i < |acts| ==> ActionOk(channels, acts[i])
  }

  function Run(table: SoundTable, s: Voices, acts: seq<Action>): (r: Voices)
    requires Shape(s) && RunOk(|s.ebuffs|, acts)
    ensures Shape(r) && |r.ebuffs| == |s.ebuffs|
    decreases |acts|
  {
    if acts == [] then s else Run(table, Step(table, s, acts[0]), acts[1..])
  }

  lemma StepCoherent(table: SoundTable, s: Voices, a: Action)
    requires Coherent(s) && ActionOk(|s.ebuffs|, a)
    ensures Coherent(Step(table, s, a))
  {
    match a
    case ArriveAct(ev, now, draw) => ArriveCoherent(table, s, ev, now, draw);
    case AdvanceAct(j, now, later, draw) => AdvanceCoherent(table, s, j, now, later, draw);
  }

  // Every interleaving of arrivals and mixer passes keeps the tables coherent and the multipliers
  // summing to less than 1.
  lemma {:induction false} EveryRunIsCoherent(table: SoundTable, s: Voices, acts: seq<Action>)
    requires Coherent(s) && RunOk(|s.ebuffs|, acts)
    ensures Coherent(Run(table, s, acts))
    decreases |acts|
  {
    if acts != [] {
      StepCoherent(table, s, acts[0]);
      EveryRunIsCoherent(table, Step(table, s, acts[0]), acts[1..]);
    }
  }

  // ---------- Conservation of events ----------

  // How many channels play the arrival `e`.
  function PlayingCount(playing: seq<Option<Arrival>>, e: Arrival): nat {
    if playing == [] then 0
    else PlayingCount(playing[..|playing| - 1], e) + (if playing[|playing| - 1] == Some(e) then 1 else 0)
  }

  lemma {:induction false} PlayingCountUpdate(playing: seq<Option<Arrival>>, j: nat, o: Option<Arrival>, e: Arrival)
    requires j < |playing|
    ensures PlayingCount(playing[j := o], e) + (if playing[j] == Some(e) then 1 else 0)
            == PlayingCount(playing, e) + (if o == Some(e) then 1 else 0)
  {
    var n := |playing| - 1;
    if j == n {
      assert playing[j := o][..n] == playing[..n];
    } else {
      assert playing[j := o][..n] == playing[..n][j := o];
      PlayingCountUpdate(playing[..n], j, o, e);
    }
  }

  // How often the state accounts for the arrival `e`: on a channel, in the heap, played to its end,
  // expired in the heap, or discarded because the heap was full.
  function CountOf(s: Voices, e: Arrival): nat {
    PlayingCount(s.account.playing, e) + multiset(s.queue)[e]
    + s.account.finished[e] + s.account.expired[e] + s.account.discarded[e]
  }

  function ArrivalsOf(a: Action, e: Arrival): nat {
    if a.ArriveAct? && a.ev.kind == EVENT_T && e == EngineEvent(a.ev, a.now) then 1 else 0
  }

  // How often `e` reaches the engine in a run.
  function Arrivals(acts: seq<Action>, e: Arrival): nat
    decreases |acts|
  {
    if acts == [] then 0 else ArrivalsOf(acts[0], e) + Arrivals(acts[1..], e)
  }

  lemma AddEventCounts(s: Voices, j: nat, snd: Sound, loc: real, flags: int, who: Arrival, e: Arrival)
    requires Shape(s) && j < |s.ebuffs| && s.ebuffs[j].snd.None? && s.account.playing[j].None?
    ensures CountOf(AddEvent(s, j, snd, loc, flags, who), e) == CountOf(s, e) + (if e == who then 1 else 0)
  {
    PlayingCountUpdate(s.account.playing, j, Some(who), e);
  }

  lemma RemoveEventCounts(s: Voices, j: nat, e: Arrival)
    requires Shape(s) && j < |s.ebuffs|
    ensures CountOf(RemoveEvent(s, j), e) == CountOf(s, e)
  {
    PlayingCountUpdate(s.account.playing, j, None, e);
  }

  lemma DequeueCounts(q: Heap, e: Arrival)
    requires q != []
    ensures multiset(Dequeued(q))[e] + (if e == q[0] then 1 else 0) == multiset(q)[e]
  {
    DequeueTakesOne(q);
    assert (multiset(Dequeued(q)) + multiset{q[0]})[e] == multiset(q)[e];
  }

  lemma QueueShrinksCounts(s: Voices, e: Arrival)
    requires s.queue != []
    ensures CountOf(s.(queue := Dequeued(s.queue)), e) + (if e == s.queue[0] then 1 else 0) == CountOf(s, e)
  {
    hide Dequeued;
    DequeueCounts(s.queue, e);
  }

  lemma SetSchedCounts(s: Voices, j: nat, x: Sched, e: Arrival)
    requires Shape(s) && j < |s.ebuffs|
    ensures CountOf(SetSched(s, j, x), e) == CountOf(s, e)
  {
  }

  lemma AddOldEventCounts(table: SoundTable, s: Voices, j: nat, now: real, later: real, draw: Draw, e: Arrival)
    requires Shape(s) && j < |s.ebuffs| && s.ebuffs[j].snd.None? && s.account.playing[j].None? && s.queue != []
    ensures CountOf(AddOldEvent(table, s, j, now, later, draw), e) == CountOf(s, e)
  {
    hide AddEvent, Dequeued, CountOf, SetSched;
    var oldEvent := s.queue[0];
    var t := s.(queue := Dequeued(s.queue));
    QueueShrinksCounts(s, e);
    if now - oldEvent.mixTime < QUEUE_EXPIRED {
      var snds := table(oldEvent.event.sound);
      var snd := snds[PickIndex(|snds|, draw)];
      var u := AddEvent(t, j, snd, oldEvent.event.loc as real / 255.0, oldEvent.event.flags, oldEvent);
      AddEventCounts(t, j, snd, oldEvent.event.loc as real / 255.0, oldEvent.event.flags, oldEvent, e);
      SetSchedCounts(u, j, Sched(later, oldEvent.event.prior, later), e);
    } else {
      ExpiredCounts(t, oldEvent, e);
    }
  }

  lemma ExpiredCounts(s: Voices, who: Arrival, e: Arrival)
    ensures CountOf(s.(account := s.account.(expired := s.account.expired + multiset{who})), e)
            == CountOf(s, e) + (if e == who then 1 else 0)
  {
  }

  lemma AdvanceCounts(table: SoundTable, s: Voices, j: nat, now: real, later: real, draw: Draw, e: Arrival)
    requires Shape(s) && j < |s.ebuffs|
    ensures CountOf(Advance(table, s, j, now, later, draw), e) == CountOf(s, e)
  {
    if s.ebuffs[j].snd.Some? {
      var t := Moved(s, j);
      assert CountOf(t, e) == CountOf(s, e);
      if t.ebuffs[j].pos == t.ebuffs[j].len {
        RemoveEventCounts(t, j, e);
        if t.queue != [] {
          AddOldEventCounts(table, RemoveEvent(t, j), j, now, later, draw, e);
        }
      }
    }
  }

  lemma QueuedCounts(s: Voices, who: Arrival, e: Arrival)
    requires Shape(s)
    ensures CountOf(Queued(s, who), e) == CountOf(s, e) + (if e == who then 1 else 0)
  {
    EnqueueAddsOne(s.queue, who);
    assert multiset(Enqueued(s.queue, who))[e] == (multiset(s.queue) + multiset{who})[e];
  }

  lemma AllocatedCounts(table: SoundTable, s: Voices, c: nat, ev: Event, now: real, draw: Draw, e: Arrival)
    requires Shape(s) && c < |s.ebuffs| && s.ebuffs[c].snd.None? && s.account.playing[c].None?
    ensures CountOf(Allocated(table, s, c, ev, now, draw), e)
            == CountOf(s, e) + (if e == EngineEvent(ev, now) then 1 else 0)
  {
    var t := s.(lastc := (c + 1) % |s.ebuffs|);
    var snds := table(ev.sound);
    assert CountOf(t, e) == CountOf(s, e);
    AddEventCounts(t, c, snds[PickIndex(|snds|, draw)], ev.loc as real / 255.0, ev.flags, EngineEvent(ev, now), e);
  }

  lemma ArriveCounts(table: SoundTable, s: Voices, ev: Event, now: real, draw: Draw, e: Arrival)
    requires Coherent(s)
    ensures CountOf(Arrive(table, s, ev, now, draw), e)
            == CountOf(s, e) + (if ev.kind == EVENT_T && e == EngineEvent(ev, now) then 1 else 0)
  {
    if ev.kind == EVENT_T {
      var c := IdleFrom(s.sched, s.lastc, 0);
      RoundRobin(s.sched, s.lastc);
      if c == -1 {
        QueuedCounts(s, EngineEvent(ev, now), e);
      } else {
        assert ChannelOkAt(s, c);
        AllocatedCounts(table, s, c, ev, now, draw, e);
      }
    }
  }

  lemma StepCounts(table: SoundTable, s: Voices, a: Action, e: Arrival)
    requires Coherent(s) && ActionOk(|s.ebuffs|, a)
    ensures CountOf(Step(table, s, a), e) == CountOf(s, e) + ArrivalsOf(a, e)
  {
    match a
    case ArriveAct(ev, now, draw) => ArriveCounts(table, s, ev, now, draw, e);
    case AdvanceAct(j, now, later, draw) => AdvanceCounts(table, s, j, now, later, draw, e);
  }

  // Over every run, each event that reached the engine is accounted for as often as it arrived: no
  // event is lost, played twice, or in two places at once.
  lemma {:induction false} EveryEventIsAccountedFor(table: SoundTable, s: Voices, acts: seq<Action>, e: Arrival)
    requires Coherent(s) && RunOk(|s.ebuffs|, acts)
    ensures CountOf(Run(table, s, acts), e) == CountOf(s, e) + Arrivals(acts, e)
    decreases |acts|
  {
    if acts != [] {
      StepCoherent(table, s, acts[0]);
      StepCounts(table, s, acts[0], e);
      EveryEventIsAccountedFor(table, Step(table, s, acts[0]), acts[1..], e);
    }
  }

  // ---------- No channel idles while events wait ----------

  // While events wait, at most as many channels idle as entries have expired.
  ghost predicate WorkConserving(s: Voices) {
    s.queue != [] ==> |s.ebuffs| - s.dynBufCnt <= |s.account.expired|
  }

  lemma {:induction false} AllPlaying(mul: seq<real>)
    requires forall i :: 0 <= i < |mul| ==> mul[i] != 0.0
    ensures Busy(mul) == |mul|
  {
    if mul != [] {
      AllPlaying(mul[..|mul| - 1]);
    }
  }

  lemma StepWorkConserving(table: SoundTable, s: Voices, a: Action)
    requires Coherent(s) && WorkConserving(s) && ActionOk(|s.ebuffs|, a)
    ensures WorkConserving(Step(table, s, a))
  {
    match a
    case ArriveAct(ev, now, draw) =>
      RoundRobin(s.sched, s.lastc);
      if ev.kind == EVENT_T && IdleFrom(s.sched, s.lastc, 0) == -1 {
        forall i | 0 <= i < |s.dynMul| ensures s.dynMul[i] != 0.0 {
          assert ChannelOkAt(s, i);
        }
        AllPlaying(s.dynMul);
      }
    case AdvanceAct(j, now, later, draw) =>
      assert ChannelOkAt(s, j);
  }

  lemma {:induction false} EveryRunIsWorkConserving(table: SoundTable, s: Voices, acts: seq<Action>)
    requires Coherent(s) && WorkConserving(s) && RunOk(|s.ebuffs|, acts)
    ensures WorkConserving(Run(table, s, acts))
    decreases |acts|
  {
    if acts != [] {
      StepCoherent(table, s, acts[0]);
      StepWorkConserving(table, s, acts[0]);
      EveryRunIsWorkConserving(table, Step(table, s, acts[0]), acts[1..]);
    }
  }

  // So while nothing has expired, a non-empty heap means that every channel plays.
  lemma WaitingMeansAllBusy(table: SoundTable, channels: nat, capacity: nat, acts: seq<Action>)
    requires channels >= 2 && RunOk(channels, acts)
    ensures var r := Run(table, Initial(channels, capacity), acts);
            r.queue != [] && r.account.expired == multiset{} ==>
              forall j :: 0 <= j < channels ==> r.ebuffs[j].snd.Some?
  {
    InitialCoherent(channels, capacity);
    var s := Initial(channels, capacity);
    EveryRunIsWorkConserving(table, s, acts);
    EveryRunIsCoherent(table, s, acts);
    var r := Run(table, s, acts);
    if r.queue != [] && r.account.expired == multiset{} {
      forall j | 0 <= j < channels ensures r.ebuffs[j].snd.Some? {
        assert ChannelOkAt(r, j);
        BusyUpdate(r.dynMul, j, 0.0);
      }
    }
  }

  // ---------- Nothing expires for weeks ----------

  ghost predicate Timely(s: Voices, from: real) {
    forall i :: 0 <= i < |s.queue| ==> s.queue[i].mixTime >= from
  }

  predicate ActionWithin(a: Action, from: real) {
    from <= a.now < from + QUEUE_EXPIRED
  }

  lemma TimelyAfterDequeue(q: Heap, from: real)
    requires q != [] && forall i :: 0 <= i < |q| ==> q[i].mixTime >= from
    ensures forall i :: 0 <= i < |q| - 1 ==> Dequeued(q)[i].mixTime >= from
  {
    DequeueTakesOne(q);
    forall i | 0 <= i < |q| - 1 ensures Dequeued(q)[i].mixTime >= from {
      assert Dequeued(q)[i] in multiset(Dequeued(q));
      assert Dequeued(q)[i] in multiset(q);
    }
  }

  lemma TimelyAfterEnqueue(q: Heap, e: EngineEvent, from: real)
    requires e.mixTime >= from && forall i :: 0 <= i < |q| ==> q[i].mixTime >= from
    ensures forall i :: 0 <= i < |q| + 1 ==> Enqueued(q, e)[i].mixTime >= from
  {
    EnqueueAddsOne(q, e);
    forall i | 0 <= i < |q| + 1 ensures Enqueued(q, e)[i].mixTime >= from {
      assert Enqueued(q, e)[i] in multiset(Enqueued(q, e));
      assert Enqueued(q, e)[i] in multiset(q) || Enqueued(q, e)[i] == e;
    }
  }

  lemma StepTimely(table: SoundTable, s: Voices, a: Action, from: real)
    requires Coherent(s) && Timely(s, from) && ActionOk(|s.ebuffs|, a) && ActionWithin(a, from)
    ensures Timely(Step(table, s, a), from)
    ensures Step(table, s, a).account.expired == s.account.expired
  {
    match a
    case ArriveAct(ev, now, draw) =>
      TimelyAfterEnqueue(s.queue, EngineEvent(ev, now), from);
    case AdvanceAct(j, now, later, draw) =>
      if s.queue != [] {
        TimelyAfterDequeue(s.queue, from);
      }
  }

  // In a run that lasts less than QUEUE_EXPIRED, five million seconds, no entry expires.
  lemma {:induction false} NothingExpires(table: SoundTable, s: Voices, acts: seq<Action>, from: real)
    requires Coherent(s) && Timely(s, from) && RunOk(|s.ebuffs|, acts)
    requires forall i :: 0 <= i < |acts| ==> ActionWithin(acts[i], from)
    ensures Run(table, s, acts).account.expired == s.account.expired
    decreases |acts|
  {
    if acts != [] {
      StepCoherent(table, s, acts[0]);
      StepTimely(table, s, acts[0], from);
      NothingExpires(table, Step(table, s, acts[0]), acts[1..], from);
    }
  }

  // A pass ends a sound and finds the front of the heap too old.
  predicate Expires(s: Voices, a: Action)
    requires Shape(s) && ActionOk(|s.ebuffs|, a)
  {
    && a.AdvanceAct? && s.ebuffs[a.j].snd.Some? && s.ebuffs[a.j].pos + STEREO == s.ebuffs[a.j].len
    && s.queue != [] && a.now - s.queue[0].mixTime >= QUEUE_EXPIRED
  }

  lemma StepExpires(table: SoundTable, s: Voices, a: Action)
    requires Shape(s) && ActionOk(|s.ebuffs|, a)
    ensures Step(table, s, a).account.expired
            == s.account.expired + (if Expires(s, a) then multiset{s.queue[0]} else multiset{})
  {
    hide Dequeued, DynVol, PickIndex, Enqueued;
  }

  // In how many steps of a run that happens.
  function Expiries(table: SoundTable, s: Voices, acts: seq<Action>): nat
    requires Shape(s) && RunOk(|s.ebuffs|, acts)
    decreases |acts|
  {
    if acts == [] then 0
    else (if Expires(s, acts[0]) then 1 else 0) + Expiries(table, Step(table, s, acts[0]), acts[1..])
  }

  // In any run an entry expires exactly if some pass that ends a sound finds in front of the heap an
  // entry that is at least five million seconds old.
  lemma {:induction false} AnyExpiresIff(table: SoundTable, s: Voices, acts: seq<Action>)
    requires Shape(s) && RunOk(|s.ebuffs|, acts)
    ensures |Run(table, s, acts).account.expired| == |s.account.expired| + Expiries(table, s, acts)
    ensures Run(table, s, acts).account.expired != s.account.expired <==> Expiries(table, s, acts) > 0
    decreases |acts|
  {
    hide Step, Expires;
    if acts != [] {
      StepExpires(table, s, acts[0]);
      AnyExpiresIff(table, Step(table, s, acts[0]), acts[1..]);
    }
  }

  // An event that has waited for six seconds is played, not dropped.
  lemma SixSecondsAreNotTooLong(table: SoundTable, s: Voices, j: nat, now: real, draw: Draw)
    requires Coherent(s) && j < |s.ebuffs| && s.ebuffs[j].snd.None? && s.queue != []
    requires s.queue[0].mixTime == now - 6.0
    ensures var r := AddOldEvent(table, s, j, now, now, draw);
            r.account.playing[j] == Some(s.queue[0]) && r.account.expired == s.account.expired
  {
  }

  // ---------- No playing sound is cut short ----------

  ghost predicate SameChannel(s: Voices, r: Voices, j: nat)
    requires Shape(s) && Shape(r) && |r.ebuffs| == |s.ebuffs| && j < |s.ebuffs|
  {
    && r.ebuffs[j] == s.ebuffs[j] && r.dynMul[j] == s.dynMul[j] && r.sched[j] == s.sched[j]
    && r.account.playing[j] == s.account.playing[j]
  }

  // An arrival changes no channel that plays.
  lemma ArrivalLeavesPlayingChannels(table: SoundTable, s: Voices, ev: Event, now: real, draw: Draw, j: nat)
    requires Coherent(s) && j < |s.ebuffs| && s.ebuffs[j].snd.Some?
    ensures SameChannel(s, Arrive(table, s, ev, now, draw), j)
  {
    assert ChannelOkAt(s, j);
    RoundRobin(s.sched, s.lastc);
  }

  lemma AddOldEventLeavesOtherChannels(table: SoundTable, s: Voices, j: nat, now: real, later: real, draw: Draw, k: nat)
    requires Shape(s) && j < |s.ebuffs| && k < |s.ebuffs| && j != k && s.queue != []
    ensures SameChannel(s, AddOldEvent(table, s, j, now, later, draw), k)
  {
  }

  // A pass over one channel changes no other.
  lemma AdvanceLeavesOtherChannels(table: SoundTable, s: Voices, j: nat, now: real, later: real, draw: Draw, k: nat)
    requires Shape(s) && j < |s.ebuffs| && k < |s.ebuffs| && j != k
    ensures SameChannel(s, Advance(table, s, j, now, later, draw), k)
  {
    if s.ebuffs[j].snd.Some? {
      var u := RemoveEvent(Moved(s, j), j);
      assert SameChannel(s, u, k);
      if u.queue != [] {
        AddOldEventLeavesOtherChannels(table, u, j, now, later, draw, k);
      }
    }
  }

  // How often the mixer passes over channel j.
  function Passes(acts: seq<Action>, j: nat): nat
    decreases |acts|
  {
    if acts == [] then 0
    else (if acts[0].AdvanceAct? && acts[0].j == j then 1 else 0) + Passes(acts[1..], j)
  }

  // Whatever else happens, a sound keeps its channel, its data and its volume until its last frame:
  // after k passes it has advanced exactly k frames.
  lemma {:induction false} PlaysToTheEnd(table: SoundTable, s: Voices, acts: seq<Action>, j: nat)
    requires Coherent(s) && RunOk(|s.ebuffs|, acts) && j < |s.ebuffs| && s.ebuffs[j].snd.Some?
    requires s.ebuffs[j].pos + STEREO * Passes(acts, j) < s.ebuffs[j].len
    ensures var r := Run(table, s, acts);
            && r.ebuffs[j] == s.ebuffs[j].(pos := s.ebuffs[j].pos + STEREO * Passes(acts, j))
            && r.dynMul[j] == s.dynMul[j] && r.sched[j] == s.sched[j]
            && r.account.playing[j] == s.account.playing[j]
    decreases |acts|
  {
    if acts != [] {
      StepCoherent(table, s, acts[0]);
      match acts[0] {
        case ArriveAct(ev, now, draw) =>
          ArrivalLeavesPlayingChannels(table, s, ev, now, draw, j);
        case AdvanceAct(k, now, later, draw) =>
          if k != j {
            AdvanceLeavesOtherChannels(table, s, k, now, later, draw, j);
          }
      }
      PlaysToTheEnd(table, Step(table, s, acts[0]), acts[1..], j);
    }
  }

  // The pass after the last frame ends it: the event is finished, and its channel is empty or holds
  // the entry that was at the front of the heap.
  lemma EndsAfterLastFrame(table: SoundTable, s: Voices, j: nat, now: real, later: real, draw: Draw)
    requires Coherent(s) && j < |s.ebuffs| && later > 0.0
    requires s.ebuffs[j].snd.Some? && s.ebuffs[j].pos + STEREO == s.ebuffs[j].len
    ensures var r := Advance(table, s, j, now, later, draw);
            && r.account.finished == s.account.finished + One(s.account.playing[j]) && s.account.playing[j].Some?
            && (r.ebuffs[j].snd.None? <==> s.queue == [] || now - s.queue[0].mixTime >= QUEUE_EXPIRED)
            && (r.ebuffs[j].snd.Some? ==> r.account.playing[j] == Some(s.queue[0]) && r.ebuffs[j].pos == 0)
  {
    assert ChannelOkAt(s, j);
  }
}
