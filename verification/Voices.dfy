/**
 * The event channels: the engine's allocation of a channel to an arriving event
 * (server/engine.c:396-635) and the mixer's bookkeeping when a sound starts, advances and ends
 * (server/mixer.c:119-250, 447-504), as functions on values.
 *
 * Arrival of an event and one pass of the mixer's per-channel loop body are the atomic steps. The
 * account at the end of the state is not in the code: it records what became of each event.
 */
module Voices {
  import opened Events
  import opened Options
  import opened Sounds
  import opened DynamicVolume
  import opened MixerQueue

  // EVENT_BUF; `snd` is None for a null buffer.
  datatype EventBuf = EventBuf(snd: Option<Sound>, len: nat, pos: nat, stereo: real, flags: int)

  // struct engine_sched
  datatype Sched = Sched(startt: real, priorit: int, minendt: real)

  // An event with the time at which it reached the engine stands for that arrival.
  type Arrival = EngineEvent

  datatype Account = Account(playing: seq<Option<Arrival>>,
                             finished: multiset<Arrival>,
                             expired: multiset<Arrival>,
                             discarded: multiset<Arrival>)

  datatype Voices = Voices(ebuffs: seq<EventBuf>, dynMul: seq<real>, dynBufCnt: int,
                           sched: seq<Sched>, lastc: nat,
                           queue: Heap, capacity: nat,
                           account: Account)

  // QUEUE_EXPIRED is 5 * CLOCKS_PER_SEC, and CLOCKS_PER_SEC is a million, but it is compared with a
  // difference of seconds (server/engine.h:214, server/mixer.c:222).
  const QUEUE_EXPIRED: real := 5_000_000.0

  ghost predicate Shape(s: Voices) {
    && |s.ebuffs| >= 2
    && |s.dynMul| == |s.sched| == |s.account.playing| == |s.ebuffs|
    && s.lastc < |s.ebuffs|
  }

  // ---------- The steps ----------

  // mixerAddEvent: refused if the channel has a buffer. The position is not set here.
  function AddEvent(s: Voices, j: nat, snd: Sound, loc: real, flags: int, who: Arrival): (r: Voices)
    requires Shape(s) && j < |s.ebuffs|
    ensures Shape(r) && |r.ebuffs| == |s.ebuffs|
    ensures s.ebuffs[j].snd.Some? ==> r == s
  {
    if s.ebuffs[j].snd.Some? then s
    else
      s.(ebuffs := s.ebuffs[j := s.ebuffs[j].(snd := Some(snd), len := |snd|, stereo := loc, flags := flags)],
         dynBufCnt := s.dynBufCnt + 1,
         dynMul := s.dynMul[j := DynVol(s.dynMul, s.dynBufCnt + 1)],
         account := s.account.(playing := s.account.playing[j := Some(who)]))
  }

  // engineSchedulerInit
  function SetSched(s: Voices, j: nat, e: Sched): (r: Voices)
    requires Shape(s) && j < |s.ebuffs|
    ensures Shape(r) && |r.ebuffs| == |s.ebuffs|
  {
    s.(sched := s.sched[j := e])
  }

  function One<T(==)>(o: Option<T>): multiset<T> {
    match o case None => multiset{} case Some(v) => multiset{v}
  }

  // mixerRemoveEvent
  function RemoveEvent(s: Voices, j: nat): (r: Voices)
    requires Shape(s) && j < |s.ebuffs|
    ensures Shape(r) && |r.ebuffs| == |s.ebuffs|
  {
    SetSched(
      s.(ebuffs := s.ebuffs[j := s.ebuffs[j].(snd := None, len := 0, pos := 0, stereo := 0.0)],
         dynBufCnt := s.dynBufCnt - 1,
         dynMul := s.dynMul[j := 0.0],
         account := s.account.(playing := s.account.playing[j := None],
                               finished := s.account.finished + One(s.account.playing[j]))),
      j, Sched(0.0, 0, 0.0))
  }

  // mixerAddOldEvent: one entry leaves the heap; it plays on channel j unless it waited too long.
  function AddOldEvent(table: SoundTable, s: Voices, j: nat, now: real, later: real, draw: Draw): (r: Voices)
    requires Shape(s) && j < |s.ebuffs| && s.queue != []
    ensures Shape(r) && |r.ebuffs| == |s.ebuffs|
  {
    var oldEvent := s.queue[0];
    var t := s.(queue := Dequeued(s.queue));
    if now - oldEvent.mixTime < QUEUE_EXPIRED then
      var snds := table(oldEvent.event.sound);
      SetSched(AddEvent(t, j, snds[PickIndex(|snds|, draw)], oldEvent.event.loc as real / 255.0,
                        oldEvent.event.flags, oldEvent),
               j, Sched(later, oldEvent.event.prior, later))
    else
      t.(account := t.account.(expired := t.account.expired + multiset{oldEvent}))
  }

  // The channel one stereo frame further.
  function Moved(s: Voices, j: nat): (r: Voices)
    requires Shape(s) && j < |s.ebuffs|
    ensures Shape(r) && |r.ebuffs| == |s.ebuffs|
  {
    s.(ebuffs := s.ebuffs[j := s.ebuffs[j].(pos := s.ebuffs[j].pos + STEREO)])
  }

  // The per-channel body of the mixer, without the samples it outputs.
  function Advance(table: SoundTable, s: Voices, j: nat, now: real, later: real, draw: Draw): (r: Voices)
    requires Shape(s) && j < |s.ebuffs|
    ensures Shape(r) && |r.ebuffs| == |s.ebuffs|
  {
    if s.ebuffs[j].snd.None? then s
    else
      var t := Moved(s, j);
      if t.ebuffs[j].pos != t.ebuffs[j].len then t
      else
        var u := RemoveEvent(t, j);
        if u.queue == [] then u else AddOldEvent(table, u, j, now, later, draw)
  }

  // The channel the engine's round robin settles on, looking from step `ind` on; -1 for none.
  function IdleFrom(sched: seq<Sched>, lastc: nat, ind: nat): (c: int)
    requires ind <= |sched|
    decreases |sched| - ind
  {
    if ind == |sched| then -1
    else if sched[(lastc + ind) % |sched|].startt == 0.0 then (lastc + ind) % |sched|
    else IdleFrom(sched, lastc, ind + 1)
  }

  // The event starts on the channel that was found for it.
  function Allocated(table: SoundTable, s: Voices, c: nat, ev: Event, now: real, draw: Draw): (r: Voices)
    requires Shape(s) && c < |s.ebuffs|
    ensures Shape(r) && |r.ebuffs| == |s.ebuffs|
  {
    var t := s.(lastc := (c + 1) % |s.ebuffs|);
    var snds := table(ev.sound);
    SetSched(AddEvent(t, c, snds[PickIndex(|snds|, draw)], ev.loc as real / 255.0, ev.flags, EngineEvent(ev, now)),
             c, Sched(now, ev.prior, s.sched[c].minendt))
  }

  // No channel is idle: the event waits in the heap, or is dropped if the heap is full.
  function Queued(s: Voices, who: Arrival): (r: Voices)
    requires Shape(s)
    ensures Shape(r) && |r.ebuffs| == |s.ebuffs|
  {
    if |s.queue| == s.capacity
    then s.(account := s.account.(discarded := s.account.discarded + multiset{who}))
    else s.(queue := Enqueued(s.queue, who))
  }

  // engineIO for an event sound. The tests for bestc == 0 (server/engine.c:461, 474) come before any
  // channel is chosen, when bestc is -1, so the choice is the first idle channel or none.
  function Arrive(table: SoundTable, s: Voices, ev: Event, now: real, draw: Draw): (r: Voices)
    requires Shape(s)
    ensures Shape(r) && |r.ebuffs| == |s.ebuffs|
  {
    if ev.kind != EVENT_T then s
    else
      var bestc := IdleFrom(s.sched, s.lastc, 0);
      if bestc == -1 then Queued(s, EngineEvent(ev, now))
      else
        IdleFromInRange(s.sched, s.lastc, 0);
        Allocated(table, s, bestc, ev, now, draw)
  }

  // ---------- Round robin ----------

  lemma {:induction false} IdleFromInRange(sched: seq<Sched>, lastc: nat, ind: nat)
    requires ind <= |sched|
    ensures -1 <= IdleFrom(sched, lastc, ind) < |sched|
    decreases |sched| - ind
  {
    if ind < |sched| && sched[(lastc + ind) % |sched|].startt != 0.0 {
      IdleFromInRange(sched, lastc, ind + 1);
    }
  }

  // The k-th channel looked at, counting from the one after the last allocation.
  function Visited(sched: seq<Sched>, lastc: nat, k: nat): (c: nat)
    requires sched != []
    ensures c < |sched|
  {
    (lastc + k) % |sched|
  }

  lemma {:induction false} IdleFromIsFirst(sched: seq<Sched>, lastc: nat, ind: nat)
    requires sched != [] && ind <= |sched|
    ensures var c := IdleFrom(sched, lastc, ind);
            && (c == -1 <==> forall k :: ind <= k < |sched| ==> sched[Visited(sched, lastc, k)].startt != 0.0)
            && (c != -1 ==> (exists k :: ind <= k < |sched| && c == Visited(sched, lastc, k) && sched[c].startt == 0.0
                              && forall i :: ind <= i < k ==> sched[Visited(sched, lastc, i)].startt != 0.0))
    decreases |sched| - ind
  {
    if ind < |sched| {
      if sched[Visited(sched, lastc, ind)].startt != 0.0 {
        IdleFromIsFirst(sched, lastc, ind + 1);
      }
    }
  }

  lemma EveryChannelIsVisited(sched: seq<Sched>, lastc: nat, c: nat)
    requires lastc < |sched| && c < |sched|
    ensures exists k :: 0 <= k < |sched| && Visited(sched, lastc, k) == c
  {
    var k := if c >= lastc then c - lastc else c - lastc + |sched|;
    assert Visited(sched, lastc, k) == c;
  }

  // The engine picks the first idle channel in cyclic order from lastc, and reports that there is
  // none exactly when every channel is playing.
  lemma RoundRobin(sched: seq<Sched>, lastc: nat)
    requires lastc < |sched|
    ensures var c := IdleFrom(sched, lastc, 0);
            && (c == -1 <==> forall j :: 0 <= j < |sched| ==> sched[j].startt != 0.0)
            && (c != -1 ==> (exists k :: 0 <= k < |sched| && c == Visited(sched, lastc, k) && sched[c].startt == 0.0
                              && forall i :: 0 <= i < k ==> sched[Visited(sched, lastc, i)].startt != 0.0))
  {
    IdleFromIsFirst(sched, lastc, 0);
    if IdleFrom(sched, lastc, 0) == -1 {
      forall j | 0 <= j < |sched| ensures sched[j].startt != 0.0 {
        EveryChannelIsVisited(sched, lastc, j);
      }
    }
  }
}
