/**
 * The recording of events in a wrapping file (server/playback.c:154-240, 469-511), as functions on
 * values. A file position is counted in records after the header; a file of n records ends at n.
 */
module Recording {
  import opened Events
  import opened Options

  type Record = EngineEvent

  const MAX_PLAYBACK_EVENTS: nat := 3200

  // The stream, with the counter and the flag of the recorder.
  datatype Recorder = Recorder(file: seq<Record>, pos: nat, eventCnt: nat, loopback: bool)

  const NEW_RECORDING: Recorder := Recorder([], 0, 0, false)

  // fwrite at a position in the file or at its end.
  function Written(file: seq<Record>, pos: nat, r: Record): (f: seq<Record>)
    requires pos <= |file|
    ensures |f| == if pos == |file| then |file| + 1 else |file|
  {
    if pos == |file| then file + [r] else file[pos := r]
  }

  // playbackRecordEvent: the position is reset once, when the counter equals the maximum.
  function Recorded(s: Recorder, r: Record): (t: Recorder)
    requires s.pos <= |s.file|
    ensures t.pos <= |t.file|
  {
    if s.eventCnt != MAX_PLAYBACK_EVENTS then
      s.(file := Written(s.file, s.pos, r), pos := s.pos + 1, eventCnt := s.eventCnt + 1)
    else
      s.(file := Written(s.file, 0, r), pos := 1, eventCnt := s.eventCnt + 1, loopback := true)
  }

  // A whole recording session.
  function RecordedAll(h: seq<Record>): (t: Recorder)
    ensures t.pos <= |t.file|
  {
    if h == [] then NEW_RECORDING else Recorded(RecordedAll(h[..|h| - 1]), h[|h| - 1])
  }

  // header.start_pos as playbackFileShutdown writes it.
  function StartAtShutdown(s: Recorder): nat {
    if s.loopback then s.pos else 0
  }

  // The file read from a position to its end and on from its beginning.
  function Cyclic(file: seq<Record>, p: nat): (r: seq<Record>)
    requires p <= |file|
    ensures |r| == |file|
  {
    file[p..] + file[..p]
  }

  // How many of n recorded events the file holds.
  function Retained(n: nat): nat {
    if n <= MAX_PLAYBACK_EVENTS then n
    else if n <= 2 * MAX_PLAYBACK_EVENTS then MAX_PLAYBACK_EVENTS
    else n - MAX_PLAYBACK_EVENTS
  }

  lemma CyclicAt(file: seq<Record>, p: nat, i: nat)
    requires p <= |file| && i < |file|
    ensures Cyclic(file, p)[i] == file[if p + i < |file| then p + i else p + i - |file|]
  {
  }

  // After any session the file, read cyclically from the write position, is the end of the history.
  lemma FileIsEndOfHistory(h: seq<Record>)
    ensures var s := RecordedAll(h);
            && |s.file| == Retained(|h|) && s.eventCnt == |h|
            && Cyclic(s.file, s.pos) == h[|h| - Retained(|h|)..]
            && s.loopback == (|h| > MAX_PLAYBACK_EVENTS)
            && s.pos == if |h| <= MAX_PLAYBACK_EVENTS then |h| else |h| - MAX_PLAYBACK_EVENTS
  {
    hide RecordedAll, Cyclic;
    var s := RecordedAll(h);
    FileByHistory(h);
    var k := |h| - Retained(|h|);
    forall i | 0 <= i < Retained(|h|) ensures Cyclic(s.file, s.pos)[i] == h[k..][i] {
      CyclicAt(s.file, s.pos, i);
    }
  }

  // Slot by slot: which event of the history it holds.
  lemma {:induction false} FileByHistory(h: seq<Record>)
    ensures var s := RecordedAll(h);
            && |s.file| == Retained(|h|) && s.eventCnt == |h|
            && s.loopback == (|h| > MAX_PLAYBACK_EVENTS)
            && s.pos == (if |h| <= MAX_PLAYBACK_EVENTS then |h| else |h| - MAX_PLAYBACK_EVENTS)
            && forall i :: 0 <= i < |s.file| ==> 0 <= SlotEvent(|h|, i) < |h| && s.file[i] == h[SlotEvent(|h|, i)]
  {
    if h != [] {
      var g := h[..|h| - 1];
      FileByHistory(g);
      var s, t := RecordedAll(g), RecordedAll(h);
      forall i | 0 <= i < |t.file| ensures 0 <= SlotEvent(|h|, i) < |h| && t.file[i] == h[SlotEvent(|h|, i)] {
        if i < |s.file| {
          assert s.file[i] == g[SlotEvent(|g|, i)];
        }
      }
    }
  }

  function SlotEvent(n: nat, i: nat): nat {
    if n > MAX_PLAYBACK_EVENTS && i < n - MAX_PLAYBACK_EVENTS then MAX_PLAYBACK_EVENTS + i else i
  }

  // The file stays within the maximum that the header announces exactly up to twice that number of
  // events: the position is reset only once.
  lemma WithinMaximumIff(h: seq<Record>)
    ensures |RecordedAll(h).file| <= MAX_PLAYBACK_EVENTS <==> |h| <= 2 * MAX_PLAYBACK_EVENTS
  {
    FileIsEndOfHistory(h);
  }

  // One event more than twice the maximum makes the file one record too long.
  lemma FileOutgrowsMaximum(h: seq<Record>)
    requires |h| == 2 * MAX_PLAYBACK_EVENTS + 1
    ensures |RecordedAll(h).file| == MAX_PLAYBACK_EVENTS + 1
  {
    FileIsEndOfHistory(h);
  }

  // ---------- Finding the oldest record ----------

  ghost predicate Increasing(h: seq<Record>) {
    forall i, j :: 0 <= i < j < |h| ==> h[i].mixTime < h[j].mixTime
  }

  // A file of increasing records, read from slot w on.
  ghost predicate Rotated(file: seq<Record>, w: nat) {
    w < |file| && Increasing(Cyclic(file, w))
  }

  // The first slot from k on whose record is older than `first`, or `dflt`.
  function FirstOlder(file: seq<Record>, first: Record, k: nat, dflt: nat): (r: nat)
    requires k <= |file|
    ensures r < |file| || r == dflt
    decreases |file| - k
  {
    if k == |file| then dflt
    else if file[k].mixTime < first.mixTime then k
    else FirstOlder(file, first, k + 1, dflt)
  }

  // playbackFindFirstOffset, called with the stream at `start`. It compares every record with the
  // first one that it read.
  function FirstOffset(file: seq<Record>, start: nat): (r: nat)
    requires start <= |file|
    ensures r <= |file| && (start < |file| ==> r < |file|)
  {
    if start == |file| then start else FirstOlder(file, file[start], start + 1, start)
  }

  lemma {:induction false} FirstOlderIs(file: seq<Record>, first: Record, k: nat, dflt: nat)
    requires k <= |file|
    ensures var r := FirstOlder(file, first, k, dflt);
            if forall i :: k <= i < |file| ==> file[i].mixTime >= first.mixTime then r == dflt
            else k <= r < |file| && file[r].mixTime < first.mixTime
                 && forall i :: k <= i < r ==> file[i].mixTime >= first.mixTime
    decreases |file| - k
  {
    if k < |file| && file[k].mixTime >= first.mixTime {
      FirstOlderIs(file, first, k + 1, dflt);
    }
  }

  // The order of two slots of a rotated file.
  lemma RotatedOrder(file: seq<Record>, w: nat, i: nat, j: nat)
    requires Rotated(file, w) && i < |file| && j < |file|
    ensures Age(file, w, i) < Age(file, w, j) <==> file[i].mixTime < file[j].mixTime
    ensures file[i].mixTime == file[j].mixTime <==> i == j
  {
    var c := Cyclic(file, w);
    assert c[Age(file, w, i)] == file[i] && c[Age(file, w, j)] == file[j];
  }

  // How many records of a rotated file are older than slot i.
  function Age(file: seq<Record>, w: nat, i: nat): (a: nat)
    requires w < |file| && i < |file|
    ensures a < |file|
  {
    if i >= w then i - w else i + |file| - w
  }

  // From the beginning of a rotated file the search finds the oldest record.
  lemma FirstOffsetFindsOldest(file: seq<Record>, w: nat)
    requires Rotated(file, w)
    ensures FirstOffset(file, 0) == w
  {
    FirstOlderIs(file, file[0], 1, 0);
    forall i | 0 <= i < |file| ensures file[i].mixTime < file[0].mixTime <==> w <= i && w != 0 {
      RotatedOrder(file, w, i, 0);
    }
    assert w > 0 ==> file[w].mixTime < file[0].mixTime;
  }

  // Every recording of increasing times is a rotated file; the search finds the slot that shutdown
  // recorded as the start, except that shutdown may name the end of the file instead of slot 0.
  lemma OldestIsStartAtShutdown(h: seq<Record>)
    requires Increasing(h) && h != []
    ensures var s := RecordedAll(h);
            && Rotated(s.file, FirstOffset(s.file, 0))
            && Cyclic(s.file, FirstOffset(s.file, 0)) == h[|h| - Retained(|h|)..]
            && FirstOffset(s.file, 0) == (if StartAtShutdown(s) == |s.file| then 0 else StartAtShutdown(s))
            && (StartAtShutdown(s) == |s.file| <==> |h| >= 2 * MAX_PLAYBACK_EVENTS)
  {
    hide RecordedAll, Cyclic, Increasing, FirstOffset;
    FileIsEndOfHistory(h);
    var s := RecordedAll(h);
    var w := if s.pos == |s.file| then 0 else s.pos;
    CyclicFromEnd(s.file);
    SuffixIncreases(h, |h| - Retained(|h|));
    assert Rotated(s.file, w);
    FirstOffsetFindsOldest(s.file, w);
  }

  lemma CyclicFromEnd(file: seq<Record>)
    ensures Cyclic(file, |file|) == Cyclic(file, 0) == file
  {
  }

  lemma SuffixIncreases(h: seq<Record>, k: nat)
    requires Increasing(h) && k <= |h|
    ensures Increasing(h[k..])
  {
  }

  // ---------- Finding a time ----------

  // What comes after a position when the file is read cyclically: the end of the file leads to its
  // beginning.
  function NextPos(file: seq<Record>, pos: nat): nat {
    if pos < |file| then pos + 1 else 0
  }

  // Steps from `pos` to `start`; a whole round when they are equal.
  function Distance(file: seq<Record>, pos: nat, start: nat): nat
    requires pos <= |file| && start <= |file|
  {
    if pos < start then start - pos else start - pos + |file| + 1
  }

  // The search loop of playbackFindTime at position `pos`.
  function TimeFrom(file: seq<Record>, t: real, pos: nat, start: nat): (r: Option<nat>)
    requires pos <= |file| && start <= |file|
    ensures r.Some? ==> r.value < |file| && file[r.value].mixTime >= t
    decreases Distance(file, pos, start)
  {
    if pos < |file| && file[pos].mixTime >= t then Some(pos)
    else if NextPos(file, pos) == start then None
    else TimeFrom(file, t, NextPos(file, pos), start)
  }

  // Steps from `pos` to slot i, none when it is read next.
  function Ahead(file: seq<Record>, pos: nat, i: nat): nat
    requires pos <= |file| && i < |file|
  {
    if i >= pos then i - pos else i - pos + |file| + 1
  }

  // Slot k is not before the time, and no slot on the way to it is.
  ghost predicate FoundOnTheWay(file: seq<Record>, t: real, pos: nat, start: nat, k: nat)
    requires pos <= |file| && start <= |file|
  {
    && k < |file| && file[k].mixTime >= t && Ahead(file, pos, k) < Distance(file, pos, start)
    && forall i :: 0 <= i < |file| && Ahead(file, pos, i) < Ahead(file, pos, k) ==> file[i].mixTime < t
  }

  // The search looks at the records in cyclic order, from `pos` to just before `start`.
  lemma {:induction false} TimeFromIs(file: seq<Record>, t: real, pos: nat, start: nat)
    requires pos <= |file| && start <= |file|
    ensures match TimeFrom(file, t, pos, start)
            case None =>
              forall i :: 0 <= i < |file| && Ahead(file, pos, i) < Distance(file, pos, start) ==> file[i].mixTime < t
            case Some(k) => FoundOnTheWay(file, t, pos, start, k)
    decreases Distance(file, pos, start)
  {
    var next := NextPos(file, pos);
    if !(pos < |file| && file[pos].mixTime >= t) && next != start {
      TimeFromIs(file, t, next, start);
      forall i | 0 <= i < |file| && i != pos ensures Ahead(file, pos, i) == Ahead(file, next, i) + 1 {
      }
    }
  }

  ghost predicate FirstNotBefore(file: seq<Record>, t: real, k: nat) {
    && k < |file| && file[k].mixTime >= t
    && forall i :: 0 <= i < |file| && file[i].mixTime >= t ==> file[k].mixTime <= file[i].mixTime
  }

  // From the oldest slot, playbackFindTime finds the chronologically first record that is not before
  // the time, and nothing exactly when every record is before it.
  lemma FindTimeFindsFirst(file: seq<Record>, t: real, w: nat)
    requires Rotated(file, w)
    ensures match TimeFrom(file, t, w, w)
            case None => forall i :: 0 <= i < |file| ==> file[i].mixTime < t
            case Some(k) => FirstNotBefore(file, t, k)
  {
    TimeFromIs(file, t, w, w);
    var r := TimeFrom(file, t, w, w);
    if r.Some? {
      forall i | 0 <= i < |file| && file[i].mixTime >= t ensures file[r.value].mixTime <= file[i].mixTime {
        RotatedOrder(file, w, i, r.value);
        assert Ahead(file, w, i) >= Ahead(file, w, r.value);
      }
    }
  }

  // It finds the same from any slot q, if every record that is older than that of q is before the
  // time; the end of the file counts as newer than its last record.
  lemma FindTimeFromLater(file: seq<Record>, t: real, w: nat, q: nat)
    requires Rotated(file, w) && w <= q <= |file|
    requires forall i :: w <= i < q ==> file[i].mixTime < t
    ensures match TimeFrom(file, t, q, q)
            case None => forall i :: 0 <= i < |file| ==> file[i].mixTime < t
            case Some(k) => FirstNotBefore(file, t, k)
  {
    TimeFromIs(file, t, q, q);
    var r := TimeFrom(file, t, q, q);
    if r.Some? {
      forall i | 0 <= i < |file| && file[i].mixTime >= t ensures file[r.value].mixTime <= file[i].mixTime {
        RotatedOrder(file, w, i, r.value);
        assert Ahead(file, q, i) >= Ahead(file, q, r.value);
      }
    }
  }
}
