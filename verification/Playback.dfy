/**
 * The playback of a recording (server/playback.c:242-467), as functions on values.
 *
 * A failed read at the end of the file leaves the record as it was and sets the end-of-file flag.
 * Where C then looks at a record that was never read, its value is a parameter.
 */
module Playback {
  import opened Options
  import opened Recording

  // end_pos when there is none: the code's 0 is no record's position.
  const NOWHERE: int := -1

  // ---------- The replay loop ----------

  // What the loop hands to the engine from position `pos` on, if it goes back to the first record
  // whenever it meets the end of the file.
  function Replay(file: seq<Record>, pos: nat, start: nat, end: int): seq<Record>
    requires pos <= |file| && start <= |file|
    decreases Distance(file, pos, start)
  {
    var next := NextPos(file, pos);
    (if pos < |file| then [file[pos]] else []) +
    (if next == end || next == start then [] else Replay(file, next, start, end))
  }

  lemma ReplayStep(file: seq<Record>, pos: nat, start: nat, end: int, played: seq<Record>)
    requires pos <= |file| && start <= |file|
    ensures var one := if pos < |file| then [file[pos]] else [];
            var next := NextPos(file, pos);
            played + Replay(file, pos, start, end)
            == if next == end || next == start then played + one else (played + one) + Replay(file, next, start, end)
  {
  }

  // The records from position p to position q, a whole round when they are equal.
  function Segment(file: seq<Record>, p: nat, q: nat): seq<Record>
    requires p <= |file| && q <= |file|
  {
    if p < q then file[p..q] else file[p..] + file[..q]
  }

  // The loop ends at the first of the two positions that it comes to.
  lemma {:induction false} ReplayIsSegment(file: seq<Record>, pos: nat, start: nat, end: int)
    requires pos <= |file| && start <= |file|
    ensures Replay(file, pos, start, end)
            == if 0 <= end <= |file| && Distance(file, pos, end) < Distance(file, pos, start)
               then Segment(file, pos, end) else Segment(file, pos, start)
    decreases Distance(file, pos, start)
  {
    var next := NextPos(file, pos);
    var stop := if 0 <= end <= |file| && Distance(file, pos, end) < Distance(file, pos, start) then end else start;
    if next != end && next != start {
      ReplayIsSegment(file, next, start, end);
      SegmentStep(file, pos, stop);
    } else {
      assert stop == next;
    }
  }

  lemma SegmentStep(file: seq<Record>, p: nat, q: nat)
    requires p <= |file| && q <= |file| && q != NextPos(file, p)
    ensures Segment(file, p, q) == (if p < |file| then [file[p]] else []) + Segment(file, NextPos(file, p), q)
  {
  }

  // What is played when the stream has been put at `start` and the loop begins: the code reads a
  // record to learn its time and steps back over one, whether it could be read or not.
  function Played(file: seq<Record>, start: nat, end: int): seq<Record>
    requires file != [] && start <= |file|
  {
    Replay(file, if start < |file| then start else |file| - 1, start, end)
  }

  // From a slot, everything is played once, in cyclic order.
  lemma PlaysRound(file: seq<Record>, start: nat, end: int)
    requires start < |file| && (end == start || end < 0 || end > |file|)
    ensures Played(file, start, end) == Cyclic(file, start)
  {
    ReplayIsSegment(file, start, start, end);
  }

  // From the end of the file only the last record is played.
  lemma PlaysLastOnly(file: seq<Record>)
    requires file != []
    ensures Played(file, |file|, NOWHERE) == [file[|file| - 1]]
  {
  }

  // ---------- Recording, then playing ----------

  // Without times, a recording that was shut down is played as it was recorded, oldest event first,
  // each retained event once, exactly if fewer than twice the maximum were recorded. Otherwise the
  // start that shutdown wrote is the end of the file, and only the newest event is heard.
  lemma ReplayAfterShutdownIff(h: seq<Record>)
    requires h != []
    ensures var s := RecordedAll(h);
            var all := h[|h| - Retained(|h|)..];
            && s.file != [] && StartAtShutdown(s) <= |s.file|
            && (Played(s.file, StartAtShutdown(s), NOWHERE) == all <==> |h| < 2 * MAX_PLAYBACK_EVENTS)
            && (|h| >= 2 * MAX_PLAYBACK_EVENTS ==> Played(s.file, StartAtShutdown(s), NOWHERE) == [h[|h| - 1]])
  {
    hide RecordedAll, Cyclic, Replay;
    FileIsEndOfHistory(h);
    var s := RecordedAll(h);
    CyclicFromEnd(s.file);
    if |h| < 2 * MAX_PLAYBACK_EVENTS {
      PlaysRound(s.file, StartAtShutdown(s), NOWHERE);
    } else {
      PlaysLastOnly(s.file);
      assert s.file[|s.file| - 1] == h[|h| - Retained(|h|)..][|s.file| - 1];
    }
  }

  // A recording that was cut off is searched for its oldest event, and then always played in full.
  lemma ReplayAfterCrash(h: seq<Record>)
    requires h != [] && Increasing(h)
    ensures var s := RecordedAll(h);
            && FirstOffset(s.file, 0) < |s.file|
            && Played(s.file, FirstOffset(s.file, 0), NOWHERE) == h[|h| - Retained(|h|)..]
  {
    hide RecordedAll, Cyclic, Replay, FirstOffset;
    OldestIsStartAtShutdown(h);
    var s := RecordedAll(h);
    PlaysRound(s.file, FirstOffset(s.file, 0), NOWHERE);
  }

  // ---------- Playing a window of time ----------

  // playbackFindTime: at the end of the file the first read fails, and a record that was never read
  // is compared.
  function FindTime(file: seq<Record>, t: real, start: nat, unread: Record): (r: Option<nat>)
    requires file != [] && start <= |file|
    ensures r.Some? ==> r.value < |file|
  {
    if start == |file| && unread.mixTime >= t then Some(|file| - 1) else TimeFrom(file, t, start, start)
  }

  // Where playbackGo starts and ends for two times that it finds. The second search for the oldest
  // record begins where the first search for a time has left the stream, after the record it found.
  function StartOf(file: seq<Record>, from: real, unread: Record): (r: Option<nat>)
    requires file != []
    ensures r.Some? ==> r.value < |file|
  {
    FindTime(file, from, FirstOffset(file, 0), unread)
  }

  function EndOf(file: seq<Record>, until: real, start: nat, unread: Record): (r: Option<nat>)
    requires start < |file|
    ensures r.Some? ==> r.value < |file|
  {
    FindTime(file, until, FirstOffset(file, start + 1), unread)
  }

  // The records of the window, oldest first.
  function InWindow(c: seq<Record>, from: real, until: real): seq<Record> {
    if c == [] then []
    else (if from <= c[0].mixTime < until then [c[0]] else []) + InWindow(c[1..], from, until)
  }

  lemma {:induction false} WindowIsSlice(c: seq<Record>, from: real, until: real, a: nat, b: nat)
    requires a <= b <= |c|
    requires forall i :: 0 <= i < |c| ==> (from <= c[i].mixTime < until <==> a <= i < b)
    ensures InWindow(c, from, until) == c[a..b]
    decreases |c|
  {
    if c != [] {
      var a', b' := if a > 0 then a - 1 else 0, if b > 0 then b - 1 else 0;
      forall i | 0 <= i < |c[1..]| ensures from <= c[1..][i].mixTime < until <==> a' <= i < b' {
        assert c[1..][i] == c[i + 1];
      }
      WindowIsSlice(c[1..], from, until, a', b');
    }
  }

  // Where the second search for the oldest record ends up: it, or the slot it began at.
  lemma SecondOffset(file: seq<Record>, w: nat, s: nat)
    requires Rotated(file, w) && s < |file|
    ensures var q := FirstOffset(file, s + 1);
            w <= q <= |file| && (q != w ==> q == s + 1 && s >= w)
  {
    if s + 1 < |file| {
      FirstOlderIs(file, file[s + 1], s + 2, s + 1);
      forall i | s + 1 <= i < |file|
        ensures file[i].mixTime < file[s + 1].mixTime <==> s + 1 < w <= i
      {
        RotatedOrder(file, w, i, s + 1);
      }
      assert s + 1 < w ==> file[w].mixTime < file[s + 1].mixTime;
    }
  }

  ghost predicate SomeInWindow(file: seq<Record>, from: real, until: real) {
    exists i :: 0 <= i < |file| && from <= file[i].mixTime < until
  }

  // In a window that holds a record, the search for the end finds the first record after it.
  lemma EndIsFirstAfter(file: seq<Record>, w: nat, from: real, until: real, s: nat, unread: Record)
    requires Rotated(file, w) && FirstNotBefore(file, from, s) && SomeInWindow(file, from, until)
    requires s == |file| - 1 ==> unread.mixTime < until
    ensures match EndOf(file, until, s, unread)
            case None => forall i :: 0 <= i < |file| ==> file[i].mixTime < until
            case Some(e) => FirstNotBefore(file, until, e)
  {
    var q := FirstOffset(file, s + 1);
    SecondOffset(file, w, s);
    if q == w {
      FindTimeFindsFirst(file, until, w);
    } else {
      forall i | w <= i < q ensures file[i].mixTime < until {
        RotatedOrder(file, w, s, i);
      }
      FindTimeFromLater(file, until, w, q);
    }
  }

  lemma SegmentIsSlice(file: seq<Record>, w: nat, s: nat, e: nat)
    requires w < |file| && s < |file| && e < |file| && Age(file, w, s) < Age(file, w, e)
    ensures Segment(file, s, e) == Cyclic(file, w)[Age(file, w, s)..Age(file, w, e)]
  {
  }

  lemma WindowByAge(file: seq<Record>, w: nat, from: real, until: real, s: nat, e: nat, i: nat)
    requires Rotated(file, w) && FirstNotBefore(file, from, s) && FirstNotBefore(file, until, e) && i < |file|
    ensures from <= Cyclic(file, w)[i].mixTime < until <==> Age(file, w, s) <= i < Age(file, w, e)
  {
    hide Cyclic, Increasing;
    CyclicAt(file, w, i);
    var slot := if w + i < |file| then w + i else w + i - |file|;
    RotatedOrder(file, w, slot, s);
    RotatedOrder(file, w, slot, e);
  }

  // Between the two slots lies the window.
  lemma SegmentIsWindow(file: seq<Record>, w: nat, from: real, until: real, s: nat, e: nat)
    requires Rotated(file, w) && FirstNotBefore(file, from, s) && FirstNotBefore(file, until, e)
    requires SomeInWindow(file, from, until)
    ensures s != e && Segment(file, s, e) == InWindow(Cyclic(file, w), from, until)
  {
    hide Cyclic, Increasing, Segment, InWindow;
    RotatedOrder(file, w, s, e);
    SegmentIsSlice(file, w, s, e);
    forall i | 0 <= i < |file|
      ensures from <= Cyclic(file, w)[i].mixTime < until <==> Age(file, w, s) <= i < Age(file, w, e)
    {
      WindowByAge(file, w, from, until, s, e, i);
    }
    WindowIsSlice(Cyclic(file, w), from, until, Age(file, w, s), Age(file, w, e));
  }

  // With both times found, playback plays exactly the records with from <= time < until, oldest
  // first, if and only if there is such a record. Otherwise it begins with a record outside. If the
  // first record found is the last of the file, the search for the end looks at a record that was
  // never read; it is assumed not to pass for the end.
  lemma PlaysWindowIff(file: seq<Record>, w: nat, from: real, until: real, unread: Record)
    requires Rotated(file, w)
    requires StartOf(file, from, unread).Some?
    requires EndOf(file, until, StartOf(file, from, unread).value, unread).Some?
    requires StartOf(file, from, unread).value == |file| - 1 ==> unread.mixTime < until
    ensures var s := StartOf(file, from, unread).value;
            var e := EndOf(file, until, s, unread).value;
            && (Played(file, s, e) == InWindow(Cyclic(file, w), from, until) <==> SomeInWindow(file, from, until))
            && (!SomeInWindow(file, from, until) ==>
                  InWindow(Cyclic(file, w), from, until) == [] && Played(file, s, e) != [])
  {
    hide Cyclic, InWindow, Increasing;
    FirstOffsetFindsOldest(file, w);
    FindTimeFindsFirst(file, from, w);
    var s := StartOf(file, from, unread).value;
    var e := EndOf(file, until, s, unread).value;
    if SomeInWindow(file, from, until) {
      EndIsFirstAfter(file, w, from, until, s, unread);
      SegmentIsWindow(file, w, from, until, s, e);
      ReplayIsSegment(file, s, s, e);
    } else {
      EmptyWindow(Cyclic(file, w), from, until) by {
        forall i | 0 <= i < |file| ensures !(from <= Cyclic(file, w)[i].mixTime < until) {
          CyclicAt(file, w, i);
        }
      }
    }
  }

  // Without that assumption the end is the start: if the first record found is the last of the file and
  // what was never read passes for the end, a whole round is played.
  lemma UnreadPassesForTheEnd(file: seq<Record>, from: real, until: real, unread: Record)
    requires file != [] && StartOf(file, from, unread) == Some(|file| - 1) && unread.mixTime >= until
    ensures var s := |file| - 1;
            EndOf(file, until, s, unread) == Some(s) && Played(file, s, s) == Cyclic(file, s)
  {
    PlaysRound(file, |file| - 1, |file| - 1);
  }

  lemma {:induction false} EmptyWindow(c: seq<Record>, from: real, until: real)
    requires forall i :: 0 <= i < |c| ==> !(from <= c[i].mixTime < until)
    ensures InWindow(c, from, until) == []
  {
    if c != [] {
      forall i | 0 <= i < |c[1..]| ensures !(from <= c[1..][i].mixTime < until) {
        assert c[1..][i] == c[i + 1];
      }
      EmptyWindow(c[1..], from, until);
    }
  }

  // If the end time lies after every record, playback should run on to the newest one. The end that
  // the code chooses then, the header or the record before the start, does that exactly if the
  // oldest record is in slot 0 or the start is the slot right behind the oldest one.
  lemma PlaysToNewestIff(file: seq<Record>, w: nat, s: nat)
    requires w < |file| && s < |file|
    ensures Played(file, s, if w == 0 then 0 else s as int - 1) == Cyclic(file, w)[Age(file, w, s)..]
            <==> w == 0 || s == w + 1
  {
    hide Replay;
    var end := if w == 0 then 0 else s as int - 1;
    ReplayIsSegment(file, s, s, end);
    if w == 0 || s == w + 1 {
      assert Segment(file, s, end) == Cyclic(file, w)[Age(file, w, s)..];
    } else {
      assert |Played(file, s, end)| == if s == 0 then |file| else |file| - 1;
    }
  }

  // In a wrapped file of three records, played from the oldest one on, the newest is not heard.
  lemma NewestIsMissed(oldest: Record, middle: Record, newest: Record)
    ensures var file := [newest, oldest, middle];
            Cyclic(file, 1) == [oldest, middle, newest] && Played(file, 1, 1 - 1) == [oldest, middle]
  {
    var file := [newest, oldest, middle];
    ReplayIsSegment(file, 1, 1, 0);
  }

  // ---------- The end of the file and errno ----------

  // The loop of playbackGo, step by step: it has read `rec` last and stands at `pos`.
  datatype Loop = Running(pos: nat, rec: Record, played: seq<Record>) | Stopped(played: seq<Record>)

  // At the end of the file the read fails. The code goes back to the first record only if errno is
  // EINTR then, which a failed read at the end of a file does not set; otherwise it hands the old
  // record over once more and stays where it is.
  function LoopStep(file: seq<Record>, start: nat, end: int, eintr: bool, st: Loop): Loop {
    match st
    case Stopped(_) => st
    case Running(pos, rec, played) =>
      var next := if pos < |file| then pos + 1 else if eintr then 0 else pos;
      var rec' := if pos < |file| then file[pos] else rec;
      var played' := if pos < |file| || !eintr then played + [rec'] else played;
      if next == end || next == start then Stopped(played') else Running(next, rec', played')
  }

  function LoopSteps(file: seq<Record>, start: nat, end: int, eintr: bool, st: Loop, k: nat): Loop
    decreases k
  {
    if k == 0 then st else LoopSteps(file, start, end, eintr, LoopStep(file, start, end, eintr, st), k - 1)
  }

  // With errno EINTR at every end of file, the loop stops and has played what Replay says.
  lemma {:induction false} LoopRefinesReplay(file: seq<Record>, start: nat, end: int,
        pos: nat, rec: Record, played: seq<Record>)
    returns (k: nat)
    requires pos <= |file| && start <= |file|
    ensures LoopSteps(file, start, end, true, Running(pos, rec, played), k)
            == Stopped(played + Replay(file, pos, start, end))
    decreases Distance(file, pos, start)
  {
    hide Replay, LoopSteps;
    var st := Running(pos, rec, played);
    var next := LoopStep(file, start, end, true, st);
    ReplayStep(file, pos, start, end, played);
    if next.Stopped? {
      k := 0;
      NoSteps(file, start, end, true, next);
    } else {
      k := LoopRefinesReplay(file, start, end, next.pos, next.rec, next.played);
    }
    OneStepMore(file, start, end, true, st, k);
    k := k + 1;
  }

  lemma NoSteps(file: seq<Record>, start: nat, end: int, eintr: bool, st: Loop)
    ensures LoopSteps(file, start, end, eintr, st, 0) == st
  {
  }

  lemma OneStepMore(file: seq<Record>, start: nat, end: int, eintr: bool, st: Loop, k: nat)
    ensures LoopSteps(file, start, end, eintr, st, k + 1)
            == LoopSteps(file, start, end, eintr, LoopStep(file, start, end, eintr, st), k)
  {
  }

  lemma {:induction false} StuckAtEnd(file: seq<Record>, start: nat, end: int, rec: Record, played: seq<Record>, k: nat)
    requires |file| != start && |file| != end
    ensures LoopSteps(file, start, end, false, Running(|file|, rec, played), k).Running?
    decreases k
  {
    if k > 0 {
      StuckAtEnd(file, start, end, rec, played + [rec], k - 1);
    }
  }

  lemma {:induction false} StopsBefore(file: seq<Record>, start: nat, end: int,
        pos: nat, rec: Record, played: seq<Record>)
    requires pos < |file| && (pos < end <= |file| || pos < start <= |file|)
    ensures exists k: nat :: LoopSteps(file, start, end, false, Running(pos, rec, played), k).Stopped?
    decreases |file| - pos
  {
    var st := Running(pos, rec, played);
    var next := LoopStep(file, start, end, false, st);
    if next.Stopped? {
      assert LoopSteps(file, start, end, false, st, 1) == LoopSteps(file, start, end, false, next, 0);
    } else {
      StopsBefore(file, start, end, next.pos, next.rec, next.played);
      var k: nat :| LoopSteps(file, start, end, false, next, k).Stopped?;
      assert LoopSteps(file, start, end, false, st, k + 1) == LoopSteps(file, start, end, false, next, k);
    }
  }

  lemma {:induction false} NeverStops(file: seq<Record>, start: nat, end: int,
        pos: nat, rec: Record, played: seq<Record>, k: nat)
    requires pos <= |file| && !(pos < end <= |file|) && !(pos < start <= |file|)
    requires pos == |file| ==> |file| != start && |file| != end
    ensures LoopSteps(file, start, end, false, Running(pos, rec, played), k).Running?
    decreases k
  {
    if pos == |file| {
      StuckAtEnd(file, start, end, rec, played, k);
    } else if k > 0 {
      NeverStops(file, start, end, pos + 1, file[pos], played + [file[pos]], k - 1);
    }
  }

  // With any other errno the playback that starts at a slot stops if and only if its end lies ahead
  // in the file. Without an end it never stops: the last record is handed over for ever.
  lemma StopsWithoutEintrIff(file: seq<Record>, start: nat, end: int, rec: Record)
    requires start < |file|
    ensures (exists k: nat :: LoopSteps(file, start, end, false, Running(start, rec, []), k).Stopped?)
            <==> start < end <= |file|
  {
    if start < end <= |file| {
      StopsBefore(file, start, end, start, rec, []);
    } else {
      forall k: nat ensures LoopSteps(file, start, end, false, Running(start, rec, []), k).Running? {
        NeverStops(file, start, end, start, rec, [], k);
      }
    }
  }
}
