/**
 * The playback file and its stream, read and written in place (server/playback.c:58-526). Each method
 * is proved against the functions of modules Recording and Playback.
 *
 * Left aside are the header's version fields, the byte layout, the sleeping between events, and
 * errors of the file system. A read at the end of the file is taken to set errno to EINTR.
 */
module PlaybackFile {
  import opened Options
  import opened Recording
  import opened Playback

  class Stream {
    // The records after the header, the position, and the end-of-file flag.
    var file: seq<Record>
    var pos: nat
    var eof: bool
    // The recorder's counter and flag; in the header, the start and whether it was shut down.
    var eventCnt: nat
    var loopback: bool
    var startPos: nat
    var closed: bool

    ghost predicate Valid()
      reads this
    {
      pos <= |file|
    }

    ghost function State(): Recorder
      requires Valid()
      reads this
    {
      Recorder(file, pos, eventCnt, loopback)
    }

    // playbackFileInit for recording.
    constructor Create()
      ensures Valid() && State() == NEW_RECORDING && startPos == 0 && !closed
    {
      file := [];
      pos := 0;
      eof := false;
      eventCnt := 0;
      loopback := false;
      startPos := 0;
      closed := false;
    }

    // playbackFileInit for playing: the stream is after the header.
    constructor Open(f: seq<Record>, start: nat, wasClosed: bool)
      ensures Valid() && file == f && pos == 0 && startPos == start && closed == wasClosed
    {
      file := f;
      pos := 0;
      eof := false;
      eventCnt := 0;
      loopback := false;
      startPos := start;
      closed := wasClosed;
    }

    method Write(r: Record)
      requires Valid()
      modifies this`file, this`pos
      ensures Valid() && file == Written(old(file), old(pos), r) && pos == old(pos) + 1
    {
      if pos == |file| {
        file := file + [r];
      } else {
        file := file[pos := r];
      }
      pos := pos + 1;
    }

    method Seek(p: nat)
      requires p <= |file|
      modifies this`pos, this`eof
      ensures pos == p && !eof
    {
      pos := p;
      eof := false;
    }

    // fread: the record, or what the variable held before.
    method Read(before: Record) returns (rec: Record, ok: bool)
      requires Valid()
      modifies this`pos, this`eof
      ensures Valid() && ok == (old(pos) < |file|)
      ensures ok ==> rec == file[old(pos)] && pos == old(pos) + 1 && eof == old(eof)
      ensures !ok ==> rec == before && pos == old(pos) && eof
    {
      if pos < |file| {
        rec := file[pos];
        pos := pos + 1;
        ok := true;
      } else {
        rec := before;
        eof := true;
        ok := false;
      }
    }

    // playbackRecordEvent
    method RecordEvent(r: Record)
      requires Valid()
      modifies this
      ensures Valid() && State() == Recorded(old(State()), r)
      ensures startPos == old(startPos) && closed == old(closed)
    {
      if eventCnt != MAX_PLAYBACK_EVENTS {
        Write(r);
      } else {
        loopback := true;
        Seek(0);
        Write(r);
      }
      eventCnt := eventCnt + 1;
    }

    // playbackFileShutdown after recording.
    method Shutdown()
      requires Valid()
      modifies this`startPos, this`closed
      ensures startPos == StartAtShutdown(State()) && closed
    {
      if loopback {
        startPos := pos;
      } else {
        startPos := 0;
      }
      closed := true;
    }

    // playbackFindFirstOffset. `unread` is what its two record variables hold before they are read.
    method FindFirstOffset(unread: Record) returns (r: nat)
      requires Valid() && !eof
      modifies this`pos, this`eof
      ensures Valid() && r == FirstOffset(file, old(pos))
    {
      var initialPos := pos;
      var cur, prev := unread, unread;
      var ok: bool;
      prev, ok := Read(prev);
      ghost var first := prev;
      while !eof
        invariant Valid() && prev == first && initialPos <= |file|
        invariant initialPos < |file| ==> first == file[initialPos] && initialPos < pos
        invariant initialPos == |file| ==> eof
        invariant initialPos < |file| && pos > initialPos + 1 ==> cur == file[pos - 1] && !(cur.mixTime < prev.mixTime)
        invariant initialPos < |file| ==>
                    FirstOlder(file, first, pos, initialPos) == FirstOlder(file, first, initialPos + 1, initialPos)
        invariant eof ==> pos == |file|
        decreases |file| - pos, !eof
      {
        cur, ok := Read(cur);
        if cur.mixTime < prev.mixTime {
          return pos - 1;
        }
      }
      return initialPos;
    }

    // playbackFindTime
    method FindTimeFrom(t: real, start: nat, unread: Record) returns (r: Option<nat>)
      requires Valid() && file != [] && start <= |file|
      modifies this`pos, this`eof
      ensures Valid() && r == FindTime(file, t, start, unread)
      ensures start < |file| ==> !eof && pos == if r.Some? then r.value + 1 else start
    {
      Seek(start);
      var rec := unread;
      var ok: bool;
      var more := true;
      while more
        invariant Valid()
        invariant !eof && (!more ==> pos == start)
        invariant more && pos == start ==> rec == unread
        invariant more && !(pos == start) ==> rec.mixTime < t
        invariant more ==> TimeFrom(file, t, pos, start) == TimeFrom(file, t, start, start)
        invariant more && start == |file| && pos != start ==> unread.mixTime < t
        invariant !more ==> FindTime(file, t, start, unread) == None
        decreases more, if more then Distance(file, pos, start) else 0
      {
        rec, ok := Read(rec);
        if rec.mixTime >= t {
          return Some(pos - 1);
        }
        if eof {
          Seek(0);
        }
        more := pos != start;
      }
      return None;
    }

    // The loop of playbackGo: what it hands to the engine. At the end of the file it goes back to the
    // first record without handing anything over.
    method PlayLoop(start: nat, end: int, before: Record) returns (played: seq<Record>)
      requires Valid() && start <= |file|
      modifies this`pos, this`eof
      ensures Valid() && played == Replay(file, old(pos), start, end)
    {
      hide Replay;
      played := [];
      var rec := before;
      var ok: bool;
      var more := true;
      ghost var all := Replay(file, pos, start, end);
      while more
        invariant Valid()
        invariant if more then played + Replay(file, pos, start, end) == all else played == all
        decreases more, if more then Distance(file, pos, start) else 0
      {
        ReplayStep(file, pos, start, end, played);
        rec, ok := Read(rec);
        if !ok {
          Seek(0);
        } else {
          played := played + [rec];
        }
        more := pos != end && pos != start;
      }
    }

    // playbackGo on a file just opened. Without a start time it plays from the start that the header
    // gives, or from the oldest record if the recording was not shut down. With a start time it plays
    // from there; `junk` is what end_pos holds when no end time is given.
    method Go(from: Option<real>, until: Option<real>, unread: Record, junk: int) returns (played: seq<Record>)
      requires Valid() && file != [] && pos == 0 && !eof && startPos <= |file|
      modifies this
      ensures Valid() && file == old(file)
      ensures var b := Bounds(file, old(startPos), old(closed), from, until, unread, junk);
              played == Played(file, b.0, b.1)
    {
      hide Replay, FirstOffset, FindTime;
      var start: nat;
      var end: int;
      if from.Some? {
        start, end := FindBounds(from.value, until, unread, junk);
      } else {
        if closed {
          Seek(startPos);
        } else {
          var q := FindFirstOffset(unread);
          Seek(q);
        }
        start := pos;
        end := NOWHERE;
      }
      var rec, ok := Read(unread);
      Seek(pos - 1);
      played := PlayLoop(start, end, rec);
    }

    // The part of playbackGo for a given start time; the stream is left at the start.
    method FindBounds(from: real, until: Option<real>, unread: Record, junk: int) returns (start: nat, end: int)
      requires Valid() && file != [] && pos == 0 && !eof
      modifies this`pos, this`eof, this`startPos
      ensures Valid() && (start, end) == TimeBounds(file, from, until, unread, junk) && pos == start && !eof
    {
      hide FindTime;
      startPos := FindFirstOffset(unread);
      var s := FindTimeFrom(from, startPos, unread);
      start := if s.Some? then s.value else 0;
      end := junk;
      if until.Some? {
        var q := FindFirstOffset(unread);
        var e := FindTimeFrom(until.value, q, unread);
        if e.Some? {
          end := e.value;
        } else {
          end := if startPos == 0 then 0 else start as int - 1;
        }
      }
      Seek(start);
    }
  }

  // start_pos and end_pos of playbackGo.
  function Bounds(file: seq<Record>, startPos: nat, closed: bool, from: Option<real>, until: Option<real>,
                  unread: Record, junk: int): (r: (nat, int))
    requires file != [] && startPos <= |file|
    ensures r.0 <= |file|
  {
    match from
    case None => (if closed then startPos else FirstOffset(file, 0), NOWHERE)
    case Some(t) => TimeBounds(file, t, until, unread, junk)
  }

  // The same for a given start time. A start that is not found is replaced by the first slot, which
  // in a wrapped file is not the oldest record.
  function TimeBounds(file: seq<Record>, from: real, until: Option<real>, unread: Record, junk: int): (r: (nat, int))
    requires file != []
    ensures r.0 < |file|
  {
    var s := StartOf(file, from, unread);
    var start := if s.Some? then s.value else 0;
    (start,
     if until.None? then junk
     else
       var after := if s.Some? then s.value + 1 else FirstOffset(file, 0);
       match FindTime(file, until.value, FirstOffset(file, after), unread)
       case Some(e) => e
       case None => if FirstOffset(file, 0) == 0 then 0 else start as int - 1)
  }

  // What Go hands to the engine for a start and an end time, on a recording of increasing times. If
  // both times are found, it is the recorded events of that window, oldest first, exactly if there are
  // any.
  lemma GoPlaysTheWindowIff(h: seq<Record>, from: real, until: real, unread: Record, junk: int)
    requires h != [] && Increasing(h)
    requires var file := RecordedAll(h).file;
             && file != [] && StartOf(file, from, unread).Some?
             && EndOf(file, until, StartOf(file, from, unread).value, unread).Some?
             && (StartOf(file, from, unread).value == |file| - 1 ==> unread.mixTime < until)
    ensures var file := RecordedAll(h).file;
            var b := TimeBounds(file, from, Some(until), unread, junk);
            Played(file, b.0, b.1) == InWindow(h[|h| - Retained(|h|)..], from, until)
            <==> SomeInWindow(file, from, until)
  {
    hide RecordedAll, Increasing, Cyclic, Played, InWindow, SomeInWindow, FirstOffset;
    OldestIsStartAtShutdown(h);
    var file := RecordedAll(h).file;
    PlaysWindowIff(file, FirstOffset(file, 0), from, until, unread);
  }

  // ---------- What Go plays ----------

  // Without a start time, a recording that was cut off is played in full, oldest event first, whatever
  // the header names as its start.
  lemma GoAfterCrash(h: seq<Record>, startPos: nat, until: Option<real>, unread: Record, junk: int)
    requires h != [] && Increasing(h) && startPos <= |RecordedAll(h).file|
    ensures var file := RecordedAll(h).file;
            && file != []
            && var b := Bounds(file, startPos, false, None, until, unread, junk);
               Played(file, b.0, b.1) == h[|h| - Retained(|h|)..]
  {
    hide RecordedAll, Played, FirstOffset, Increasing;
    FileIsEndOfHistory(h);
    ReplayAfterCrash(h);
  }

  // One that was shut down is played from the start that Shutdown wrote: in full exactly if fewer than
  // twice the maximum were recorded, and otherwise only the newest event.
  lemma GoAfterShutdownIff(h: seq<Record>, until: Option<real>, unread: Record, junk: int)
    requires h != []
    ensures var s := RecordedAll(h);
            && s.file != [] && StartAtShutdown(s) <= |s.file|
            && var b := Bounds(s.file, StartAtShutdown(s), true, None, until, unread, junk);
               var played := Played(s.file, b.0, b.1);
               && (played == h[|h| - Retained(|h|)..] <==> |h| < 2 * MAX_PLAYBACK_EVENTS)
               && (|h| >= 2 * MAX_PLAYBACK_EVENTS ==> played == [h[|h| - 1]])
  {
    hide RecordedAll, Played;
    ReplayAfterShutdownIff(h);
  }

  // With a start time only, the end is what the variable happens to hold. If that is no other position in
  // the file, a whole round is played from the first record not before the start time, the ones before it
  // last; without such a record, the file as it lies. A position in the file ends it there.
  lemma GoWithoutEnd(h: seq<Record>, from: real, unread: Record, junk: int)
    requires h != [] && Increasing(h) && RecordedAll(h).file != []
    ensures var file := RecordedAll(h).file;
            var w := FirstOffset(file, 0);
            var b := Bounds(file, 0, true, Some(from), None, unread, junk);
            && w < |file| && Cyclic(file, w) == h[|h| - Retained(|h|)..] && b.0 < |file|
            && (if exists i :: 0 <= i < |file| && file[i].mixTime >= from
                then FirstNotBefore(file, from, b.0) else b.0 == 0)
            && Played(file, b.0, b.1)
               == (if 0 <= junk <= |file| && junk != b.0 then Segment(file, b.0, junk) else Cyclic(file, b.0))
  {
    hide RecordedAll, Cyclic, Replay, FirstOffset, TimeFrom, Increasing;
    OldestIsStartAtShutdown(h);
    var file := RecordedAll(h).file;
    FindTimeFindsFirst(file, from, FirstOffset(file, 0));
    var b := Bounds(file, 0, true, Some(from), None, unread, junk);
    ReplayIsSegment(file, b.0, b.0, junk);
    RoundIsCyclic(file, b.0);
  }

  lemma RoundIsCyclic(file: seq<Record>, p: nat)
    requires p <= |file|
    ensures Segment(file, p, p) == Cyclic(file, p)
  {
  }

  // With an end time after every record it plays from the first record not before the start time to the
  // newest one exactly if the oldest record is in slot 0 or the start is right behind it.
  lemma GoToNewestIff(h: seq<Record>, from: real, until: real, unread: Record, junk: int)
    requires h != [] && Increasing(h)
    requires var file := RecordedAll(h).file;
             && file != [] && StartOf(file, from, unread).Some?
             && EndOf(file, until, StartOf(file, from, unread).value, unread).None?
    ensures var file := RecordedAll(h).file;
            var w, s := FirstOffset(file, 0), StartOf(file, from, unread).value;
            var b := Bounds(file, 0, true, Some(from), Some(until), unread, junk);
            && w < |file| && FirstNotBefore(file, from, s) && Cyclic(file, w) == h[|h| - Retained(|h|)..]
            && (Played(file, b.0, b.1) == h[|h| - Retained(|h|)..][Age(file, w, s)..] <==> w == 0 || s == w + 1)
  {
    hide RecordedAll, Cyclic, Played, FirstOffset, TimeFrom, Increasing, Age;
    OldestIsStartAtShutdown(h);
    var file := RecordedAll(h).file;
    var w := FirstOffset(file, 0);
    FindTimeFindsFirst(file, from, w);
    PlaysToNewestIff(file, w, StartOf(file, from, unread).value);
  }

  // With a start time after every record it begins at slot 0 instead, whichever record that is, and stops
  // at the first record not before the end time; without such a record it plays the file as it lies.
  lemma GoFromTooLate(h: seq<Record>, from: real, until: real, unread: Record, junk: int)
    requires h != [] && Increasing(h)
    requires var file := RecordedAll(h).file; file != [] && StartOf(file, from, unread).None?
    ensures var file := RecordedAll(h).file;
            var b := Bounds(file, 0, true, Some(from), Some(until), unread, junk);
            && (forall i :: 0 <= i < |file| ==> file[i].mixTime < from)
            && (forall e: nat :: FirstNotBefore(file, until, e) ==> Played(file, b.0, b.1) == Segment(file, 0, e))
            && ((forall i :: 0 <= i < |file| ==> file[i].mixTime < until) ==> Played(file, b.0, b.1) == file)
  {
    hide RecordedAll, Cyclic, Replay, FirstOffset, TimeFrom, Increasing;
    OldestIsStartAtShutdown(h);
    var file := RecordedAll(h).file;
    var w := FirstOffset(file, 0);
    FindTimeFindsFirst(file, from, w);
    FindTimeFindsFirst(file, until, w);
    OldestLeadsToItself(file, w);
    var b := Bounds(file, 0, true, Some(from), Some(until), unread, junk);
    ReplayIsSegment(file, 0, 0, b.1);
    forall e: nat | FirstNotBefore(file, until, e) ensures b.1 == e {
      RotatedOrder(file, w, e, FindTime(file, until, w, unread).value);
    }
  }

  // From the oldest record on there is no older one.
  lemma OldestLeadsToItself(file: seq<Record>, w: nat)
    requires Rotated(file, w)
    ensures FirstOffset(file, w) == w
  {
    if w == 0 {
      FirstOffsetFindsOldest(file, 0);
    } else {
      SecondOffset(file, w, w - 1);
    }
  }
}
