/**
 * The hand-off between the server threads and the engine (server/engine_queue.c): a doubly linked
 * list with a counting semaphore.
 *
 * A dequeue takes the last element, which is also where an enqueue puts a new one: the "queue" hands
 * out the event that came last.
 */
module EngineQueue {
  import opened Events

  class Element {
    var incoming: Event
    var next: Element?
    var prev: Element?

    constructor (d: Event)
      ensures incoming == d && next == null && prev == null
    {
      incoming := d;
      next, prev := null, null;
    }
  }

  ghost function At(els: seq<Element>, i: int): Element? {
    if 0 <= i < |els| then els[i] else null
  }

  class HandOff {
    var head: Element?
    var tail: Element?
    var semaphore: nat
    ghost var elements: seq<Element>

    // Head, tail and the links both ways are those of the sequence of elements, and the semaphore
    // counts them.
    ghost predicate Valid()
      reads this, elements
    {
      && (forall i, j :: 0 <= i < j < |elements| ==> elements[i] != elements[j])
      && head == At(elements, 0) && tail == At(elements, |elements| - 1)
      && (forall i {:trigger elements[i].next} :: 0 <= i < |elements| ==> elements[i].next == At(elements, i + 1))
      && (forall i {:trigger elements[i].prev} :: 0 <= i < |elements| ==> elements[i].prev == At(elements, i - 1))
      && semaphore == |elements|
    }

    ghost function Contents(): seq<Event>
      reads this, elements
    {
      seq(|elements|, i requires 0 <= i < |elements| reads this, elements => elements[i].incoming)
    }

    // engineQueueInit
    constructor ()
      ensures Valid() && Contents() == []
    {
      head, tail := null, null;
      semaphore := 0;
      elements := [];
    }

    // engineEnqueue
    method Enqueue(d: Event)
      requires Valid()
      modifies this, elements
      ensures Valid() && Contents() == old(Contents()) + [d]
    {
      if head == null {
        head := new Element(d);
        tail := head;
        elements := [head];
      } else {
        var cur: Element := head;
        ghost var k := 0;
        while cur.next != null
          invariant 0 <= k < |elements| && cur == elements[k]
          decreases |elements| - k
        {
          cur := cur.next;
          k := k + 1;
        }
        var e := new Element(d);
        cur.next := e;
        e.prev := cur;
        tail := e;
        elements := elements + [e];
      }
      semaphore := semaphore + 1;
    }

    // engineDequeue, once the semaphore has let it pass: it never meets an empty list.
    method Dequeue() returns (temp: Event)
      requires Valid() && semaphore > 0
      modifies this, elements
      ensures Valid() && old(Contents()) == Contents() + [temp]
    {
      temp := tail.incoming;
      if tail.prev != null {
        tail := tail.prev;
        tail.next := null;
      } else {
        tail, head := null, null;
      }
      elements := elements[..|elements| - 1];
      semaphore := semaphore - 1;
    }

    // engineQueueEmpty
    method QueueEmpty() returns (empty: bool)
      requires Valid()
      ensures empty <==> Contents() == []
    {
      empty := head == null;
    }
  }

  // ---------- What the engine gets, over whole runs ----------

  datatype HandOffOp = Put(d: Event) | Take

  // The contents after the operations, and what the takes returned. A take waits while there is
  // nothing; such a run does not go on.
  datatype Outcome = Outcome(waiting: seq<Event>, taken: seq<Event>)

  ghost predicate Granted(q: seq<Event>, ops: seq<HandOffOp>)
    decreases |ops|
  {
    ops == [] || (
      match ops[0]
      case Put(d) => Granted(q + [d], ops[1..])
      case Take => q != [] && Granted(q[..|q| - 1], ops[1..]))
  }

  function RunHandOff(q: seq<Event>, ops: seq<HandOffOp>): Outcome
    requires Granted(q, ops)
    decreases |ops|
  {
    if ops == [] then Outcome(q, [])
    else
      match ops[0]
      case Put(d) => RunHandOff(q + [d], ops[1..])
      case Take =>
        var r := RunHandOff(q[..|q| - 1], ops[1..]);
        Outcome(r.waiting, [q[|q| - 1]] + r.taken)
  }

  function PutEvents(ops: seq<HandOffOp>): seq<Event>
    decreases |ops|
  {
    if ops == [] then []
    else (if ops[0].Put? then [ops[0].d] else []) + PutEvents(ops[1..])
  }

  // Nothing is lost or handed out twice: of every event, as many copies are waiting or taken in the
  // end as there were at first and came in.
  lemma {:induction false} HandOffConserves(q: seq<Event>, ops: seq<HandOffOp>, e: Event)
    requires Granted(q, ops)
    ensures var r := RunHandOff(q, ops);
            multiset(q)[e] + multiset(PutEvents(ops))[e] == multiset(r.waiting)[e] + multiset(r.taken)[e]
    decreases |ops|
  {
    if ops != [] {
      var rest := ops[1..];
      match ops[0] {
        case Put(d) =>
          HandOffConserves(q + [d], rest, e);
          CountPlus(q, [d], e);
          CountPlus([d], PutEvents(rest), e);
        case Take =>
          var last := q[|q| - 1];
          HandOffConserves(q[..|q| - 1], rest, e);
          assert q == q[..|q| - 1] + [last];
          CountPlus(q[..|q| - 1], [last], e);
          CountPlus([last], RunHandOff(q[..|q| - 1], rest).taken, e);
          assert [] + PutEvents(rest) == PutEvents(rest);
      }
    }
  }

  lemma CountPlus(a: seq<Event>, b: seq<Event>, e: Event)
    ensures multiset(a + b)[e] == multiset(a)[e] + multiset(b)[e]
  {}

  // Events that wait behind one another come out in the opposite order.
  lemma {:induction false} BurstComesOutReversed(q: seq<Event>, ops: seq<HandOffOp>)
    requires |ops| == |q| && forall i :: 0 <= i < |ops| ==> ops[i] == Take
    ensures Granted(q, ops)
    ensures RunHandOff(q, ops) == Outcome([], seq(|q|, i requires 0 <= i < |q| => q[|q| - 1 - i]))
    decreases |ops|
  {
    if q != [] {
      BurstComesOutReversed(q[..|q| - 1], ops[1..]);
    }
  }

  // Two events that wait come out the other way round.
  lemma SecondComesFirst(first: Event, second: Event)
    ensures var ops := [Put(first), Put(second), Take, Take];
            Granted([], ops) && RunHandOff([], ops) == Outcome([], [second, first])
  {
    hide Granted, RunHandOff;
    BurstComesOutReversed([first, second], [Take, Take]);
    assert [first] + [second] == [first, second] && [] + [first] == [first];
    PutIsGranted([first], second, [Take, Take]);
    PutIsGranted([], first, [Put(second), Take, Take]);
    assert [Put(second)] + [Take, Take] == [Put(second), Take, Take];
    assert [Put(first)] + [Put(second), Take, Take] == [Put(first), Put(second), Take, Take];
  }

  lemma PutIsGranted(q: seq<Event>, d: Event, ops: seq<HandOffOp>)
    requires Granted(q + [d], ops)
    ensures Granted(q, [Put(d)] + ops) && RunHandOff(q, [Put(d)] + ops) == RunHandOff(q + [d], ops)
  {
    assert ([Put(d)] + ops)[1..] == ops;
  }

  // Every take finds exactly one event waiting.
  predicate NeverTwoWait(q: seq<Event>, ops: seq<HandOffOp>)
    decreases |ops|
  {
    ops == [] || (
      match ops[0]
      case Put(d) => NeverTwoWait(q + [d], ops[1..])
      case Take => |q| == 1 && NeverTwoWait([], ops[1..]))
  }

  // What is taken comes out in the order in which it waited and came in exactly if every take finds
  // just one event.
  lemma {:induction false} InOrderIff(q: seq<Event>, ops: seq<HandOffOp>)
    requires Granted(q, ops)
    requires Distinct(q + PutEvents(ops))
    ensures RunHandOff(q, ops).taken <= q + PutEvents(ops) <==> NeverTwoWait(q, ops)
    decreases |ops|
  {
    if ops != [] {
      var rest := ops[1..];
      match ops[0] {
        case Put(d) =>
          assert q + PutEvents(ops) == (q + [d]) + PutEvents(rest);
          InOrderIff(q + [d], rest);
        case Take =>
          assert PutEvents(ops) == PutEvents(rest);
          var taken := RunHandOff(q[..|q| - 1], rest).taken;
          if |q| == 1 {
            assert q[..0] == [] && q + PutEvents(rest) == [q[0]] + ([] + PutEvents(rest));
            DistinctTail(q[0], [] + PutEvents(rest));
            InOrderIff([], rest);
            SameFirst(q[0], taken, [] + PutEvents(rest));
          } else {
            var all := q + PutEvents(ops);
            assert all[0] == q[0] && all[|q| - 1] == q[|q| - 1];
          }
      }
    }
  }

  ghost predicate Distinct(s: seq<Event>) {
    forall i, j :: 0 <= i < j < |s| ==> s[i] != s[j]
  }

  lemma DistinctTail(e: Event, s: seq<Event>)
    requires Distinct([e] + s)
    ensures Distinct(s)
  {
    forall i, j | 0 <= i < j < |s| ensures s[i] != s[j] {
      assert ([e] + s)[i + 1] == s[i] && ([e] + s)[j + 1] == s[j];
    }
  }

  lemma SameFirst(e: Event, a: seq<Event>, b: seq<Event>)
    ensures [e] + a <= [e] + b <==> a <= b
  {
    assert ([e] + a)[1..] == a && ([e] + b)[1..] == b;
    if a <= b {
      assert b == a + b[|a|..];
      assert [e] + b == ([e] + a) + b[|a|..];
    }
  }
}
