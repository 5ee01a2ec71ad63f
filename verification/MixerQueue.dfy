/**
 * The bounded priority heap that holds events while every mixing channel is busy
 * (server/mixer_queue.c). A small `prior` is urgent: the heap keeps its least entry in slot 0.
 *
 * The heap is a sequence here, slot 0 first; class `MixerHeap` works on the array in place.
 * `bubbleUp` computes a parent with (pos + 1) / 2 although the children of `pos` are
 * 2 * pos + 1 and 2 * pos + 2. Both readings are modelled: `BubbledUp` is the code as written,
 * `BubbledUpByChildren` takes the parent that the child formulas imply.
 */
module MixerQueue {
  import opened Events

  type Heap = seq<EngineEvent>

  // ---------- The order the child formulas ask for ----------

  // The entry at `c` is not more urgent than its parent.
  ghost predicate EdgeInOrder(s: Heap, c: nat) {
    1 <= c < |s| ==> Prior(s[(c - 1) / 2]) <= Prior(s[c])
  }

  ghost predicate HeapOrdered(s: Heap) {
    forall c: nat :: EdgeInOrder(s, c)
  }

  ghost predicate IsLeast(e: EngineEvent, s: Heap) {
    e in s && forall i :: 0 <= i < |s| ==> Prior(e) <= Prior(s[i])
  }

  // A child `c` of `pos` is in order with the parent of `pos`.
  ghost predicate GrandchildInOrder(s: Heap, pos: nat, c: nat) {
    1 <= c < |s| && (c - 1) / 2 == pos && pos > 0 && pos < |s| ==> Prior(s[(pos - 1) / 2]) <= Prior(s[c])
  }

  // Ordered except between `pos` and its children.
  ghost predicate OrderedBelow(s: Heap, pos: nat) {
    && (forall c: nat :: (c - 1) / 2 != pos ==> EdgeInOrder(s, c))
    && (forall c: nat :: GrandchildInOrder(s, pos, c))
  }

  // Ordered except between `pos` and its parent.
  ghost predicate OrderedAbove(s: Heap, pos: nat) {
    && (forall c: nat :: c != pos ==> EdgeInOrder(s, c))
    && (forall c: nat :: GrandchildInOrder(s, pos, c))
  }

  // ---------- What the operations compute ----------

  function Swapped(s: Heap, i: nat, j: nat): (r: Heap)
    requires i < |s| && j < |s|
    ensures |r| == |s|
  {
    s[i := s[j]][j := s[i]]
  }

  // The parent, as written, with which bubbleUp swaps `pos`, or `pos` itself when it stays.
  function UpTarget(s: Heap, pos: nat): (t: nat)
    requires pos < |s|
    ensures t <= pos
    ensures t < pos <==> Prior(s[(pos + 1) / 2]) > Prior(s[pos])
  {
    if Prior(s[(pos + 1) / 2]) > Prior(s[pos]) then (pos + 1) / 2 else pos
  }

  // bubbleUp as written.
  function BubbledUp(s: Heap, pos: nat): (r: Heap)
    requires pos < |s|
    ensures |r| == |s|
    decreases pos
  {
    var t := UpTarget(s, pos);
    if t == pos then s else BubbledUp(Swapped(s, t, pos), t)
  }

  // bubbleUp with the parent that mixerDequeue's child formulas imply.
  function BubbledUpByChildren(s: Heap, pos: nat): (r: Heap)
    requires pos < |s|
    ensures |r| == |s|
    decreases pos
  {
    if pos > 0 && Prior(s[(pos - 1) / 2]) > Prior(s[pos])
    then BubbledUpByChildren(Swapped(s, (pos - 1) / 2, pos), (pos - 1) / 2)
    else s
  }

  // The child that bubbleDown moves up over `pos`, or `pos` itself when it stays.
  function DownTarget(s: Heap, pos: nat): (t: nat)
    requires pos < |s|
    ensures t == pos || (pos < t < |s| && (t - 1) / 2 == pos)
  {
    var l := (pos + 1) * 2 - 1;
    var r := (pos + 1) * 2;
    if l < |s| && r < |s| then
      if Prior(s[l]) <= Prior(s[r]) && Prior(s[l]) < Prior(s[pos]) then l
      else if Prior(s[r]) <= Prior(s[l]) && Prior(s[r]) < Prior(s[pos]) then r
      else pos
    else if l < |s| && Prior(s[l]) < Prior(s[pos]) then l
    else pos
  }

  function BubbledDown(s: Heap, pos: nat): (r: Heap)
    requires pos < |s|
    ensures |r| == |s|
    decreases |s| - pos
  {
    var t := DownTarget(s, pos);
    if t == pos then s else BubbledDown(Swapped(s, pos, t), t)
  }

  // bubbleDown also runs on a heap that has just become empty.
  function Settled(s: Heap, pos: nat): Heap {
    if pos < |s| then BubbledDown(s, pos) else s
  }

  function Enqueued(s: Heap, e: EngineEvent): (r: Heap)
    ensures |r| == |s| + 1
  {
    BubbledUp(s + [e], |s|)
  }

  function EnqueuedByChildren(s: Heap, e: EngineEvent): (r: Heap)
    ensures |r| == |s| + 1
  {
    BubbledUpByChildren(s + [e], |s|)
  }

  // What mixerDequeue leaves behind; it returns s[0].
  function Dequeued(s: Heap): (r: Heap)
    requires s != []
    ensures |r| == |s| - 1
  {
    var n := |s| - 1;
    if n == 0 then [] else BubbledDown([s[n]] + s[1..n], 0)
  }

  // ---------- No operation loses or invents an entry ----------

  lemma SwappedKeepsEntries(s: Heap, i: nat, j: nat)
    requires i < |s| && j < |s|
    ensures multiset(Swapped(s, i, j)) == multiset(s)
  {
    var t := s[i := s[j]];
    assert multiset(t) == multiset(s) - multiset{s[i]} + multiset{s[j]};
    assert multiset(t[j := s[i]]) == multiset(t) - multiset{t[j]} + multiset{s[i]};
  }

  lemma {:induction false} BubbledUpKeepsEntries(s: Heap, pos: nat)
    requires pos < |s|
    ensures multiset(BubbledUp(s, pos)) == multiset(s)
    decreases pos
  {
    var t := UpTarget(s, pos);
    if t != pos {
      SwappedKeepsEntries(s, t, pos);
      BubbledUpKeepsEntries(Swapped(s, t, pos), t);
    }
  }

  lemma {:induction false} BubbledUpByChildrenKeepsEntries(s: Heap, pos: nat)
    requires pos < |s|
    ensures multiset(BubbledUpByChildren(s, pos)) == multiset(s)
    decreases pos
  {
    if pos > 0 && Prior(s[(pos - 1) / 2]) > Prior(s[pos]) {
      SwappedKeepsEntries(s, (pos - 1) / 2, pos);
      BubbledUpByChildrenKeepsEntries(Swapped(s, (pos - 1) / 2, pos), (pos - 1) / 2);
    }
  }

  lemma {:induction false} BubbledDownKeepsEntries(s: Heap, pos: nat)
    requires pos < |s|
    ensures multiset(BubbledDown(s, pos)) == multiset(s)
    decreases |s| - pos
  {
    var t := DownTarget(s, pos);
    if t != pos {
      SwappedKeepsEntries(s, pos, t);
      BubbledDownKeepsEntries(Swapped(s, pos, t), t);
    }
  }

  // Both forms of mixerEnqueue put exactly the new entry in.
  lemma EnqueueAddsOne(s: Heap, e: EngineEvent)
    ensures multiset(Enqueued(s, e)) == multiset(s) + multiset{e}
    ensures multiset(EnqueuedByChildren(s, e)) == multiset(s) + multiset{e}
  {
    BubbledUpKeepsEntries(s + [e], |s|);
    BubbledUpByChildrenKeepsEntries(s + [e], |s|);
  }

  // mixerDequeue takes exactly the entry it returns, s[0], out.
  lemma DequeueTakesOne(s: Heap)
    requires s != []
    ensures multiset(Dequeued(s)) + multiset{s[0]} == multiset(s)
  {
    var n := |s| - 1;
    if n == 0 {
      assert s == [s[0]];
    } else {
      BubbledDownKeepsEntries([s[n]] + s[1..n], 0);
      assert s == [s[0]] + s[1..n] + [s[n]];
    }
  }

  // ---------- Restoring the order ----------

  lemma {:induction false} FrontIsLeast(s: Heap, i: nat)
    requires HeapOrdered(s) && i < |s|
    ensures Prior(s[0]) <= Prior(s[i])
  {
    if i > 0 {
      assert EdgeInOrder(s, i);
      FrontIsLeast(s, (i - 1) / 2);
    }
  }

  lemma {:induction false} BubbledDownRestores(s: Heap, pos: nat)
    requires pos < |s| && OrderedBelow(s, pos)
    ensures HeapOrdered(BubbledDown(s, pos))
    decreases |s| - pos
  {
    var t := DownTarget(s, pos);
    if t == pos {
      forall c: nat ensures EdgeInOrder(s, c) {
        if (c - 1) / 2 == pos {
          assert c == (pos + 1) * 2 - 1 || c == (pos + 1) * 2;
        }
      }
    } else {
      var u := Swapped(s, pos, t);
      forall c: nat ensures (c - 1) / 2 != t ==> EdgeInOrder(u, c) {
        if (c - 1) / 2 == pos {
          assert c == (pos + 1) * 2 - 1 || c == (pos + 1) * 2;
        } else {
          assert EdgeInOrder(s, c);
          assert GrandchildInOrder(s, pos, t);
        }
      }
      forall c: nat ensures GrandchildInOrder(u, t, c) {
        if (c - 1) / 2 == t {
          assert EdgeInOrder(s, c);
        }
      }
      BubbledDownRestores(u, t);
    }
  }

  lemma {:induction false} BubbledUpByChildrenRestores(s: Heap, pos: nat)
    requires pos < |s| && OrderedAbove(s, pos)
    ensures HeapOrdered(BubbledUpByChildren(s, pos))
    decreases pos
  {
    if pos > 0 && Prior(s[(pos - 1) / 2]) > Prior(s[pos]) {
      var p := (pos - 1) / 2;
      var u := Swapped(s, p, pos);
      forall c: nat ensures c != p ==> EdgeInOrder(u, c) {
        if c != pos {
          assert EdgeInOrder(s, c);
          assert GrandchildInOrder(s, pos, c);
        }
      }
      forall c: nat ensures GrandchildInOrder(u, p, c) {
        assert EdgeInOrder(s, p);
        if c != pos {
          assert EdgeInOrder(s, c);
        }
      }
      BubbledUpByChildrenRestores(u, p);
    } else {
      forall c: nat ensures EdgeInOrder(s, c) {
      }
    }
  }

  lemma AppendIsOrderedAbove(s: Heap, e: EngineEvent)
    requires HeapOrdered(s)
    ensures OrderedAbove(s + [e], |s|)
  {
    forall c: nat ensures c != |s| ==> EdgeInOrder(s + [e], c) {
      assert EdgeInOrder(s, c);
    }
    forall c: nat ensures GrandchildInOrder(s + [e], |s|, c) {
    }
  }

  lemma EnqueueByChildrenKeepsOrder(s: Heap, e: EngineEvent)
    requires HeapOrdered(s)
    ensures HeapOrdered(EnqueuedByChildren(s, e))
  {
    AppendIsOrderedAbove(s, e);
    BubbledUpByChildrenRestores(s + [e], |s|);
  }

  // mixerDequeue hands out a least entry and leaves the rest in order.
  lemma DequeueIsLeast(s: Heap)
    requires HeapOrdered(s) && s != []
    ensures IsLeast(s[0], s)
    ensures HeapOrdered(Dequeued(s))
  {
    forall i | 0 <= i < |s| ensures Prior(s[0]) <= Prior(s[i]) {
      FrontIsLeast(s, i);
    }
    var n := |s| - 1;
    if n > 0 {
      var t := [s[n]] + s[1..n];
      forall c: nat ensures (c - 1) / 2 != 0 ==> EdgeInOrder(t, c) {
        assert EdgeInOrder(s, c);
      }
      forall c: nat ensures GrandchildInOrder(t, 0, c) {
      }
      BubbledDownRestores(t, 0);
    }
  }

  // Everything the heap hands out when it is emptied.
  function Drained(s: Heap): (r: seq<EngineEvent>)
    ensures |r| == |s|
    decreases |s|
  {
    if s == [] then [] else [s[0]] + Drained(Dequeued(s))
  }

  lemma {:induction false} DrainKeepsEntries(s: Heap)
    ensures multiset(Drained(s)) == multiset(s)
    decreases |s|
  {
    if s != [] {
      DequeueTakesOne(s);
      DrainKeepsEntries(Dequeued(s));
    }
  }

  lemma FirstDrainedIsLeast(s: Heap)
    requires s != [] && IsLeast(s[0], s)
    ensures forall j :: 0 <= j < |s| - 1 ==> Prior(s[0]) <= Prior(Drained(Dequeued(s))[j])
  {
    var rest := Drained(Dequeued(s));
    DrainKeepsEntries(Dequeued(s));
    DequeueTakesOne(s);
    forall j | 0 <= j < |rest| ensures Prior(s[0]) <= Prior(rest[j]) {
      assert rest[j] in multiset(rest);
      assert rest[j] in multiset(s);
    }
  }

  lemma {:induction false} DrainIsSorted(s: Heap)
    requires HeapOrdered(s)
    ensures forall i, j :: 0 <= i < j < |s| ==> Prior(Drained(s)[i]) <= Prior(Drained(s)[j])
    decreases |s|
  {
    if s != [] {
      DequeueIsLeast(s);
      DrainIsSorted(Dequeued(s));
      FirstDrainedIsLeast(s);
    }
  }

  // Equally urgent events are not served in the order in which they came: the last entry of the heap is
  // put in front, and stays there if it is as urgent as its children; otherwise the left child goes first.
  lemma EqualsOvertake(x: EngineEvent, a: EngineEvent, b: EngineEvent, c: EngineEvent)
    requires Prior(x) <= Prior(a) == Prior(b) < Prior(c)
    ensures Dequeued([x, a, b]) == [b, a]
    ensures Dequeued([x, a, b, c]) == [a, c, b]
  {
    assert BubbledDown([b, a], 0) == [b, a];
    var t := [c, a, b];
    assert [x, a, b, c][1..3] == [a, b] && [c] + [a, b] == t;
    assert DownTarget(t, 0) == 1 && Swapped(t, 0, 1) == [a, c, b];
    assert BubbledDown([a, c, b], 1) == [a, c, b];
  }

  // ---------- Whole runs of the heap ----------

  datatype HeapOp = Enq(e: EngineEvent) | Deq

  // Runs the operations; a dequeue of the empty heap, which the callers never ask for, does nothing.
  function RunByChildren(s: Heap, ops: seq<HeapOp>): Heap
    decreases |ops|
  {
    if ops == [] then s
    else
      var next := match ops[0]
        case Enq(e) => EnqueuedByChildren(s, e)
        case Deq => if s == [] then s else Dequeued(s);
      RunByChildren(next, ops[1..])
  }

  // After any operations from an ordered heap, the next dequeue is a least entry and emptying
  // the heap gives the entries in order of urgency.
  lemma {:induction false} EveryRunByChildrenServesTheMostUrgent(s: Heap, ops: seq<HeapOp>)
    requires HeapOrdered(s)
    ensures HeapOrdered(RunByChildren(s, ops))
    ensures var t := RunByChildren(s, ops); t != [] ==> IsLeast(t[0], t)
    ensures var d := Drained(RunByChildren(s, ops));
            forall i, j :: 0 <= i < j < |d| ==> Prior(d[i]) <= Prior(d[j])
    decreases |ops|
  {
    if ops == [] {
      if s != [] {
        DequeueIsLeast(s);
      }
      DrainIsSorted(s);
    } else {
      match ops[0]
      case Enq(e) =>
        EnqueueByChildrenKeepsOrder(s, e);
        EveryRunByChildrenServesTheMostUrgent(EnqueuedByChildren(s, e), ops[1..]);
      case Deq =>
        if s != [] {
          DequeueIsLeast(s);
          EveryRunByChildrenServesTheMostUrgent(Dequeued(s), ops[1..]);
        } else {
          EveryRunByChildrenServesTheMostUrgent(s, ops[1..]);
        }
    }
  }

  // ---------- The parent computed as written ----------

  // From any position but 0 the parents are ..., 2, 1, 1: slot 0 is never compared with.
  lemma {:induction false} BubbledUpLeavesFront(s: Heap, pos: nat)
    requires 0 < pos < |s|
    ensures BubbledUp(s, pos)[0] == s[0]
    decreases pos
  {
    var parent := (pos + 1) / 2;
    if Prior(s[parent]) > Prior(s[pos]) {
      BubbledUpLeavesFront(Swapped(s, parent, pos), parent);
    }
  }

  function EnqueuedAll(s: Heap, es: seq<EngineEvent>): (r: Heap)
    ensures |r| == |s| + |es|
    decreases |es|
  {
    if es == [] then s else EnqueuedAll(Enqueued(s, es[0]), es[1..])
  }

  lemma {:induction false} EnqueuedAllKeepsEntries(s: Heap, es: seq<EngineEvent>)
    ensures multiset(EnqueuedAll(s, es)) == multiset(s) + multiset(es)
    decreases |es|
  {
    if es != [] {
      assert es == [es[0]] + es[1..];
      EnqueueAddsOne(s, es[0]);
      EnqueuedAllKeepsEntries(Enqueued(s, es[0]), es[1..]);
    }
  }

  lemma {:induction false} EnqueuedAllLeavesFront(s: Heap, es: seq<EngineEvent>)
    requires s != []
    ensures EnqueuedAll(s, es)[0] == s[0]
    decreases |es|
  {
    if es != [] {
      BubbledUpLeavesFront(s + [es[0]], |s|);
      EnqueuedAllLeavesFront(Enqueued(s, es[0]), es[1..]);
    }
  }

  // The exact condition under which the heap still serves the most urgent entry next: every
  // newcomer must be no more urgent than the entry already in front.
  lemma NextServedIsLeastIff(s: Heap, es: seq<EngineEvent>)
    requires s != [] && IsLeast(s[0], s)
    ensures var t := EnqueuedAll(s, es);
            IsLeast(t[0], t) <==> forall i :: 0 <= i < |es| ==> Prior(s[0]) <= Prior(es[i])
  {
    var t := EnqueuedAll(s, es);
    EnqueuedAllLeavesFront(s, es);
    EnqueuedAllKeepsEntries(s, es);
    if IsLeast(t[0], t) {
      forall i | 0 <= i < |es| ensures Prior(s[0]) <= Prior(es[i]) {
        assert es[i] in multiset(es);
        assert es[i] in multiset(t);
        assert es[i] in t;
      }
    }
    if forall i :: 0 <= i < |es| ==> Prior(s[0]) <= Prior(es[i]) {
      forall i | 0 <= i < |t| ensures Prior(t[0]) <= Prior(t[i]) {
        assert t[i] in multiset(t);
        assert t[i] in multiset(s) || t[i] in multiset(es);
        assert t[i] in s || t[i] in es;
      }
    }
  }

  // Two events on an empty heap, priorities 5 then 3: the one served first is not the urgent one.
  lemma UrgentNewcomerWaits(late: EngineEvent, urgent: EngineEvent)
    requires Prior(late) == 5 && Prior(urgent) == 3
    ensures var t := Enqueued(Enqueued([], late), urgent);
            t[0] == late && !IsLeast(t[0], t) && !HeapOrdered(t)
    ensures EnqueuedByChildren(EnqueuedByChildren([], late), urgent)[0] == urgent
  {
    var one := Enqueued([], late);
    assert one == [late];
    var t := Enqueued(one, urgent);
    assert t == [late, urgent];
    assert Prior(t[1]) < Prior(t[0]);
    assert !EdgeInOrder(t, 1);
    assert EnqueuedByChildren([], late) == [late];
    assert BubbledUpByChildren([late, urgent], 1) == BubbledUpByChildren(Swapped([late, urgent], 0, 1), 0);
  }

  // The order that bubbleUp as written does keep: slot 0 apart, a heap rooted in slot 1.
  ghost predicate UpEdgeInOrder(s: Heap, c: nat) {
    2 <= c < |s| ==> Prior(s[(c + 1) / 2]) <= Prior(s[c])
  }

  ghost predicate UpOrdered(s: Heap) {
    forall c: nat :: UpEdgeInOrder(s, c)
  }

  ghost predicate UpOrderedAbove(s: Heap, pos: nat) {
    && (forall c: nat :: c != pos ==> UpEdgeInOrder(s, c))
    && (forall c: nat :: 2 <= pos < c < |s| && (c + 1) / 2 == pos ==> Prior(s[(pos + 1) / 2]) <= Prior(s[c]))
  }

  lemma {:induction false} BubbledUpKeepsUpOrder(s: Heap, pos: nat)
    requires pos < |s| && UpOrderedAbove(s, pos)
    ensures UpOrdered(BubbledUp(s, pos))
    decreases pos
  {
    var p := (pos + 1) / 2;
    if Prior(s[p]) > Prior(s[pos]) {
      var u := Swapped(s, p, pos);
      forall c: nat ensures c != p ==> UpEdgeInOrder(u, c) {
        if c != pos {
          assert UpEdgeInOrder(s, c);
        }
      }
      forall c: nat | 2 <= p < c < |u| && (c + 1) / 2 == p ensures Prior(u[(p + 1) / 2]) <= Prior(u[c]) {
        assert UpEdgeInOrder(s, p);
        if c != pos {
          assert UpEdgeInOrder(s, c);
        }
      }
      BubbledUpKeepsUpOrder(u, p);
    } else {
      forall c: nat ensures UpEdgeInOrder(s, c) {
      }
    }
  }

  lemma {:induction false} EnqueuedAllKeepsUpOrder(s: Heap, es: seq<EngineEvent>)
    requires UpOrdered(s)
    ensures UpOrdered(EnqueuedAll(s, es))
    decreases |es|
  {
    if es != [] {
      var t := s + [es[0]];
      forall c: nat ensures c != |s| ==> UpEdgeInOrder(t, c) {
        assert UpEdgeInOrder(s, c);
      }
      BubbledUpKeepsUpOrder(t, |s|);
      EnqueuedAllKeepsUpOrder(Enqueued(s, es[0]), es[1..]);
    }
  }

  lemma {:induction false} SlotOneIsLeast(s: Heap, i: nat)
    requires UpOrdered(s) && 1 <= i < |s|
    ensures Prior(s[1]) <= Prior(s[i])
  {
    if i > 1 {
      assert UpEdgeInOrder(s, i);
      SlotOneIsLeast(s, (i + 1) / 2);
    }
  }

  lemma {:induction false} BubbledDownFront(s: Heap, pos: nat)
    requires 0 < pos < |s|
    ensures BubbledDown(s, pos)[0] == s[0]
    decreases |s| - pos
  {
    var t := DownTarget(s, pos);
    if t != pos {
      BubbledDownFront(Swapped(s, pos, t), t);
    }
  }

  // What the heap as written serves out of a burst: first the event that came first, whatever its
  // priority, and then a least one of all the others.
  lemma BurstServesFirstComerThenLeast(first: EngineEvent, es: seq<EngineEvent>)
    requires es != []
    ensures var t := EnqueuedAll([first], es);
            t[0] == first && multiset(Dequeued(t)) == multiset(es) && IsLeast(Dequeued(t)[0], Dequeued(t))
  {
    var t := EnqueuedAll([first], es);
    EnqueuedAllLeavesFront([first], es);
    EnqueuedAllKeepsUpOrder([first], es);
    EnqueuedAllKeepsEntries([first], es);
    DequeueTakesOne(t);
    CancelOne(multiset(Dequeued(t)), multiset(es), first);
    SecondServedIsLeast(t);
  }

  lemma CancelOne(a: multiset<EngineEvent>, b: multiset<EngineEvent>, e: EngineEvent)
    requires a + multiset{e} == multiset{e} + b
    ensures a == b
  {
    assert a == a + multiset{e} - multiset{e};
    assert b == multiset{e} + b - multiset{e};
  }

  lemma SecondServedIsLeast(t: Heap)
    requires |t| >= 2 && UpOrdered(t)
    ensures IsLeast(Dequeued(t)[0], Dequeued(t))
  {
    var d := Dequeued(t);
    var m := [t[|t| - 1]] + t[1..|t| - 1];
    FrontAfterSettling(t, m);
    BubbledDownKeepsEntries(m, 0);
    forall i | 0 <= i < |d| ensures Prior(d[0]) <= Prior(d[i]) {
      assert d[i] in multiset(m);
      var k :| 0 <= k < |m| && m[k] == d[i];
      SlotOneIsLeast(t, if k == 0 then |t| - 1 else k);
    }
  }

  lemma FrontAfterSettling(t: Heap, m: Heap)
    requires |t| >= 2 && UpOrdered(t)
    requires m == [t[|t| - 1]] + t[1..|t| - 1]
    ensures Prior(BubbledDown(m, 0)[0]) == Prior(t[1])
  {
    var n := |t| - 1;
    SlotOneIsLeast(t, n);
    if n >= 3 {
      SlotOneIsLeast(t, 2);
    }
    var k := DownTarget(m, 0);
    if k != 0 {
      BubbledDownFront(Swapped(m, 0, k), k);
    }
  }

  // The code as written is a correct queue as long as nobody overtakes: if every event that arrives
  // is no more urgent than everything waiting, the heap order holds throughout.
  function RunAsWritten(s: Heap, ops: seq<HeapOp>): Heap
    decreases |ops|
  {
    if ops == [] then s else RunAsWritten(StepAsWritten(s, ops[0]), ops[1..])
  }

  function StepAsWritten(s: Heap, op: HeapOp): Heap {
    match op
    case Enq(e) => Enqueued(s, e)
    case Deq => if s == [] then s else Dequeued(s)
  }

  ghost predicate NobodyOvertakes(s: Heap, ops: seq<HeapOp>)
    decreases |ops|
  {
    ops == [] || (
      && (ops[0].Enq? ==> forall i :: 0 <= i < |s| ==> Prior(s[i]) <= Prior(ops[0].e))
      && NobodyOvertakes(StepAsWritten(s, ops[0]), ops[1..]))
  }

  lemma LastComerStaysLast(s: Heap, e: EngineEvent)
    requires HeapOrdered(s) && forall i :: 0 <= i < |s| ==> Prior(s[i]) <= Prior(e)
    ensures Enqueued(s, e) == s + [e] && HeapOrdered(s + [e])
  {
    forall c: nat ensures EdgeInOrder(s + [e], c) {
      assert EdgeInOrder(s, c);
    }
  }

  lemma {:induction false} OrderlyArrivalsAreServedInOrder(s: Heap, ops: seq<HeapOp>)
    requires HeapOrdered(s) && NobodyOvertakes(s, ops)
    ensures HeapOrdered(RunAsWritten(s, ops))
    ensures var t := RunAsWritten(s, ops); t != [] ==> IsLeast(t[0], t)
    decreases |ops|
  {
    if s != [] {
      DequeueIsLeast(s);
    }
    if ops != [] {
      if ops[0].Enq? {
        LastComerStaysLast(s, ops[0].e);
      }
      OrderlyArrivalsAreServedInOrder(StepAsWritten(s, ops[0]), ops[1..]);
    }
  }

  lemma BubbledUpStep(s: Heap, pos: nat, t: nat)
    requires pos < |s| && t == UpTarget(s, pos) && t != pos
    ensures BubbledUp(s, pos) == BubbledUp(Swapped(s, t, pos), t)
  {
  }

  lemma SettledStep(s: Heap, pos: nat, t: nat)
    requires pos < |s| && t == DownTarget(s, pos) && t != pos
    ensures Settled(s, pos) == Settled(Swapped(s, pos, t), t)
  {
  }

  lemma LastChildSettles(s: Heap, pos: nat)
    requires (pos + 1) * 2 == |s| && Prior(s[|s| - 1]) < Prior(s[pos])
    ensures BubbledDown(s, pos) == Swapped(s, pos, |s| - 1)
  {
    assert DownTarget(s, pos) == |s| - 1;
    assert DownTarget(Swapped(s, pos, |s| - 1), |s| - 1) == |s| - 1;
  }

  // ---------- The array ----------

  class MixerHeap {
    const heap: array<EngineEvent>
    var top: nat

    ghost predicate Valid()
      reads this
    {
      top <= heap.Length
    }

    ghost function Contents(): Heap
      requires Valid()
      reads this, heap
    {
      heap[..top]
    }

    // mixerQueueInit
    constructor (queueSize: nat)
      ensures Valid() && fresh(heap) && heap.Length == queueSize && Contents() == []
    {
      heap := new EngineEvent[queueSize](_ => EngineEvent(Event(EVENT_T, 0, 0, 0, 0, 0, []), 0.0));
      top := 0;
    }

    predicate IsEmpty()
      reads this
    {
      top == 0
    }

    predicate IsFull()
      reads this
    {
      top == heap.Length
    }

    // Exchanges two entries of the heap heap[..n].
    method Swap(i: nat, j: nat, ghost n: nat)
      requires i < n && j < n && n <= heap.Length
      modifies heap
      ensures heap[..n] == Swapped(old(heap[..n]), i, j)
    {
      var temp := heap[i];
      heap[i] := heap[j];
      heap[j] := temp;
    }

    // The entry at `start` is the last one, so the heap is heap[..start + 1]. The arm for a negative
    // parent is left out: (pos + 1) / 2 is never negative.
    method BubbleUp(start: nat)
      requires start < heap.Length
      modifies heap
      ensures heap[..start + 1] == BubbledUp(old(heap[..start + 1]), start)
    {
      ghost var n := start + 1;
      ghost var s := heap[..n];
      var pos: nat := start;
      var done := false;
      while !done
        invariant pos <= start && s == heap[..n]
        invariant BubbledUp(s, pos) == BubbledUp(old(heap[..start + 1]), start)
        invariant done ==> UpTarget(s, pos) == pos
        decreases pos, !done
      {
        var parent := (pos + 1) / 2;
        if parent == 0 {
          done := true;
        }
        if Prior(heap[parent]) > Prior(heap[pos]) {
          Swap(parent, pos, n);
          BubbledUpStep(s, pos, parent);
          s := heap[..n];
          pos := parent;
        } else {
          done := true;
        }
      }
    }

    method BubbleDown(start: nat)
      requires Valid()
      modifies heap
      ensures heap[..top] == Settled(old(heap[..top]), start)
    {
      ghost var s := heap[..top];
      var pos: nat := start;
      var done := false;
      while !done
        invariant s == heap[..top]
        invariant if done then s == Settled(old(heap[..top]), start)
                  else Settled(s, pos) == Settled(old(heap[..top]), start)
        decreases if pos < top then top - pos else 0, !done
      {
        var lchild := (pos + 1) * 2 - 1;
        var rchild := (pos + 1) * 2;
        if lchild < top && rchild < top {
          if Prior(heap[lchild]) <= Prior(heap[rchild]) && Prior(heap[lchild]) < Prior(heap[pos]) {
            Swap(pos, lchild, top);
            SettledStep(s, pos, lchild);
            s := heap[..top];
            pos := lchild;
          } else if Prior(heap[rchild]) <= Prior(heap[lchild]) && Prior(heap[rchild]) < Prior(heap[pos]) {
            Swap(pos, rchild, top);
            SettledStep(s, pos, rchild);
            s := heap[..top];
            pos := rchild;
          } else {
            done := true;
          }
        } else if lchild < top {
          done := true;
          if Prior(heap[lchild]) < Prior(heap[pos]) {
            Swap(pos, lchild, top);
            LastChildSettles(s, pos);
            s := heap[..top];
            pos := lchild;
          }
        } else {
          done := true;
        }
      }
    }

    // mixerEnqueue: the caller has asked mixerQueueFull first.
    method Enqueue(e: EngineEvent)
      requires Valid() && !IsFull()
      modifies this, heap
      ensures Valid() && Contents() == Enqueued(old(Contents()), e)
    {
      heap[top] := e;
      assert heap[..top + 1] == old(Contents()) + [e];
      BubbleUp(top);
      top := top + 1;
    }

    // mixerDequeue: the caller has asked mixerQueueEmpty first.
    method Dequeue() returns (res: EngineEvent)
      requires Valid() && !IsEmpty()
      modifies this, heap
      ensures Valid()
      ensures res == old(Contents())[0] && Contents() == Dequeued(old(Contents()))
    {
      ghost var s := Contents();
      res := heap[0];
      top := top - 1;
      heap[0] := heap[top];
      assert top > 0 ==> heap[..top] == [s[top]] + s[1..top];
      BubbleDown(0);
    }
  }
}
