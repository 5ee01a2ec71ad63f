/**
 * The lease list as the server keeps it: nodes linked by pointers and changed in place
 * (server/udp_server.c:298-554), and the nodes that have been freed. A purge reads and writes nodes that
 * it has just freed; they are taken to keep their contents until it ends.
 */
module LeaseTable {
  import opened Leases

  class Node {
    var host: int
    var port: int
    var expired: int
    var nextent: Node?

    // calloc
    constructor ()
      ensures host == 0 && port == 0 && expired == 0 && nextent == null
    {
      host, port, expired := 0, 0, 0;
      nextent := null;
    }
  }

  class Table {
    var hlhead: Node?
    ghost var nodes: seq<Node>
    ghost var freed: set<Node>

    // The links from the head lead through `nodes` to null.
    ghost predicate Linked()
      reads this, nodes
    {
      && Distinct(nodes)
      && hlhead == Ref(nodes, 0)
      && forall i {:trigger nodes[i].nextent} :: 0 <= i < |nodes| ==> nodes[i].nextent == Ref(nodes, i + 1)
    }

    // And none of those has been freed.
    ghost predicate Valid()
      reads this, nodes
    {
      Linked() && forall i :: 0 <= i < |nodes| ==> nodes[i] !in freed
    }

    ghost function Contents(): (s: LeaseList)
      requires Linked()
      reads this, nodes
      ensures |s| == |nodes|
    {
      Values(nodes)
    }

    constructor ()
      ensures Valid() && Contents() == []
    {
      hlhead := null;
      nodes := [];
      freed := {};
    }

    // serverFindLeaseEntry
    method FindLeaseEntry(host: int, port: int) returns (p: Node?, ghost k: nat)
      requires Valid()
      ensures k == FindEntry(Contents(), host, port)
      ensures p == Ref(nodes, FindEntry(Contents(), host, port))
    {
      p := hlhead;
      k := 0;
      while p != null
        invariant k <= |nodes| && p == Ref(nodes, k)
        invariant forall i :: 0 <= i < k ==> !(nodes[i].host == host && nodes[i].port == port)
        decreases |nodes| - k
      {
        if p.host == host && p.port == port {
          FindEntryIs(Contents(), host, port, k);
          return;
        }
        p := p.nextent;
        k := k + 1;
      }
      FindEntryIs(Contents(), host, port, k);
    }

    // The new last entry, with host and port to be set.
    method Append() returns (p: Node)
      requires Valid()
      modifies this, nodes
      ensures Valid() && nodes == old(nodes) + [p] && fresh(p)
      ensures forall i :: 0 <= i < |old(nodes)| ==> Value(nodes[i]) == old(Value(nodes[i]))
      ensures p.expired == 0
    {
      if hlhead == null {
        p := new Node();
        hlhead := p;
      } else {
        var last: Node := hlhead;
        ghost var k := 0;
        while last.nextent != null
          invariant 0 <= k < |nodes| && last == nodes[k]
          decreases |nodes| - k
        {
          last := last.nextent;
          k := k + 1;
        }
        p := new Node();
        last.nextent := p;
      }
      nodes := nodes + [p];
    }

    // serverAddLeaseEntry
    method AddLeaseEntry(host: int, port: int) returns (p: Node)
      requires Valid()
      modifies this, nodes
      ensures Valid() && nodes == old(nodes) + [p] && fresh(p)
      ensures Contents() == old(Contents()) + [Lease(host, port, 0)]
    {
      p := Append();
      p.host := host;
      p.port := port;
    }

    method Renew(p: Node, ghost k: nat, now: int)
      requires Valid() && k < |nodes| && p == nodes[k]
      modifies p`expired
      ensures Valid() && Contents() == old(Contents())[k := old(Contents())[k].(expired := now + CLIENT_LEASE)]
    {
      p.expired := now + CLIENT_LEASE;
    }

    // serverAddClient, up to the packets it sends.
    method AddClient(host: int, port: int, now: int)
      requires Valid()
      modifies this, nodes
      ensures Valid() && Contents() == Added(old(Contents()), host, port, now)
    {
      hide FindEntry;
      var lease, k := FindLeaseEntry(host, port);
      if lease == null {
        lease := AddLeaseEntry(host, port);
      }
      Renew(lease, k, now);
    }

    // serverUpdateClient
    method UpdateClient(host: int, now: int)
      requires Valid()
      modifies nodes
      ensures Valid() && Contents() == Updated(old(Contents()), host, now)
    {
      var p := hlhead;
      ghost var k := 0;
      while p != null
        invariant 0 <= k <= |nodes| && p == Ref(nodes, k)
        invariant Valid() && Contents() == old(Contents())
        invariant forall i :: 0 <= i < k ==> nodes[i].host != host
        decreases |nodes| - k
      {
        if host == p.host {
          FindHostIs(Contents(), host, k);
          Renew(p, k, now);
          return;
        }
        p := p.nextent;
        k := k + 1;
      }
      FindHostIs(Contents(), host, k);
    }

    // serverPurgeHostList. Every expired node is freed. The list is linked to no freed node exactly if,
    // behind the expired nodes at the head, no two neighbours have expired.
    method PurgeHostList(now: int)
      requires Valid()
      modifies this, nodes
      ensures Linked() && Contents() == Purged(old(Contents()), now)
      ensures freed == old(freed + ExpiredNodes(nodes, now))
      ensures Valid() <==> !ExpiredNeighbours(WithoutHead(old(Contents()), now), now)
    {
      hide Purged, Skipped, WithoutHead, Kept, ExpiredNeighbours;
      ghost var ns, s, before := nodes, Contents(), freed;
      AllAmong(ns, s, now);
      UntouchedLinks(ns, s, now);
      ghost var h := UnlinkExpired(ns, s, now);
      KeptIs(s, h, now);
      ChosenIsLinked(ns, s, h, now);
      ChosenValues(ns, s, h, now);
      PurgedFrom(s, h, now);
      nodes := Chosen(ns, Kept(s, h, now));
      PurgedHasNoExpiredIff(s, now);
      FreedIsExpired(ns, s, before, nodes, now);
    }

    // Its loop: h entries are taken off the head, and behind the rest the expired ones are unlinked.
    method UnlinkExpired(ghost ns: seq<Node>, ghost s: LeaseList, now: int) returns (ghost h: nat)
      requires Distinct(ns) && hlhead == Ref(ns, 0) && SameValues(ns, s) && LinkedFrom(ns, s, 0, 0, now)
      modifies this`hlhead, this`freed, ns
      ensures h <= |ns| == |s| && hlhead == Ref(ns, h)
      ensures forall k :: 0 <= k < h ==> Expired(s[k], now)
      ensures h < |ns| ==> !Expired(s[h], now)
      ensures SameValues(ns, s) && LinkedFrom(ns, s, h, |ns|, now)
      ensures freed == old(freed) + ExpiredAmong(ns, s, |ns|, now)
    {
      hide LinkedFrom, SameValues, ExpiredAmong;
      SameLength(ns, s);
      ghost var gone: set<Node> := {};
      var p, q := hlhead, null;
      ghost var i: nat := 0;
      h := 0;
      while p != null
        invariant 0 <= h <= i <= |ns| && p == Ref(ns, i) && hlhead == Ref(ns, h)
        invariant forall k :: 0 <= k < h ==> Expired(s[k], now)
        invariant h < i ==> !Expired(s[h], now) && q == ns[i - 1]
        invariant SameValues(ns, s) && LinkedFrom(ns, s, h, i, now)
        invariant gone == ExpiredAmong(ns, s, i, now)
        modifies this`hlhead, ns
        decreases |ns| - i
      {
        LinkAhead(ns, s, h, i, now);
        OneMoreAmong(ns, s, i, now);
        if p.expired <= now {
          gone := gone + {ns[i]};
          if p == hlhead {
            p := p.nextent;
            hlhead := p;
            h, i := h + 1, i + 1;
            continue;
          } else {
            Unlink(q, p, ns, s, h, i, now);
          }
        }
        q := p;
        p := p.nextent;
        i := i + 1;
      }
      freed := freed + gone;
    }

    // The purge with the pointer q left on the last node that stays: the list holds exactly the live
    // leases, in order, and no freed node.
    method PurgeBehindKept(now: int)
      requires Valid()
      modifies this, nodes
      ensures Valid() && Contents() == Live(old(Contents()), now)
      ensures freed == old(freed + ExpiredNodes(nodes, now))
    {
      ghost var ns, s := nodes, Contents();
      AllAmong(ns, s, now);
      NothingPurged(ns, s, now);
      PurgeStarts(ns, s);
      hide PurgedUpTo, PurgePoint, Live, ExpiredNodes;
      ghost var q, k, nds, c, i, gone := RemoveExpired(ns, s, now);
      PurgeEnds(q, k, ns, nds, c);
      AllPurged(ns, s, nds, c, k, i, gone, now);
    }

    // Its loop.
    method RemoveExpired(ghost ns: seq<Node>, ghost s: LeaseList, now: int)
      returns (ghost before: Node?, ghost k: nat, ghost nds: seq<Node>, ghost c: LeaseList,
        ghost i: nat, ghost gone: set<Node>)
      requires PurgePoint(hlhead, null, 0, ns, ns, s) && PurgedUpTo(ns, s, ns, s, 0, 0, {}, now)
      modifies this, ns
      ensures PurgePoint(null, before, k, ns, nds, c) && PurgedUpTo(ns, s, nds, c, k, i, gone, now)
      ensures freed == old(freed) + gone
    {
      hide PurgedUpTo, PurgePoint, Without;
      var p, q := hlhead, null;
      nds, c, k, i, gone := ns, s, 0, 0, {};
      while p != null
        invariant PurgePoint(p, q, k, ns, nds, c)
        invariant PurgedUpTo(ns, s, nds, c, k, i, gone, now)
        invariant freed == old(freed) + gone
        decreases |nds| - k
      {
        NodeAt(p, q, k, ns, nds, c);
        StepKeeps(ns, s, nds, c, k, i, gone, now);
        if p.expired <= now {
          gone := gone + {nds[k]};
          p := Remove(p, q, k, ns, nds, c);
          nds, c := Without(nds, k), Without(c, k);
        } else {
          p, q, k := p.nextent, p, k + 1;
        }
        i := i + 1;
      }
      before := q;
    }

    // The list is `nds` with the values `c`; the purge stands at p, its k-th node, and q is the one
    // before it.
    ghost predicate PurgePoint(p: Node?, q: Node?, k: nat, ns: seq<Node>, nds: seq<Node>, c: LeaseList)
      reads this, nodes
    {
      && Valid() && nodes == nds && Contents() == c && k <= |nds| == |c| && p == Ref(nds, k)
      && q == (if k == 0 then null else nds[k - 1]) && (q != null ==> q in ns)
    }

    lemma PurgeStarts(ns: seq<Node>, s: LeaseList)
      requires Valid() && nodes == ns && Contents() == s
      ensures PurgePoint(hlhead, null, 0, ns, ns, s)
    {
    }

    lemma PurgeEnds(q: Node?, k: nat, ns: seq<Node>, nds: seq<Node>, c: LeaseList)
      requires PurgePoint(null, q, k, ns, nds, c)
      ensures Valid() && Contents() == c && k == |nds|
    {
    }

    lemma NodeAt(p: Node, q: Node?, k: nat, ns: seq<Node>, nds: seq<Node>, c: LeaseList)
      requires PurgePoint(p, q, k, ns, nds, c)
      ensures k < |nds| == |c| && p == nds[k] && p.expired == c[k].expired && (q != null ==> q in ns)
      ensures p in ns ==> PurgePoint(p.nextent, p, k + 1, ns, nds, c)
    {
    }

    // Takes p, which follows q, out of the list and frees it.
    method Remove(p: Node, q: Node?, ghost k: nat, ghost ns: seq<Node>, ghost nds: seq<Node>, ghost c: LeaseList)
      returns (next: Node?)
      requires PurgePoint(p, q, k, ns, nds, c) && k < |nds|
      modifies this, (if q == null then {} else {q})`nextent
      ensures PurgePoint(next, q, k, ns, Without(nds, k), Without(c, k))
      ensures freed == old(freed) + {nds[k]}
    {
      hide Without, Distinct;
      WithoutAt(nds, k);
      WithoutAt(c, k);
      NodesDiffer(nds, k);
      next := p.nextent;
      if p == hlhead {
        hlhead := next;
      } else {
        q.nextent := next;
      }
      freed := freed + {p};
      nodes := Without(nds, k);
      assert forall j :: 0 <= j < |nds| ==> Value(nds[j]) == c[j];
    }
  }

  function Without<T>(a: seq<T>, k: nat): (r: seq<T>)
    requires k < |a|
    ensures |r| == |a| - 1
  {
    a[..k] + a[k + 1..]
  }

  lemma WithoutAt<T>(a: seq<T>, k: nat)
    requires k < |a|
    ensures forall m :: 0 <= m < |a| - 1 ==> Without(a, k)[m] == a[if m < k then m else m + 1]
  {
  }

  lemma NodesDiffer(ns: seq<Node>, k: nat)
    requires Distinct(ns) && k < |ns|
    ensures Distinct(Without(ns, k))
    ensures forall m :: 0 <= m < |ns| && m != k ==> ns[m] != ns[k]
    ensures k > 0 ==> forall m :: 0 <= m < |ns| && m != k - 1 ==> ns[m] != ns[k - 1]
  {
  }

  // Of the list `ns` with the values `s` the first i nodes have been looked at, k of them stay, and the
  // others are gone; `nds` with the values `c` is the list now.
  ghost predicate PurgedUpTo(ns: seq<Node>, s: LeaseList, nds: seq<Node>, c: LeaseList, k: nat, i: nat,
                             gone: set<Node>, now: int) {
    && i <= |ns| == |s| && k <= |nds| == |c|
    && nds[k..] == ns[i..] && c[k..] == s[i..]
    && c[..k] + Live(c[k..], now) == Live(s, now)
    && gone == ExpiredAmong(ns, s, i, now)
  }

  lemma NothingPurged(ns: seq<Node>, s: LeaseList, now: int)
    requires |ns| == |s|
    ensures PurgedUpTo(ns, s, ns, s, 0, 0, {}, now)
  {
    assert s[..0] + Live(s[0..], now) == Live(s[0..], now) && s[0..] == s;
  }

  lemma StepKeeps(ns: seq<Node>, s: LeaseList, nds: seq<Node>, c: LeaseList, k: nat, i: nat, gone: set<Node>, now: int)
    requires PurgedUpTo(ns, s, nds, c, k, i, gone, now) && k < |nds|
    ensures nds[k] in ns
    ensures if Expired(c[k], now)
            then PurgedUpTo(ns, s, Without(nds, k), Without(c, k), k, i + 1, gone + {nds[k]}, now)
            else PurgedUpTo(ns, s, nds, c, k + 1, i + 1, gone, now)
  {
    SuffixStep(nds, k, ns, i);
    SuffixStep(c, k, s, i);
    LiveFrom(c, k, now);
    OneMoreAmong(ns, s, i, now);
    if Expired(c[k], now) {
      SuffixOfWithout(nds, k);
      SuffixOfWithout(c, k);
    }
  }

  lemma AllPurged(ns: seq<Node>, s: LeaseList, nds: seq<Node>, c: LeaseList, k: nat, i: nat, gone: set<Node>, now: int)
    requires PurgedUpTo(ns, s, nds, c, k, i, gone, now) && k == |nds|
    ensures c == Live(s, now) && gone == ExpiredAmong(ns, s, |ns|, now)
  {
    assert |ns[i..]| == 0;
    assert c[..k] == c && c[k..] == [];
    assert c + Live([], now) == c;
  }

  lemma SuffixStep<T>(a: seq<T>, k: nat, b: seq<T>, i: nat)
    requires k < |a| && i <= |b| && a[k..] == b[i..]
    ensures i < |b| && a[k] == b[i] && a[k + 1..] == b[i + 1..]
  {
    assert a[k..][0] == b[i..][0] && a[k..][1..] == b[i..][1..];
  }

  lemma SuffixOfWithout<T>(a: seq<T>, k: nat)
    requires k < |a|
    ensures Without(a, k)[..k] == a[..k] && Without(a, k)[k..] == a[k + 1..]
  {
  }

  lemma LiveFrom(s: LeaseList, k: nat, now: int)
    requires k < |s|
    ensures s[..k] + Live(s[k..], now)
            == if Expired(s[k], now) then s[..k] + Live(s[k + 1..], now) else s[..k + 1] + Live(s[k + 1..], now)
  {
    assert s[k..][1..] == s[k + 1..];
    assert s[..k + 1] == s[..k] + [s[k]];
  }

  // The nodes whose lease has expired.
  ghost function ExpiredNodes(ns: seq<Node>, now: int): set<Node>
    reads ns
  {
    set n | n in ns && Expired(Value(n), now)
  }

  // Of the first i nodes those with an expired value in `s`.
  ghost function ExpiredAmong(ns: seq<Node>, s: LeaseList, i: nat, now: int): (r: set<Node>)
    requires i <= |ns| == |s|
    ensures i == 0 ==> r == {}
  {
    set k | 0 <= k < i && Expired(s[k], now) :: ns[k]
  }

  lemma OneMoreAmong(ns: seq<Node>, s: LeaseList, i: nat, now: int)
    requires i < |ns| == |s|
    ensures ExpiredAmong(ns, s, i + 1, now) == ExpiredAmong(ns, s, i, now) + if Expired(s[i], now) then {ns[i]} else {}
  {
  }

  // Takes p, which follows q, out of the list.
  method Unlink(q: Node, p: Node, ghost ns: seq<Node>, ghost s: LeaseList, ghost h: nat, ghost i: nat, ghost now: int)
    requires Distinct(ns) && SameValues(ns, s) && LinkedFrom(ns, s, h, i, now)
    requires h < i < |ns| && q == ns[i - 1] && p == ns[i] && Expired(s[i], now)
    modifies q`nextent
    ensures SameValues(ns, s) && LinkedFrom(ns, s, h, i + 1, now)
    ensures p.nextent == old(p.nextent)
  {
    q.nextent := p.nextent;
  }

  lemma AllAmong(ns: seq<Node>, s: LeaseList, now: int)
    requires s == Values(ns)
    ensures ExpiredAmong(ns, s, |ns|, now) == ExpiredNodes(ns, now)
  {
  }

  // Nodes of the list are freed exactly if they have expired.
  lemma FreedIsExpired(ns: seq<Node>, s: LeaseList, before: set<Node>, c: seq<Node>, now: int)
    requires SameValues(ns, s)
    requires (forall n :: n in ns ==> n !in before) && forall n :: n in c ==> n in ns
    ensures forall i :: 0 <= i < |c| ==>
              (c[i] in before + ExpiredAmong(ns, s, |ns|, now) <==> Expired(Values(c)[i], now))
  {
    forall n | n in c ensures n in before + ExpiredAmong(ns, s, |ns|, now) <==> Expired(Value(n), now) {
      var k :| 0 <= k < |ns| && ns[k] == n;
      assert Value(ns[k]) == s[k];
    }
  }

  lemma SameLength(ns: seq<Node>, s: LeaseList)
    requires SameValues(ns, s)
    ensures |ns| == |s|
  {
  }

  lemma UntouchedLinks(ns: seq<Node>, s: LeaseList, now: int)
    requires s == Values(ns)
    requires forall i {:trigger ns[i].nextent} :: 0 <= i < |ns| ==> ns[i].nextent == Ref(ns, i + 1)
    ensures SameValues(ns, s) && LinkedFrom(ns, s, 0, 0, now)
  {
  }

  lemma LinkAhead(ns: seq<Node>, s: LeaseList, h: nat, i: nat, now: int)
    requires SameValues(ns, s) && LinkedFrom(ns, s, h, i, now) && h <= i < |ns|
    ensures ns[i].expired == s[i].expired && ns[i].nextent == Ref(ns, i + 1)
    ensures !Expired(s[i], now) ==> LinkedFrom(ns, s, h, i + 1, now)
    ensures h == i ==> LinkedFrom(ns, s, h + 1, i + 1, now)
  {
  }

  ghost predicate SameValues(ns: seq<Node>, s: LeaseList)
    reads ns
  {
    |ns| == |s| && forall k :: 0 <= k < |ns| ==> Value(ns[k]) == s[k]
  }

  // When the loop stands at entry i, the links before it lead past expired entries; the link to it and
  // those behind are as they were.
  ghost predicate LinkedFrom(ns: seq<Node>, s: LeaseList, h: nat, i: nat, now: int)
    reads ns
  {
    forall k {:trigger ns[k].nextent} :: h <= k < |ns| ==>
      ns[k].nextent == Ref(ns, if k < i - 1 then k + StrideAt(s, k, now) else k + 1)
  }

  lemma ChosenIsLinked(ns: seq<Node>, s: LeaseList, h: nat, now: int)
    requires |ns| == |s| && h <= |s| && Distinct(ns) && LinkedFrom(ns, s, h, |ns|, now)
    ensures var c := Kept(s, h, now);
            && (forall i :: 0 <= i < |c| ==> c[i] < |ns|)
            && Distinct(Chosen(ns, c)) && Ref(Chosen(ns, c), 0) == Ref(ns, h)
            && (forall n :: n in Chosen(ns, c) ==> n in ns)
            && forall i {:trigger Chosen(ns, c)[i].nextent} :: 0 <= i < |c| ==>
                 Chosen(ns, c)[i].nextent == Ref(Chosen(ns, c), i + 1)
  {
    hide Kept;
    KeptIs(s, h, now);
    var c := Kept(s, h, now);
    forall i | 0 <= i < |c| ensures Chosen(ns, c)[i].nextent == Ref(Chosen(ns, c), i + 1) {
      assert ns[c[i]].nextent == Ref(ns, c[i] + StrideAt(s, c[i], now));
    }
  }

  lemma ChosenValues(ns: seq<Node>, s: LeaseList, h: nat, now: int)
    requires SameValues(ns, s) && h <= |s|
    ensures var c := Kept(s, h, now);
            (forall i :: 0 <= i < |c| ==> c[i] < |ns|) && Values(Chosen(ns, c)) == Skipped(s[h..], now)
  {
    hide Kept, Skipped;
    KeptIs(s, h, now);
    KeptValues(s, h, now);
  }

  lemma PurgedFrom(s: LeaseList, h: nat, now: int)
    requires h <= |s| && forall k :: 0 <= k < h ==> Expired(s[k], now)
    requires h < |s| ==> !Expired(s[h], now)
    ensures Purged(s, now) == Skipped(s[h..], now)
  {
    WithoutHeadIs(s, now, h);
  }

  // How far the purge goes on from entry k.
  function StrideAt(s: LeaseList, k: nat, now: int): nat {
    if k + 1 < |s| && Expired(s[k + 1], now) then 2 else 1
  }

  // The entries that stay linked, from entry k, which stays.
  function Kept(s: LeaseList, k: nat, now: int): seq<nat>
    decreases |s| - k
  {
    if k >= |s| then [] else [k] + Kept(s, k + StrideAt(s, k, now), now)
  }

  lemma {:induction false} KeptIs(s: LeaseList, k: nat, now: int)
    requires k <= |s|
    ensures var c := Kept(s, k, now);
            && (c == [] <==> k == |s|) && (c != [] ==> c[0] == k)
            && (forall i :: 0 <= i < |c| ==> k <= c[i] < |s|)
            && (forall i :: 0 <= i < |c| - 1 ==> c[i + 1] == c[i] + StrideAt(s, c[i], now))
            && (c != [] ==> c[|c| - 1] + StrideAt(s, c[|c| - 1], now) >= |s|)
            && (forall i, j :: 0 <= i < j < |c| ==> c[i] < c[j])
    decreases |s| - k
  {
    hide StrideAt;
    if k < |s| {
      var next := k + StrideAt(s, k, now);
      StrideIs(s, k, now);
      KeptIs(s, next, now);
      assert Kept(s, k, now) == [k] + Kept(s, next, now);
    }
  }

  lemma StrideIs(s: LeaseList, k: nat, now: int)
    requires k < |s|
    ensures k < k + StrideAt(s, k, now) <= |s|
  {
  }

  lemma {:induction false} KeptValues(s: LeaseList, k: nat, now: int)
    requires k <= |s| && forall i :: 0 <= i < |Kept(s, k, now)| ==> Kept(s, k, now)[i] < |s|
    ensures |Skipped(s[k..], now)| == |Kept(s, k, now)|
    ensures forall i :: 0 <= i < |Kept(s, k, now)| ==> Skipped(s[k..], now)[i] == s[Kept(s, k, now)[i]]
    decreases |s| - k
  {
    if k < |s| {
      var d := k + StrideAt(s, k, now);
      assert s[k..][Stride(s[k..], now)..] == s[d..];
      assert Kept(s, k, now)[1..] == Kept(s, d, now);
      KeptValues(s, d, now);
    }
  }

  ghost function Chosen(ns: seq<Node>, c: seq<nat>): seq<Node>
    requires forall i :: 0 <= i < |c| ==> c[i] < |ns|
  {
    seq(|c|, i requires 0 <= i < |c| => ns[c[i]])
  }

  lemma {:induction false} WithoutHeadIs(s: LeaseList, now: int, h: nat)
    requires h <= |s| && forall k :: 0 <= k < h ==> Expired(s[k], now)
    requires h < |s| ==> !Expired(s[h], now)
    ensures WithoutHead(s, now) == s[h..]
  {
    if h > 0 {
      WithoutHeadIs(s[1..], now, h - 1);
    }
  }

  ghost predicate Distinct(ns: seq<Node>) {
    forall i, j :: 0 <= i < j < |ns| ==> ns[i] != ns[j]
  }

  // A pointer to the i-th node, null behind the last.
  ghost function Ref(ns: seq<Node>, i: nat): Node? {
    if i < |ns| then ns[i] else null
  }

  ghost function Value(n: Node): Lease
    reads n
  {
    Lease(n.host, n.port, n.expired)
  }

  ghost function Values(ns: seq<Node>): (s: LeaseList)
    reads ns
    ensures |s| == |ns|
  {
    seq(|ns|, i requires 0 <= i < |ns| reads ns => Value(ns[i]))
  }

  lemma {:induction false} FindEntryIs(s: LeaseList, host: int, port: int, k: nat)
    requires k <= |s| && forall i :: 0 <= i < k ==> !(s[i].host == host && s[i].port == port)
    requires k < |s| ==> s[k].host == host && s[k].port == port
    ensures FindEntry(s, host, port) == k
  {
  }

  lemma {:induction false} FindHostIs(s: LeaseList, host: int, k: nat)
    requires k <= |s| && forall i :: 0 <= i < k ==> s[i].host != host
    requires k < |s| ==> s[k].host == host
    ensures FindHost(s, host) == k
  {
  }
}
