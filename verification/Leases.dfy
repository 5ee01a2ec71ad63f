/**
 * The server's list of client leases (server/udp_server.c:298-380, 439-554) as a sequence. Module
 * LeaseTable has the linked nodes.
 */
module Leases {

  // struct leaselist without its link; the time is in seconds.
  datatype Lease = Lease(host: int, port: int, expired: int)

  type LeaseList = seq<Lease>

  // (PROT_SERVER_WAKEUP_MIN * 60 + PROT_SERVER_WAKEUP_SEC) * PROT_WAKEUPS_BEFORE_EXPIRED
  const CLIENT_LEASE: int := (4 * 60 + 30) * 2

  // ---------- The operations ----------

  // serverFindLeaseEntry, as an index; |s| if there is no such entry.
  function FindEntry(s: LeaseList, host: int, port: int): (i: nat)
    ensures i <= |s|
    ensures i < |s| ==> s[i].host == host && s[i].port == port
    ensures forall k :: 0 <= k < i ==> !(s[k].host == host && s[k].port == port)
  {
    if s == [] then 0
    else if s[0].host == host && s[0].port == port then 0
    else
      var i := FindEntry(s[1..], host, port);
      assert forall k :: 1 <= k < i + 1 ==> s[k] == s[1..][k - 1];
      i + 1
  }

  // The first entry of a host; |s| if there is none.
  function FindHost(s: LeaseList, host: int): (i: nat)
    ensures i <= |s|
    ensures i < |s| ==> s[i].host == host
    ensures forall k :: 0 <= k < i ==> s[k].host != host
  {
    if s == [] then 0
    else if s[0].host == host then 0
    else
      var i := FindHost(s[1..], host);
      assert forall k :: 1 <= k < i + 1 ==> s[k] == s[1..][k - 1];
      i + 1
  }

  // serverAddClient: an entry for the host and port, new or renewed.
  function Added(s: LeaseList, host: int, port: int, now: int): LeaseList {
    var i := FindEntry(s, host, port);
    if i < |s| then s[i := s[i].(expired := now + CLIENT_LEASE)] else s + [Lease(host, port, now + CLIENT_LEASE)]
  }

  // serverUpdateClient: the first entry of the host is renewed, whatever its port.
  function Updated(s: LeaseList, host: int, now: int): LeaseList {
    var i := FindHost(s, host);
    if i < |s| then s[i := s[i].(expired := now + CLIENT_LEASE)] else s
  }

  predicate Expired(e: Lease, now: int) {
    e.expired <= now
  }

  // The entries that have not expired, in order: what a purge is for.
  function Live(s: LeaseList, now: int): LeaseList {
    if s == [] then [] else (if Expired(s[0], now) then [] else [s[0]]) + Live(s[1..], now)
  }

  // serverPurgeHostList frees every expired entry. As written it unlinks fewer: from an entry that
  // stays linked it goes on with the next one, or behind it if that has expired.
  function Stride(s: LeaseList, now: int): nat {
    if |s| > 1 && Expired(s[1], now) then 2 else 1
  }

  // After it has unlinked an entry it goes on from that entry, so the one behind it stays linked,
  // expired or not.
  function Skipped(s: LeaseList, now: int): LeaseList
    decreases |s|
  {
    if s == [] then [] else [s[0]] + Skipped(s[Stride(s, now)..], now)
  }

  // The expired entries at the head of the list are all removed.
  function WithoutHead(s: LeaseList, now: int): LeaseList {
    if s != [] && Expired(s[0], now) then WithoutHead(s[1..], now) else s
  }

  // What the list is linked to after the purge as written.
  function Purged(s: LeaseList, now: int): LeaseList {
    Skipped(WithoutHead(s, now), now)
  }

  // ---------- No duplicates ----------

  ghost predicate NoDuplicates(s: LeaseList) {
    forall i, j :: 0 <= i < j < |s| ==> !(s[i].host == s[j].host && s[i].port == s[j].port)
  }

  lemma AddedKeepsNoDuplicates(s: LeaseList, host: int, port: int, now: int)
    requires NoDuplicates(s)
    ensures NoDuplicates(Added(s, host, port, now))
    ensures var r := Added(s, host, port, now);
            exists i :: 0 <= i < |r| && r[i] == Lease(host, port, now + CLIENT_LEASE)
  {
    var i := FindEntry(s, host, port);
    assert Added(s, host, port, now)[i] == Lease(host, port, now + CLIENT_LEASE);
  }

  // A client's broadcast gives its host and port a lease from now, renews no other, and lengthens the list
  // exactly if there was none for them.
  lemma AddedIff(s: LeaseList, host: int, port: int, now: int)
    requires NoDuplicates(s)
    ensures var r := Added(s, host, port, now);
            && (forall e :: e in r <==>
                  e == Lease(host, port, now + 540) || (e in s && !(e.host == host && e.port == port)))
            && (|r| == |s| + 1 <==> forall e :: e in s ==> !(e.host == host && e.port == port))
            && |s| <= |r| <= |s| + 1
  {
    var i, r := FindEntry(s, host, port), Added(s, host, port, now);
    forall k | 0 <= k < |s| && k != i ensures s[k] in r && !(s[k].host == host && s[k].port == port) {
      assert r[k] == s[k];
    }
    assert r[i] == Lease(host, port, now + 540);
  }

  // What a purge is to leave.
  lemma {:induction false} LiveIff(s: LeaseList, now: int, e: Lease)
    ensures e in Live(s, now) <==> e in s && e.expired > now
  {
    if s != [] {
      LiveIff(s[1..], now, e);
      assert s == [s[0]] + s[1..];
    }
  }

  lemma UpdatedKeepsNoDuplicates(s: LeaseList, host: int, now: int)
    requires NoDuplicates(s)
    ensures NoDuplicates(Updated(s, host, now))
  {
  }

  lemma {:induction false} WithoutHeadIsSuffix(s: LeaseList, now: int)
    ensures |WithoutHead(s, now)| <= |s| && WithoutHead(s, now) == s[|s| - |WithoutHead(s, now)|..]
    ensures WithoutHead(s, now) != [] ==> !Expired(WithoutHead(s, now)[0], now)
    ensures Live(WithoutHead(s, now), now) == Live(s, now)
  {
    if s != [] && Expired(s[0], now) {
      WithoutHeadIsSuffix(s[1..], now);
    }
  }

  lemma {:induction false} LiveKeepsNoDuplicates(s: LeaseList, now: int)
    requires NoDuplicates(s)
    ensures NoDuplicates(Live(s, now))
    ensures forall e :: e in Live(s, now) <==> e in s && !Expired(e, now)
  {
    if s != [] {
      var rest := Live(s[1..], now);
      LiveKeepsNoDuplicates(s[1..], now);
      forall i | 0 <= i < |rest| ensures !(rest[i].host == s[0].host && rest[i].port == s[0].port) {
        assert rest[i] in s[1..];
      }
    }
  }

  // Every list the server builds, one operation after another, with the purge that keeps the list
  // linked to the last entry that stays.
  datatype ListOp = AddOp(host: int, port: int, now: int) | UpdateOp(host: int, now: int) | PurgeOp(now: int)

  function Applied(s: LeaseList, op: ListOp): LeaseList {
    match op
    case AddOp(host, port, now) => Added(s, host, port, now)
    case UpdateOp(host, now) => Updated(s, host, now)
    case PurgeOp(now) => Live(s, now)
  }

  function AppliedAll(s: LeaseList, ops: seq<ListOp>): LeaseList
    decreases |ops|
  {
    if ops == [] then s else AppliedAll(Applied(s, ops[0]), ops[1..])
  }

  lemma {:induction false} NoListHasDuplicates(s: LeaseList, ops: seq<ListOp>)
    requires NoDuplicates(s)
    ensures NoDuplicates(AppliedAll(s, ops))
    decreases |ops|
  {
    if ops != [] {
      match ops[0] {
        case AddOp(host, port, now) => AddedKeepsNoDuplicates(s, host, port, now);
        case UpdateOp(host, now) => UpdatedKeepsNoDuplicates(s, host, now);
        case PurgeOp(now) => LiveKeepsNoDuplicates(s, now);
      }
      NoListHasDuplicates(Applied(s, ops[0]), ops[1..]);
    }
  }

  // ---------- What the purge removes ----------

  // Two neighbours have both expired.
  ghost predicate ExpiredNeighbours(s: LeaseList, now: int) {
    exists i :: 0 <= i && i + 1 < |s| && Expired(s[i], now) && Expired(s[i + 1], now)
  }

  lemma LiveCons(e: Lease, s: LeaseList, now: int)
    ensures Live([e] + s, now) == (if Expired(e, now) then [] else [e]) + Live(s, now)
  {
    assert ([e] + s)[1..] == s;
  }

  // Live entries are the same whether or not the purge's stride is taken at once.
  lemma LiveStride(s: LeaseList, now: int)
    requires s != []
    ensures Live(s, now) == (if Expired(s[0], now) then [] else [s[0]]) + Live(s[Stride(s, now)..], now)
  {
    if Stride(s, now) == 2 {
      assert s[1..] == [s[1]] + s[2..];
      LiveCons(s[1], s[2..], now);
    }
  }

  // No entry that is still live is ever removed, and their order is kept.
  lemma {:induction false} SkippedKeepsLive(s: LeaseList, now: int)
    ensures Live(Skipped(s, now), now) == Live(s, now)
    decreases |s|
  {
    if s != [] {
      LiveStride(s, now);
      SkippedKeepsLive(s[Stride(s, now)..], now);
      LiveCons(s[0], Skipped(s[Stride(s, now)..], now), now);
    }
  }

  lemma PurgedKeepsLive(s: LeaseList, now: int)
    ensures Live(Purged(s, now), now) == Live(s, now)
  {
    WithoutHeadIsSuffix(s, now);
    SkippedKeepsLive(WithoutHead(s, now), now);
  }

  lemma {:induction false} SkippedIsLiveIff(s: LeaseList, now: int)
    requires s != [] ==> !Expired(s[0], now)
    ensures Skipped(s, now) == Live(s, now) <==> !ExpiredNeighbours(s, now)
    decreases |s|
  {
    if s != [] {
      var d := Stride(s, now);
      var rest := s[d..];
      LiveStride(s, now);
      if rest != [] && Expired(rest[0], now) {
        assert d == 2;
        assert Expired(s[1], now) && Expired(s[1 + 1], now);
        assert Skipped(s, now)[1] == rest[0];
        LiveHasNoExpired(s, now);
      } else {
        SkippedIsLiveIff(rest, now);
        NeighboursShift(s, d, now);
        SameHead(s[0], Skipped(rest, now), Live(rest, now));
      }
    }
  }

  lemma SameHead(e: Lease, x: LeaseList, y: LeaseList)
    ensures [e] + x == [e] + y <==> x == y
  {
    assert ([e] + x)[1..] == x && ([e] + y)[1..] == y;
  }

  lemma NeighboursShift(s: LeaseList, d: nat, now: int)
    requires d <= |s|
    requires forall i :: 0 <= i < d && i + 1 < |s| ==> !(Expired(s[i], now) && Expired(s[i + 1], now))
    ensures ExpiredNeighbours(s[d..], now) <==> ExpiredNeighbours(s, now)
  {
    if ExpiredNeighbours(s, now) {
      var i :| 0 <= i && i + 1 < |s| && Expired(s[i], now) && Expired(s[i + 1], now);
      assert Expired(s[d..][i - d], now) && Expired(s[d..][i - d + 1], now);
    }
    if ExpiredNeighbours(s[d..], now) {
      var i :| 0 <= i && i + 1 < |s[d..]| && Expired(s[d..][i], now) && Expired(s[d..][i + 1], now);
      assert Expired(s[i + d], now) && Expired(s[i + d + 1], now);
    }
  }

  lemma {:induction false} LiveHasNoExpired(s: LeaseList, now: int)
    ensures forall i :: 0 <= i < |Live(s, now)| ==> !Expired(Live(s, now)[i], now)
  {
    if s != [] {
      LiveHasNoExpired(s[1..], now);
    }
  }

  // The purge as written leaves exactly the live entries linked if and only if, behind the expired
  // entries at the head, no two neighbours have expired.
  lemma PurgedIsLiveIff(s: LeaseList, now: int)
    ensures Purged(s, now) == Live(s, now) <==> !ExpiredNeighbours(WithoutHead(s, now), now)
  {
    WithoutHeadIsSuffix(s, now);
    SkippedIsLiveIff(WithoutHead(s, now), now);
  }

  // All that the links lead to is live exactly then.
  lemma PurgedHasNoExpiredIff(s: LeaseList, now: int)
    ensures (forall i :: 0 <= i < |Purged(s, now)| ==> !Expired(Purged(s, now)[i], now))
            <==> !ExpiredNeighbours(WithoutHead(s, now), now)
  {
    PurgedKeepsLive(s, now);
    PurgedIsLiveIff(s, now);
    LiveHasNoExpired(s, now);
    if forall i :: 0 <= i < |Purged(s, now)| ==> !Expired(Purged(s, now)[i], now) {
      LiveOfLive(Purged(s, now), now);
    }
  }

  lemma {:induction false} LiveOfLive(s: LeaseList, now: int)
    requires forall i :: 0 <= i < |s| ==> !Expired(s[i], now)
    ensures Live(s, now) == s
  {
    if s != [] {
      LiveOfLive(s[1..], now);
    }
  }

  // Of two expired neighbours behind a live entry, the second one stays linked.
  lemma SecondNeighbourStays(a: Lease, b: Lease, c: Lease, now: int)
    requires !Expired(a, now) && Expired(b, now) && Expired(c, now)
    ensures Purged([a, b, c], now) == [a, c] && Live([a, b, c], now) == [a]
  {
    var s := [a, b, c];
    assert WithoutHead(s, now) == s;
    assert s[2..] == [c] && [c][1..] == [];
    assert Skipped([c], now) == [c] + Skipped([], now);
    LiveCons(a, [b, c], now);
    LiveCons(b, [c], now);
    LiveCons(c, [], now);
    assert s == [a] + [b, c] && [b, c] == [b] + [c] && [c] == [c] + [];
  }

  // How many entries up to i have expired since the last live one, or since the one at the head.
  function ExpiredRun(s: LeaseList, i: nat, now: int): nat
    requires i < |s|
  {
    if i == 0 || !Expired(s[i], now) then 0 else ExpiredRun(s, i - 1, now) + 1
  }

  lemma {:induction false} ExpiredRunShift(s: LeaseList, d: nat, i: nat, now: int)
    requires d <= i < |s| && ExpiredRun(s, d, now) % 2 == 0
    ensures ExpiredRun(s, i, now) % 2 == ExpiredRun(s[d..], i - d, now) % 2
    decreases i
  {
    if i > d && Expired(s[i], now) {
      ExpiredRunShift(s, d, i - 1, now);
    }
  }

  lemma {:induction false} SkippedKeepsIff(s: LeaseList, i: nat, now: int)
    requires i < |s| && forall k :: 0 <= k < |s| && k != i ==> s[k] != s[i]
    ensures s[i] in Skipped(s, now) <==> ExpiredRun(s, i, now) % 2 == 0
    decreases |s|
  {
    var d := Stride(s, now);
    var rest := Skipped(s[d..], now);
    assert s[i] in Skipped(s, now) <==> s[i] == s[0] || s[i] in rest;
    if d == 2 {
      assert ExpiredRun(s, 1, now) == 1;
    }
    if i >= d {
      ExpiredRunShift(s, d, i, now);
      SkippedKeepsIff(s[d..], i - d, now);
    } else {
      InSkipped(s[d..], s[i], now);
    }
  }

  lemma {:induction false} InSkipped(s: LeaseList, e: Lease, now: int)
    ensures e in Skipped(s, now) ==> e in s
    decreases |s|
  {
    if s != [] {
      InSkipped(s[Stride(s, now)..], e, now);
    }
  }

  // Which entries the purge as written leaves linked: behind the expired ones at the head, those that
  // are live and every second one of a run of expired ones.
  lemma PurgedKeepsIff(s: LeaseList, i: nat, now: int)
    requires i < |s| && forall k :: 0 <= k < |s| && k != i ==> s[k] != s[i]
    ensures s[i] in Purged(s, now) <==> Stays(s, i, now)
  {
    hide Skipped, ExpiredRun, Expired, WithoutHead;
    WithoutHeadIsSuffix(s, now);
    var t := WithoutHead(s, now);
    var h := |s| - |t|;
    if i >= h {
      assert t[i - h] == s[i];
      forall k | 0 <= k < |t| && k != i - h ensures t[k] != t[i - h] {
        assert t[k] == s[k + h];
      }
      SkippedKeepsIff(t, i - h, now);
    } else {
      InSkipped(t, s[i], now);
      assert s[i] !in t;
    }
  }

  predicate Stays(s: LeaseList, i: nat, now: int)
    requires i < |s|
  {
    var t := WithoutHead(s, now);
    |s| - i <= |t| && ExpiredRun(t, |t| - (|s| - i), now) % 2 == 0
  }

  // Of two clients on one host the second one's packets renew the first one's lease.
  lemma SecondClientIsNotRenewed(a: Lease, b: Lease, now: int)
    requires a.host == b.host && a.port != b.port && b.expired < now + CLIENT_LEASE
    ensures Updated([a, b], b.host, now) == [a.(expired := now + CLIENT_LEASE), b]
  {
  }

  // A still-alive packet renews the lease of the client it came from exactly if no entry of the same
  // host stands before that client's: the port is not looked at.
  lemma UpdateRenewsIff(s: LeaseList, i: nat, now: int)
    requires NoDuplicates(s) && i < |s| && s[i].expired < now + CLIENT_LEASE
    ensures Updated(s, s[i].host, now)[i].expired == now + CLIENT_LEASE
            <==> forall k :: 0 <= k < i ==> s[k].host != s[i].host
  {
  }
}
