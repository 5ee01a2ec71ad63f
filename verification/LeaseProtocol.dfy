/**
 * The leases between clients and servers over UDP: server/udp_server.c:289-380, 556-632 on one side,
 * client/Net/Peep/BC/BC.pm:145-203, 537-650, 745-789 on the other. Every client keeps the servers it
 * knows with an expiry time, every server keeps its clients in a lease list; each sends still-alive
 * packets only to the peers it has, and drops those whose time has run out.
 *
 * Time is in whole seconds. There is one client per host, which uses one port. A server's alarm purges
 * its list by the loop that keeps the list well linked; the purge as written, and when it makes no
 * difference, come at the end.
 */
module LeaseProtocol {
  import opened Events
  import opened Leases

  // A client is named by its host.
  type Client = int
  type Server = int

  // The lease that a server's still-alive packet carries.
  const SERVER_LEASE_MIN: Byte := 5
  const SERVER_LEASE_SEC: Byte := 0
  const SERVER_LEASE: int := SERVER_LEASE_MIN as int * 60 + SERVER_LEASE_SEC as int

  // A still-alive packet and when it was sent.
  datatype Packet =
    | ToServer(c: Client, s: Server, at: int)
    | ToClient(s: Server, c: Client, at: int)

  // How long apart a server's alarms and a client's ticks are at most, and how long a packet takes at
  // most; and the clients and servers that keep to this. The others may stop at any time.
  datatype Timing = Timing(alarm: int, tick: int, delay: int, clients: set<Client>, servers: set<Server>)

  // The packet is for a peer that keeps time.
  predicate Awaited(k: Timing, p: Packet) {
    match p
    case ToServer(_, s, _) => s in k.servers
    case ToClient(_, c, _) => c in k.clients
  }

  // The system: each client's port, its %Servers with the expiry times, when it last ticked, and the packets
  // that wait in its socket; each server's leases and when its last alarm was; packets on their way.
  datatype Net = Net(now: int,
                     ports: map<Client, int>,
                     servers: map<Client, map<Server, int>>,
                     ticked: map<Client, int>,
                     inbox: map<Client, set<Packet>>,
                     leases: map<Server, LeaseList>,
                     alarmed: map<Server, int>,
                     flying: set<Packet>)

  datatype NetStep =
    | Pass(dt: int)              // time goes on
    | Arrive(p: Packet)          // a packet reaches its socket
    | Tick(c: Client)            // handlealarm of a client
    | Alarm(s: Server)           // serverHandleAlarm
    | Hello(c: Client, s: Server)  // a broadcast of the client reaches the server

  ghost predicate WellFormed(n: Net) {
    && n.ports.Keys == n.servers.Keys && n.ticked.Keys == n.servers.Keys && n.inbox.Keys == n.servers.Keys
    && n.alarmed.Keys == n.leases.Keys
  }

  // Time does not pass a deadline of a peer that keeps time: what is due by then happens first.
  ghost predicate Enabled(k: Timing, n: Net, step: NetStep) {
    && WellFormed(n)
    && match step
       case Pass(dt) =>
         && dt > 0
         && (forall p :: p in n.flying && Awaited(k, p) ==> n.now + dt <= p.at + k.delay)
         && (forall c :: c in n.ticked && c in k.clients ==> n.now + dt <= n.ticked[c] + k.tick)
         && (forall s :: s in n.alarmed && s in k.servers ==> n.now + dt <= n.alarmed[s] + k.alarm)
       case Arrive(p) => p in n.flying && p.c in n.servers && p.s in n.leases
       case Tick(c) => c in n.servers
       case Alarm(s) => s in n.leases
       case Hello(c, s) => c in n.servers && s in n.leases
  }

  // ---------- What the two sides do ----------

  // hello: a client that knows a server sends to each one it knows.
  function ClientSends(c: Client, known: map<Server, int>, now: int): set<Packet> {
    set s | s in known :: ToServer(c, s, now)
  }

  // updateserverlist: every server heard from is known until SERVER_LEASE from now.
  function Refreshed(known: map<Server, int>, inbox: set<Packet>, now: int): map<Server, int> {
    var heard := set p | p in inbox && p.ToClient? :: p.s;
    map s | s in known.Keys + heard :: if s in heard then now + SERVER_LEASE else known[s]
  }

  // purgeserverlist
  function PurgedServers(known: map<Server, int>, now: int): map<Server, int> {
    map s | s in known && known[s] > now :: known[s]
  }

  // serverSendStillAlive
  function ServerSends(s: Server, leases: LeaseList, now: int): set<Packet> {
    set i | 0 <= i < |leases| :: ToClient(s, leases[i].host, now)
  }

  // The step is about clients and servers that there are.
  ghost predicate Possible(n: Net, step: NetStep) {
    && WellFormed(n)
    && match step
       case Pass(_) => true
       case Arrive(p) => p.c in n.servers && p.s in n.leases
       case Tick(c) => c in n.servers
       case Alarm(s) => s in n.leases
       case Hello(c, s) => c in n.servers && s in n.leases
  }

  function Applied(n: Net, step: NetStep): Net
    requires Possible(n, step)
  {
    match step
    case Pass(dt) => n.(now := n.now + dt)
    case Arrive(p) =>
      var m := n.(flying := n.flying - {p});
      if p.ToServer?
      then m.(leases := n.leases[p.s := Updated(n.leases[p.s], p.c, n.now)])
      else m.(inbox := n.inbox[p.c := n.inbox[p.c] + {p}])
    case Tick(c) =>
      n.(flying := n.flying + ClientSends(c, n.servers[c], n.now),
         servers := n.servers[c := PurgedServers(Refreshed(n.servers[c], n.inbox[c], n.now), n.now)],
         inbox := n.inbox[c := {}],
         ticked := n.ticked[c := n.now])
    case Alarm(s) =>
      var left := Live(n.leases[s], n.now);
      n.(leases := n.leases[s := left],
         flying := n.flying + ServerSends(s, left, n.now),
         alarmed := n.alarmed[s := n.now])
    case Hello(c, s) =>
      n.(leases := n.leases[s := Added(n.leases[s], c, n.ports[c], n.now)],
         flying := n.flying + {ToClient(s, c, n.now)})
  }

  // ---------- Who is told, and who is known ----------

  // An alarm tells the clients whose leases have not run out, and nobody else.
  lemma AlarmTellsIff(n: Net, s: Server, p: Packet)
    requires Possible(n, Alarm(s))
    ensures p in Applied(n, Alarm(s)).flying <==>
            p in n.flying
            || (p.ToClient? && p.s == s && p.at == n.now
                && exists e :: e in n.leases[s] && e.host == p.c && e.expired > n.now)
  {
    var left := Live(n.leases[s], n.now);
    forall e ensures e in left <==> e in n.leases[s] && e.expired > n.now {
      LiveIff(n.leases[s], n.now, e);
    }
    assert p in ServerSends(s, left, n.now) <==> exists i :: 0 <= i < |left| && p == ToClient(s, left[i].host, n.now);
  }

  // A tick tells the servers that the client knew before it, and no other; then the client knows those
  // that it has just heard from, for five minutes, and those whose time has not run out.
  lemma TickTellsAndKnowsIff(n: Net, c: Client, s: Server, p: Packet)
    requires Possible(n, Tick(c))
    ensures var m := Applied(n, Tick(c));
            var heard := exists at :: ToClient(s, c, at) in n.inbox[c];
            && (p in m.flying <==>
                  p in n.flying || (p.ToServer? && p.c == c && p.at == n.now && p.s in n.servers[c]))
            && ((forall q :: q in n.inbox[c] && q.ToClient? ==> q.c == c) ==>
                  && (s in m.servers[c] <==> heard || (s in n.servers[c] && n.servers[c][s] > n.now))
                  && (s in m.servers[c] ==> m.servers[c][s] == if heard then n.now + 300 else n.servers[c][s]))
            && m.inbox[c] == {} && m.ticked[c] == n.now
  {
    var heard := set q | q in n.inbox[c] && q.ToClient? :: q.s;
    if s in heard {
      var q :| q in n.inbox[c] && q.ToClient? && q.s == s;
      assert q.c == c ==> q == ToClient(s, c, q.at);
    }
    if at :| ToClient(s, c, at) in n.inbox[c] {
      assert ToClient(s, c, at).s in heard;
    }
  }

  // ---------- Mutual survival ----------

  // One entry per client, with its port.
  ghost predicate ProperList(l: LeaseList, ports: map<Client, int>) {
    && NoDuplicates(l)
    && forall i :: 0 <= i < |l| ==> l[i].host in ports && l[i].port == ports[l[i].host]
  }

  // Nothing overdue for a peer that keeps time, nothing dated later than now, and in a client's socket
  // only packets for it.
  ghost predicate OnTime(k: Timing, n: Net) {
    && WellFormed(n)
    && (forall p :: p in n.flying ==> p.at <= n.now && (Awaited(k, p) ==> n.now <= p.at + k.delay))
    && (forall c :: c in n.ticked ==> n.ticked[c] <= n.now && (c in k.clients ==> n.now <= n.ticked[c] + k.tick))
    && (forall s :: s in n.alarmed ==> n.alarmed[s] <= n.now && (s in k.servers ==> n.now <= n.alarmed[s] + k.alarm))
    && (forall c, p :: c in n.inbox && p in n.inbox[c] ==> p.ToClient? && p.c == c)
  }

  ghost predicate Unprocessed(n: Net, p: Packet) {
    p in n.flying || (p.c in n.inbox && p in n.inbox[p.c])
  }

  // The client knows the server, and its entry outlasts the arrival of the next alarm's packet or of
  // one that has been sent.
  ghost predicate ClientSafe(k: Timing, n: Net, c: Client, s: Server) {
    && c in n.servers && s in n.alarmed && s in n.servers[c]
    && (n.servers[c][s] > n.alarmed[s] + k.alarm + k.delay
        || exists at :: Unprocessed(n, ToClient(s, c, at)) && n.servers[c][s] > at + k.delay)
  }

  ghost predicate LeaseOutlasts(k: Timing, n: Net, c: Client, s: Server, e: Lease)
    requires c in n.ticked
  {
    e.expired > n.ticked[c] + k.tick + k.delay
    || exists at :: ToServer(c, s, at) in n.flying && e.expired > at + k.delay
  }

  // The server has a lease of the client, and it outlasts the arrival of the next tick's packet or of
  // one that is on its way.
  ghost predicate ServerSafe(k: Timing, n: Net, c: Client, s: Server) {
    && s in n.leases && c in n.ticked && ProperList(n.leases[s], n.ports)
    && exists e :: e in n.leases[s] && e.host == c && LeaseOutlasts(k, n, c, s, e)
  }

  ghost predicate Paired(k: Timing, n: Net, c: Client, s: Server) {
    c in k.clients && s in k.servers && OnTime(k, n) && ClientSafe(k, n, c, s) && ServerSafe(k, n, c, s)
  }

  // ---------- The lists ----------

  lemma LiveIsProper(l: LeaseList, ports: map<Client, int>, now: int)
    requires ProperList(l, ports)
    ensures ProperList(Live(l, now), ports)
    ensures forall e :: e in Live(l, now) <==> e in l && !Expired(e, now)
  {
    LiveKeepsNoDuplicates(l, now);
    var r := Live(l, now);
    forall i | 0 <= i < |r| ensures r[i].host in ports && r[i].port == ports[r[i].host] {
      assert r[i] in l;
    }
  }

  lemma UpdatedIsProper(l: LeaseList, ports: map<Client, int>, c: Client, now: int)
    requires ProperList(l, ports)
    ensures ProperList(Updated(l, c, now), ports)
    ensures forall e :: e in l && e.host != c ==> e in Updated(l, c, now)
    ensures (exists e :: e in l && e.host == c) ==>
              exists e :: e in Updated(l, c, now) && e.host == c && e.expired == now + CLIENT_LEASE
  {
    UpdatedKeepsNoDuplicates(l, c, now);
    var i := FindHost(l, c);
    var r := Updated(l, c, now);
    if i < |l| {
      assert r[i].host == c && r[i].expired == now + CLIENT_LEASE;
      forall e | e in l && e.host != c ensures e in r {
        var k :| 0 <= k < |l| && l[k] == e;
        assert r[k] == e;
      }
    }
  }

  lemma AddedIsProper(l: LeaseList, ports: map<Client, int>, c: Client, now: int)
    requires ProperList(l, ports) && c in ports
    ensures var r := Added(l, c, ports[c], now);
            && ProperList(r, ports)
            && (forall e :: e in l && e.host != c ==> e in r)
            && exists e :: e in r && e.host == c && e.expired == now + CLIENT_LEASE
  {
    AddedKeepsNoDuplicates(l, c, ports[c], now);
    var i := FindEntry(l, c, ports[c]);
    var r := Added(l, c, ports[c], now);
    assert r[i].host == c && r[i].expired == now + CLIENT_LEASE;
    forall e | e in l && e.host != c ensures e in r {
      var k :| 0 <= k < |l| && l[k] == e;
      assert r[k] == e;
    }
  }

  // ---------- Every step keeps a pair ----------

  ghost predicate Prompt(k: Timing) {
    && k.alarm > 0 && k.tick > 0 && k.delay >= 0
    && k.alarm + k.delay < SERVER_LEASE
    && k.tick + k.delay < CLIENT_LEASE
  }

  lemma StepIsOnTime(k: Timing, n: Net, step: NetStep)
    requires Prompt(k) && OnTime(k, n) && Enabled(k, n, step)
    ensures OnTime(k, Applied(n, step))
  {
    match step
    case Tick(c) => TickIsOnTime(k, n, c);
    case Alarm(s) => AlarmIsOnTime(k, n, s);
    case Arrive(p) => ArrivalIsOnTime(k, n, p);
    case Pass(_) =>
    case Hello(_, _) =>
      hide Added;
  }

  lemma ArrivalIsOnTime(k: Timing, n: Net, p: Packet)
    requires OnTime(k, n) && Enabled(k, n, Arrive(p))
    ensures OnTime(k, Applied(n, Arrive(p)))
  {
    hide Updated;
  }

  lemma TickIsOnTime(k: Timing, n: Net, c: Client)
    requires Prompt(k) && OnTime(k, n) && Enabled(k, n, Tick(c))
    ensures OnTime(k, Applied(n, Tick(c)))
  {
    hide Refreshed, PurgedServers;
  }

  lemma AlarmIsOnTime(k: Timing, n: Net, s: Server)
    requires Prompt(k) && OnTime(k, n) && Enabled(k, n, Alarm(s))
    ensures OnTime(k, Applied(n, Alarm(s)))
  {
    hide Live;
  }

  lemma StepKeepsServerSafe(k: Timing, n: Net, step: NetStep, c: Client, s: Server)
    requires Prompt(k) && Paired(k, n, c, s) && Enabled(k, n, step)
    ensures ServerSafe(k, Applied(n, step), c, s)
  {
    hide Live, Updated, Added, Refreshed, PurgedServers, ServerSends, NoDuplicates;
    var m := Applied(n, step);
    var e :| e in n.leases[s] && e.host == c && LeaseOutlasts(k, n, c, s, e);
    match step
    case Pass(_) =>
      assert LeaseOutlasts(k, m, c, s, e);
    case Arrive(p) =>
      if p.ToServer? && p.s == s {
        UpdatedIsProper(n.leases[s], n.ports, p.c, n.now);
        if p.c == c {
          var e' :| e' in m.leases[s] && e'.host == c && e'.expired == n.now + CLIENT_LEASE;
          assert LeaseOutlasts(k, m, c, s, e');
        } else {
          assert LeaseOutlasts(k, m, c, s, e);
        }
      } else {
        assert LeaseOutlasts(k, m, c, s, e);
      }
    case Tick(c') =>
      if c' == c {
        assert ToServer(c, s, n.now) in m.flying;
      }
      assert LeaseOutlasts(k, m, c, s, e);
    case Alarm(s') =>
      if s' == s {
        LiveIsProper(n.leases[s], n.ports, n.now);
      }
      assert LeaseOutlasts(k, m, c, s, e);
    case Hello(c', s') =>
      if s' == s {
        AddedIsProper(n.leases[s], n.ports, c', n.now);
        if c' == c {
          var e' :| e' in m.leases[s] && e'.host == c && e'.expired == n.now + CLIENT_LEASE;
          assert LeaseOutlasts(k, m, c, s, e');
        } else {
          assert LeaseOutlasts(k, m, c, s, e);
        }
      } else {
        assert LeaseOutlasts(k, m, c, s, e);
      }
  }

  lemma StepKeepsClientSafe(k: Timing, n: Net, step: NetStep, c: Client, s: Server)
    requires Prompt(k) && Paired(k, n, c, s) && Enabled(k, n, step)
    ensures ClientSafe(k, Applied(n, step), c, s)
  {
    hide Live, Updated, Added, Refreshed, PurgedServers, ClientSends;
    var m := Applied(n, step);
    match step
    case Pass(_) =>
      if at :| Unprocessed(n, ToClient(s, c, at)) && n.servers[c][s] > at + k.delay {
        assert Unprocessed(m, ToClient(s, c, at));
      }
    case Arrive(p) =>
      if at :| Unprocessed(n, ToClient(s, c, at)) && n.servers[c][s] > at + k.delay {
        assert Unprocessed(m, ToClient(s, c, at));
      }
    case Tick(c') =>
      if c' == c {
        TickKeepsClientSafe(k, n, c, s);
      } else if at :| Unprocessed(n, ToClient(s, c, at)) && n.servers[c][s] > at + k.delay {
        assert Unprocessed(m, ToClient(s, c, at));
      }
    case Alarm(s') =>
      if s' == s {
        AlarmKeepsClientSafe(k, n, c, s);
      } else if at :| Unprocessed(n, ToClient(s, c, at)) && n.servers[c][s] > at + k.delay {
        assert Unprocessed(m, ToClient(s, c, at));
      }
    case Hello(c', s') =>
      if at :| Unprocessed(n, ToClient(s, c, at)) && n.servers[c][s] > at + k.delay {
        assert Unprocessed(m, ToClient(s, c, at));
      }
  }

  // A tick reads what waits in the socket before it purges.
  lemma TickKeepsClientSafe(k: Timing, n: Net, c: Client, s: Server)
    requires Prompt(k) && Paired(k, n, c, s)
    ensures ClientSafe(k, Applied(n, Tick(c)), c, s)
  {
    var m := Applied(n, Tick(c));
    var heard := set p | p in n.inbox[c] && p.ToClient? :: p.s;
    if s !in heard {
      if at :| Unprocessed(n, ToClient(s, c, at)) && n.servers[c][s] > at + k.delay {
        assert ToClient(s, c, at) in n.inbox[c] ==> ToClient(s, c, at).s in heard;
        assert Unprocessed(m, ToClient(s, c, at));
      }
    }
  }

  // An alarm sends to the client, whose lease it has not purged.
  lemma AlarmKeepsClientSafe(k: Timing, n: Net, c: Client, s: Server)
    requires Prompt(k) && Paired(k, n, c, s)
    ensures ClientSafe(k, Applied(n, Alarm(s)), c, s)
  {
    var m := Applied(n, Alarm(s));
    var e :| e in n.leases[s] && e.host == c && LeaseOutlasts(k, n, c, s, e);
    LiveIsProper(n.leases[s], n.ports, n.now);
    var left := Live(n.leases[s], n.now);
    var i :| 0 <= i < |left| && left[i] == e;
    assert ToClient(s, left[i].host, n.now) in ServerSends(s, left, n.now);
    assert Unprocessed(m, ToClient(s, c, n.now));
    if at :| Unprocessed(n, ToClient(s, c, at)) && n.servers[c][s] > at + k.delay {
      assert Unprocessed(m, ToClient(s, c, at));
    }
  }

  // ---------- Runs ----------

  ghost predicate RunEnabled(k: Timing, n: Net, steps: seq<NetStep>)
    decreases |steps|
  {
    steps == [] || (Enabled(k, n, steps[0]) && RunEnabled(k, Applied(n, steps[0]), steps[1..]))
  }

  ghost function AppliedAll(k: Timing, n: Net, steps: seq<NetStep>): Net
    requires RunEnabled(k, n, steps)
    decreases |steps|
  {
    if steps == [] then n else AppliedAll(k, Applied(n, steps[0]), steps[1..])
  }

  // A client and a server that have each other in their lists keep each other in every run, whatever
  // the other clients and servers do or cease to do, if both keep time: alarm plus delay must be less
  // than the server's lease of 300 s, tick plus delay less than the client's of 540 s.
  lemma {:induction false} PairsStay(k: Timing, n: Net, steps: seq<NetStep>, c: Client, s: Server)
    requires Prompt(k) && Paired(k, n, c, s) && RunEnabled(k, n, steps)
    ensures var m := AppliedAll(k, n, steps);
            && Paired(k, m, c, s)
            && s in m.servers[c]
            && exists e :: e in m.leases[s] && e.host == c
    decreases |steps|
  {
    hide Applied;
    if steps != [] {
      StepIsOnTime(k, n, steps[0]);
      StepKeepsServerSafe(k, n, steps[0], c, s);
      StepKeepsClientSafe(k, n, steps[0], c, s);
      PairsStay(k, Applied(n, steps[0]), steps[1..], c, s);
    } else {
      var e :| e in n.leases[s] && e.host == c && LeaseOutlasts(k, n, c, s, e);
    }
  }

  // The alarm comes every 270 s and the tick every 90 s; then packets have to take less than 30 s.
  lemma DefaultsArePromptIff(delay: nat, clients: set<Client>, servers: set<Server>)
    ensures Prompt(Timing(4 * 60 + 30, 90, delay, clients, servers)) <==> delay < 30
  {
  }

  lemma PassThen(k: Timing, n: Net, b: NetStep)
    requires Enabled(k, n, Pass(1)) && Enabled(k, Applied(n, Pass(1)), b)
    ensures RunEnabled(k, n, [Pass(1), b])
    ensures AppliedAll(k, n, [Pass(1), b]) == Applied(Applied(n, Pass(1)), b)
  {
    hide Applied;
    var n1 := Applied(n, Pass(1));
    assert [Pass(1), b][1..] == [b] && [b][1..] == [];
    assert RunEnabled(k, n1, [b]);
    assert AppliedAll(k, n1, [b]) == Applied(n1, b);
  }

  lemma LiveOne(e: Lease, now: int)
    ensures Live([e], now) == if Expired(e, now) then [] else [e]
  {
    assert [e][1..] == [];
  }

  // The times before `end` at which something that is done every `d` seconds from 0 on is done.
  function Rounds(d: int, end: int): set<int>
    requires d > 0
  {
    set t | 0 < t < end && t % d == 0
  }

  function LastRound(d: int, end: int): int
    requires d > 0
  {
    end - 1 - (end - 1) % d
  }

  // A client and a server that have each other, one second before the client's entry runs out. The
  // packet of the alarm at time 0 came at once; those of the later alarms are still on their way.
  function BeforeEntryRunsOut(k: Timing, c: Client, s: Server): Net
    requires k.alarm > 0
  {
    Net(SERVER_LEASE - 1, map[c := 0], map[c := map[s := SERVER_LEASE]], map[c := SERVER_LEASE - 1], map[c := {}],
        map[s := [Lease(c, 0, SERVER_LEASE + CLIENT_LEASE)]], map[s := LastRound(k.alarm, SERVER_LEASE)],
        set t | t in Rounds(k.alarm, SERVER_LEASE) :: ToClient(s, c, t))
  }

  // The first bound is exact: with alarm plus delay at 300 s or more, a pair can lose each other although
  // everything is in time. The client's entry runs out before the next packet comes.
  lemma SlowPacketsPartPairs(k: Timing, c: Client, s: Server)
    requires k.alarm > 0 && k.tick > 0 && k.delay >= 0 && k.alarm + k.delay >= SERVER_LEASE
    ensures var n := BeforeEntryRunsOut(k, c, s);
            var steps := [Pass(1), Tick(c)];
            && OnTime(k, n) && s in n.servers[c] && n.leases[s][0].host == c && RunEnabled(k, n, steps)
            && c in AppliedAll(k, n, steps).servers && s !in AppliedAll(k, n, steps).servers[c]
  {
    var n := BeforeEntryRunsOut(k, c, s);
    forall p | p in n.flying ensures k.alarm <= p.at < SERVER_LEASE {
      RoundIsLate(k.alarm, p.at);
    }
    PassThen(k, n, Tick(c));
  }

  lemma RoundIsLate(d: int, t: int)
    requires d > 0 && t > 0 && t % d == 0
    ensures t >= d
  {
  }

  // The same one second before the server's lease runs out: the packet of the client's tick at time 0
  // came at once, those of the later ticks are still on their way.
  function BeforeLeaseRunsOut(k: Timing, c: Client, s: Server): Net
    requires k.tick > 0
  {
    Net(CLIENT_LEASE - 1, map[c := 0], map[c := map[s := CLIENT_LEASE + SERVER_LEASE]],
        map[c := LastRound(k.tick, CLIENT_LEASE)], map[c := {}],
        map[s := [Lease(c, 0, CLIENT_LEASE)]], map[s := CLIENT_LEASE - 1],
        set t | t in Rounds(k.tick, CLIENT_LEASE) :: ToServer(c, s, t))
  }

  // The second bound is exact, too: with tick plus delay at 540 s or more the server can lose the client.
  lemma SlowTicksPartPairs(k: Timing, c: Client, s: Server)
    requires k.alarm > 0 && k.tick > 0 && k.delay >= 0 && k.tick + k.delay >= CLIENT_LEASE
    ensures var n := BeforeLeaseRunsOut(k, c, s);
            var steps := [Pass(1), Alarm(s)];
            && OnTime(k, n) && s in n.servers[c] && n.leases[s][0].host == c && RunEnabled(k, n, steps)
            && s in AppliedAll(k, n, steps).leases && AppliedAll(k, n, steps).leases[s] == []
  {
    var n := BeforeLeaseRunsOut(k, c, s);
    forall p | p in n.flying ensures k.tick <= p.at < CLIENT_LEASE {
      RoundIsLate(k.tick, p.at);
    }
    PassThen(k, n, Alarm(s));
    LiveOne(n.leases[s][0], CLIENT_LEASE);
  }

  // ---------- How a pair comes about ----------

  // The server has added the client at time t0 and answered; the answer is on its way or waits.
  ghost predicate Joining(k: Timing, n: Net, c: Client, s: Server, t0: int) {
    var p := ToClient(s, c, t0);
    && c in k.clients && s in k.servers && OnTime(k, n) && t0 <= n.now
    && c in n.servers && c in n.inbox && c in n.ticked && s in n.alarmed
    && s in n.leases && ProperList(n.leases[s], n.ports)
    && (exists e :: e in n.leases[s] && e.host == c && e.expired >= t0 + CLIENT_LEASE)
    && (p in n.flying || (p in n.inbox[c] && n.ticked[c] <= t0 + k.delay))
  }

  lemma TickKeepsJoining(k: Timing, n: Net, c: Client, s: Server, t0: int)
    requires Prompt(k) && 2 * k.tick + 2 * k.delay < CLIENT_LEASE
    requires Joining(k, n, c, s, t0) && Enabled(k, n, Tick(c))
    ensures Joining(k, Applied(n, Tick(c)), c, s, t0) || Paired(k, Applied(n, Tick(c)), c, s)
  {
    hide NoDuplicates;
    TickIsOnTime(k, n, c);
    var m := Applied(n, Tick(c));
    var e :| e in n.leases[s] && e.host == c && e.expired >= t0 + CLIENT_LEASE;
    if ToClient(s, c, t0) in n.inbox[c] {
      var heard := set p | p in n.inbox[c] && p.ToClient? :: p.s;
      assert ToClient(s, c, t0).s in heard;
      assert LeaseOutlasts(k, m, c, s, e);
    }
  }

  // The first tick that finds the answer makes a pair of them; the lease given at t0 lasts until then
  // if two ticks and two delays are less than it.
  lemma StepKeepsJoining(k: Timing, n: Net, step: NetStep, c: Client, s: Server, t0: int)
    requires Prompt(k) && 2 * k.tick + 2 * k.delay < CLIENT_LEASE
    requires Joining(k, n, c, s, t0) && Enabled(k, n, step)
    ensures Joining(k, Applied(n, step), c, s, t0) || Paired(k, Applied(n, step), c, s)
  {
    hide Live, Updated, Added, Refreshed, PurgedServers, ServerSends, NoDuplicates;
    StepIsOnTime(k, n, step);
    var m := Applied(n, step);
    var e :| e in n.leases[s] && e.host == c && e.expired >= t0 + CLIENT_LEASE;
    match step
    case Pass(_) =>
    case Arrive(p) =>
      if p.ToServer? && p.s == s {
        UpdatedIsProper(n.leases[s], n.ports, p.c, n.now);
        assert p.c != c ==> e in m.leases[s];
      }
    case Tick(c') =>
      if c' == c {
        TickKeepsJoining(k, n, c, s, t0);
      }
    case Alarm(s') =>
      if s' == s {
        LiveIsProper(n.leases[s], n.ports, n.now);
      }
    case Hello(c', s') =>
      if s' == s {
        AddedIsProper(n.leases[s], n.ports, c', n.now);
        assert c' != c ==> e in m.leases[s];
      }
  }

  // A broadcast that reaches the server starts it.
  lemma HelloStartsJoining(k: Timing, n: Net, c: Client, s: Server)
    requires Prompt(k) && c in k.clients && s in k.servers
    requires OnTime(k, n) && Enabled(k, n, Hello(c, s)) && ProperList(n.leases[s], n.ports)
    ensures Joining(k, Applied(n, Hello(c, s)), c, s, n.now)
  {
    StepIsOnTime(k, n, Hello(c, s));
    AddedIsProper(n.leases[s], n.ports, c, n.now);
  }

  // After a broadcast has reached the server, client and server are a pair for good no later than one
  // delay and one tick afterwards, whatever the others do or cease to do.
  lemma {:induction false} JoiningLeadsToPair(k: Timing, n: Net, steps: seq<NetStep>, c: Client, s: Server, t0: int)
    requires Prompt(k) && 2 * k.tick + 2 * k.delay < CLIENT_LEASE
    requires Joining(k, n, c, s, t0) || Paired(k, n, c, s)
    requires RunEnabled(k, n, steps)
    ensures var m := AppliedAll(k, n, steps);
            && (Joining(k, m, c, s, t0) || Paired(k, m, c, s))
            && (m.now > t0 + k.delay + k.tick ==> Paired(k, m, c, s))
    decreases |steps|
  {
    hide Applied, ProperList, ClientSafe, ServerSafe;
    if steps != [] {
      if Paired(k, n, c, s) {
        StepIsOnTime(k, n, steps[0]);
        StepKeepsServerSafe(k, n, steps[0], c, s);
        StepKeepsClientSafe(k, n, steps[0], c, s);
      } else {
        StepKeepsJoining(k, n, steps[0], c, s, t0);
      }
      JoiningLeadsToPair(k, Applied(n, steps[0]), steps[1..], c, s, t0);
    }
  }

  // ---------- Peers that fall silent ----------

  // The server sends nothing to the client any more. When what it has sent is read, at the latest, the
  // entry it gives runs out by `until`.
  ghost predicate LastWordsTo(k: Timing, n: Net, c: Client, s: Server, until: int) {
    && c in n.inbox && c in n.ticked
    && (forall at :: ToClient(s, c, at) in n.flying ==> at + k.delay + k.tick + SERVER_LEASE <= until)
    && (forall at :: ToClient(s, c, at) in n.inbox[c] ==> n.ticked[c] + k.tick + SERVER_LEASE <= until)
  }

  ghost predicate NoWordFrom(steps: seq<NetStep>, c: Client, s: Server) {
    forall i :: 0 <= i < |steps| ==> steps[i] != Alarm(s) && steps[i] != Hello(c, s)
  }

  // The client's entry of the server, if it is still there, runs out at `until`, and no tick has come
  // since then.
  ghost predicate EntryRunsOut(n: Net, c: Client, s: Server, until: int) {
    && c in n.servers && c in n.ticked
    && (s in n.servers[c] ==> n.servers[c][s] <= until && n.ticked[c] < until)
  }

  lemma StepRunsOut(k: Timing, n: Net, step: NetStep, c: Client, s: Server, until: int)
    requires c in k.clients
    requires OnTime(k, n) && Enabled(k, n, step) && step != Alarm(s) && step != Hello(c, s)
    requires LastWordsTo(k, n, c, s, until) && EntryRunsOut(n, c, s, until)
    ensures LastWordsTo(k, Applied(n, step), c, s, until) && EntryRunsOut(Applied(n, step), c, s, until)
  {
    hide Live, Updated, Added;
    var m := Applied(n, step);
    if step == Tick(c) {
      var heard := set p | p in n.inbox[c] && p.ToClient? :: p.s;
      if s in heard {
        var p :| p in n.inbox[c] && p.ToClient? && p.s == s;
        assert p == ToClient(s, c, p.at);
      }
    } else if step.Arrive? && step.p.ToClient? && step.p.s == s && step.p.c == c {
      assert step.p == ToClient(s, c, step.p.at);
    }
  }

  // A server that has fallen silent, and may have stopped for good, is gone from the client's list by
  // the first tick after its entry has run out: no later than `until` plus the time between two ticks.
  lemma {:induction false} SilentServerIsDropped(k: Timing, n: Net, steps: seq<NetStep>,
        c: Client, s: Server, until: int)
    requires Prompt(k) && c in k.clients
    requires OnTime(k, n) && RunEnabled(k, n, steps) && NoWordFrom(steps, c, s)
    requires LastWordsTo(k, n, c, s, until) && EntryRunsOut(n, c, s, until)
    ensures var m := AppliedAll(k, n, steps);
            c in m.servers && (m.now >= until + k.tick ==> s !in m.servers[c])
    decreases |steps|
  {
    hide Applied, LastWordsTo;
    if steps != [] {
      assert steps[0] != Alarm(s) && steps[0] != Hello(c, s);
      StepIsOnTime(k, n, steps[0]);
      StepRunsOut(k, n, steps[0], c, s, until);
      SilentServerIsDropped(k, Applied(n, steps[0]), steps[1..], c, s, until);
    }
  }

  // The client sends nothing to the server any more. When what it has sent arrives, at the latest, the
  // lease it gives runs out by `until`.
  ghost predicate LastWordsFrom(k: Timing, n: Net, c: Client, s: Server, until: int) {
    forall at :: ToServer(c, s, at) in n.flying ==> at + k.delay + CLIENT_LEASE <= until
  }

  ghost predicate NoWordTo(steps: seq<NetStep>, c: Client, s: Server) {
    forall i :: 0 <= i < |steps| ==> steps[i] != Tick(c) && steps[i] != Hello(c, s)
  }

  // A lease of the client, if there still is one, runs out at `until`, and no alarm has come since.
  ghost predicate LeaseRunsOut(n: Net, c: Client, s: Server, until: int) {
    && s in n.leases && s in n.alarmed && ProperList(n.leases[s], n.ports)
    && forall e :: e in n.leases[s] && e.host == c ==> e.expired <= until && n.alarmed[s] < until
  }

  lemma InUpdated(l: LeaseList, c: Client, now: int, e: Lease)
    requires e in Updated(l, c, now)
    ensures e in l || (e.host == c && e.expired == now + CLIENT_LEASE)
  {
    var r := Updated(l, c, now);
    var i :| 0 <= i < |r| && r[i] == e;
    assert r[i] == l[i] || i == FindHost(l, c);
  }

  lemma AddedKeepsOthers(l: LeaseList, c: Client, port: int, now: int, e: Lease)
    requires e in Added(l, c, port, now) && e.host != c
    ensures e in l
  {
    var r := Added(l, c, port, now);
    var i :| 0 <= i < |r| && r[i] == e;
    assert i < |l| && l[i] == e;
  }

  lemma StepLeaseRunsOut(k: Timing, n: Net, step: NetStep, c: Client, s: Server, until: int)
    requires s in k.servers
    requires OnTime(k, n) && Enabled(k, n, step) && step != Tick(c) && step != Hello(c, s)
    requires LastWordsFrom(k, n, c, s, until) && LeaseRunsOut(n, c, s, until)
    ensures LastWordsFrom(k, Applied(n, step), c, s, until) && LeaseRunsOut(Applied(n, step), c, s, until)
  {
    hide Live, Updated, Added, Refreshed, PurgedServers, NoDuplicates;
    var m := Applied(n, step);
    match step
    case Pass(_) =>
    case Arrive(p) =>
      if p.ToServer? && p.s == s {
        assert ToServer(p.c, p.s, p.at) == p;
        UpdatedIsProper(n.leases[s], n.ports, p.c, n.now);
        forall e | e in m.leases[s] && e.host == c
          ensures e in n.leases[s] || (p.c == c && e.expired == n.now + CLIENT_LEASE)
        {
          InUpdated(n.leases[s], p.c, n.now, e);
        }
      }
    case Tick(_) =>
    case Alarm(s') =>
      if s' == s {
        LiveIsProper(n.leases[s], n.ports, n.now);
      }
    case Hello(c', s') =>
      if s' == s {
        AddedIsProper(n.leases[s], n.ports, c', n.now);
        forall e | e in m.leases[s] && e.host == c ensures e in n.leases[s] {
          AddedKeepsOthers(n.leases[s], c', n.ports[c'], n.now, e);
        }
      }
  }

  // A client that has fallen silent, and may have stopped for good, is gone from the server's list by
  // the first alarm after its lease has run out: no later than `until` plus the time between two alarms.
  lemma {:induction false} SilentClientIsDropped(k: Timing, n: Net, steps: seq<NetStep>,
        c: Client, s: Server, until: int)
    requires Prompt(k) && s in k.servers
    requires OnTime(k, n) && RunEnabled(k, n, steps) && NoWordTo(steps, c, s)
    requires LastWordsFrom(k, n, c, s, until) && LeaseRunsOut(n, c, s, until)
    ensures var m := AppliedAll(k, n, steps);
            s in m.leases && (m.now >= until + k.alarm ==> forall e :: e in m.leases[s] ==> e.host != c)
    decreases |steps|
  {
    hide Applied, LastWordsFrom;
    if steps != [] {
      assert steps[0] != Tick(c) && steps[0] != Hello(c, s);
      StepIsOnTime(k, n, steps[0]);
      StepLeaseRunsOut(k, n, steps[0], c, s, until);
      SilentClientIsDropped(k, Applied(n, steps[0]), steps[1..], c, s, until);
    }
  }

  // ---------- Runs in which a peer stops ----------

  // A client and a server that have each other; each has just heard from the other.
  function JustRenewed(c: Client, s: Server): Net {
    Net(0, map[c := 0], map[c := map[s := SERVER_LEASE]], map[c := 0], map[c := {}],
        map[s := [Lease(c, 0, CLIENT_LEASE)]], map[s := 0], {})
  }

  // m times `dt` passes, and then something is done.
  function Repeated(dt: int, step: NetStep, m: nat): seq<NetStep> {
    if m == 0 then [] else [Pass(dt), step] + Repeated(dt, step, m - 1)
  }

  lemma {:induction false} InRepeated(dt: int, step: NetStep, m: nat, i: nat)
    requires i < |Repeated(dt, step, m)|
    ensures Repeated(dt, step, m)[i] == Pass(dt) || Repeated(dt, step, m)[i] == step
  {
    if i >= 2 {
      InRepeated(dt, step, m - 1, i - 2);
    }
  }

  lemma TwoMoreSteps(k: Timing, n: Net, a: NetStep, b: NetStep, rest: seq<NetStep>)
    requires Enabled(k, n, a) && Enabled(k, Applied(n, a), b) && RunEnabled(k, Applied(Applied(n, a), b), rest)
    ensures RunEnabled(k, n, [a, b] + rest)
    ensures AppliedAll(k, n, [a, b] + rest) == AppliedAll(k, Applied(Applied(n, a), b), rest)
  {
    hide Applied;
    var steps := [a, b] + rest;
    assert steps[1..] == [b] + rest && ([b] + rest)[1..] == rest;
    assert RunEnabled(k, Applied(n, a), [b] + rest);
  }

  // Only the server keeps time, and nothing is on its way to it: its alarms can come for ever.
  ghost predicate ServerAlone(k: Timing, n: Net, s: Server) {
    && k.alarm > 0 && k.clients == {} && k.servers == {s}
    && WellFormed(n) && s in n.leases && n.alarmed[s] == n.now && forall p :: p in n.flying ==> p.ToClient?
  }

  lemma OneAlarm(k: Timing, n: Net, s: Server)
    requires ServerAlone(k, n, s)
    ensures Enabled(k, n, Pass(k.alarm)) && Enabled(k, Applied(n, Pass(k.alarm)), Alarm(s))
    ensures var next := Applied(Applied(n, Pass(k.alarm)), Alarm(s));
            ServerAlone(k, next, s) && next.now == n.now + k.alarm
  {
    hide Live;
  }

  lemma {:induction false} AlarmsGoOn(k: Timing, n: Net, s: Server, m: nat)
    requires ServerAlone(k, n, s)
    ensures RunEnabled(k, n, Repeated(k.alarm, Alarm(s), m))
    ensures AppliedAll(k, n, Repeated(k.alarm, Alarm(s), m)).now == n.now + m * k.alarm
    decreases m
  {
    if m > 0 {
      OneAlarm(k, n, s);
      hide Applied, Enabled, ServerAlone;
      var next := Applied(Applied(n, Pass(k.alarm)), Alarm(s));
      AlarmsGoOn(k, next, s, m - 1);
      TwoMoreSteps(k, n, Pass(k.alarm), Alarm(s), Repeated(k.alarm, Alarm(s), m - 1));
      OneMore(m, k.alarm);
    }
  }

  lemma OneMore(m: nat, d: int)
    ensures (m - 1) * d + d == m * d
  {
  }

  lemma AtLeast(m: nat, d: int)
    requires d > 0
    ensures m * d >= m
  {
  }

  // A client that stops right after its lease has been renewed: there are runs that go on until the
  // lease has run out and beyond, and in them it is dropped.
  lemma StoppedClientIsDropped(k: Timing, c: Client, s: Server) returns (steps: seq<NetStep>)
    requires Prompt(k) && k.clients == {} && k.servers == {s}
    ensures var n := JustRenewed(c, s);
            && n.leases[s][0].host == c && RunEnabled(k, n, steps) && NoWordTo(steps, c, s)
            && var m := AppliedAll(k, n, steps);
               && m.now >= CLIENT_LEASE + k.alarm
               && s in m.leases && forall e :: e in m.leases[s] ==> e.host != c
  {
    var n := JustRenewed(c, s);
    assert OnTime(k, n) && LastWordsFrom(k, n, c, s, CLIENT_LEASE) && LeaseRunsOut(n, c, s, CLIENT_LEASE);
    assert ServerAlone(k, n, s);
    hide OnTime, LastWordsFrom, LeaseRunsOut, ServerAlone, RunEnabled, AppliedAll;
    var m := CLIENT_LEASE + k.alarm;
    steps := Repeated(k.alarm, Alarm(s), m);
    AlarmsGoOn(k, n, s, m);
    AtLeast(m, k.alarm);
    forall i | 0 <= i < |steps| ensures steps[i] != Tick(c) && steps[i] != Hello(c, s) {
      InRepeated(k.alarm, Alarm(s), m, i);
    }
    SilentClientIsDropped(k, n, steps, c, s, CLIENT_LEASE);
  }

  // Only the client keeps time, and nothing is on its way to it: its ticks can come for ever.
  ghost predicate ClientAlone(k: Timing, n: Net, c: Client) {
    && k.tick > 0 && k.clients == {c} && k.servers == {}
    && WellFormed(n) && c in n.servers && n.ticked[c] == n.now && forall p :: p in n.flying ==> p.ToServer?
  }

  lemma OneTick(k: Timing, n: Net, c: Client)
    requires ClientAlone(k, n, c)
    ensures Enabled(k, n, Pass(k.tick)) && Enabled(k, Applied(n, Pass(k.tick)), Tick(c))
    ensures var next := Applied(Applied(n, Pass(k.tick)), Tick(c));
            ClientAlone(k, next, c) && next.now == n.now + k.tick
  {
    hide Refreshed, PurgedServers;
  }

  lemma {:induction false} TicksGoOn(k: Timing, n: Net, c: Client, m: nat)
    requires ClientAlone(k, n, c)
    ensures RunEnabled(k, n, Repeated(k.tick, Tick(c), m))
    ensures AppliedAll(k, n, Repeated(k.tick, Tick(c), m)).now == n.now + m * k.tick
    decreases m
  {
    if m > 0 {
      OneTick(k, n, c);
      hide Applied, Enabled, ClientAlone;
      var next := Applied(Applied(n, Pass(k.tick)), Tick(c));
      TicksGoOn(k, next, c, m - 1);
      TwoMoreSteps(k, n, Pass(k.tick), Tick(c), Repeated(k.tick, Tick(c), m - 1));
      OneMore(m, k.tick);
    }
  }

  // The same for a server that stops right after it has been heard from.
  lemma StoppedServerIsDropped(k: Timing, c: Client, s: Server) returns (steps: seq<NetStep>)
    requires Prompt(k) && k.clients == {c} && k.servers == {}
    ensures var n := JustRenewed(c, s);
            && s in n.servers[c] && RunEnabled(k, n, steps) && NoWordFrom(steps, c, s)
            && var m := AppliedAll(k, n, steps);
               && m.now >= SERVER_LEASE + k.tick
               && c in m.servers && s !in m.servers[c]
  {
    var n := JustRenewed(c, s);
    assert OnTime(k, n) && LastWordsTo(k, n, c, s, SERVER_LEASE) && EntryRunsOut(n, c, s, SERVER_LEASE);
    assert ClientAlone(k, n, c);
    hide OnTime, LastWordsTo, EntryRunsOut, ClientAlone, RunEnabled, AppliedAll;
    var m := SERVER_LEASE + k.tick;
    steps := Repeated(k.tick, Tick(c), m);
    TicksGoOn(k, n, c, m);
    AtLeast(m, k.tick);
    forall i | 0 <= i < |steps| ensures steps[i] != Alarm(s) && steps[i] != Hello(c, s) {
      InRepeated(k.tick, Tick(c), m, i);
    }
    SilentServerIsDropped(k, n, steps, c, s, SERVER_LEASE);
  }

  // ---------- The purge as written ----------

  // A step with the purge of an alarm as written: the list is what the links lead to afterwards, and
  // the server sends to all of it.
  function StepAsWritten(n: Net, step: NetStep): Net
    requires Possible(n, step)
  {
    match step
    case Alarm(s) =>
      var left := Purged(n.leases[s], n.now);
      n.(leases := n.leases[s := left],
         flying := n.flying + ServerSends(s, left, n.now),
         alarmed := n.alarmed[s := n.now])
    case _ => Applied(n, step)
  }

  // An alarm meets no two expired neighbours behind the expired leases at the head.
  ghost predicate TidyStep(n: Net, step: NetStep)
    requires Possible(n, step)
  {
    step.Alarm? ==> !ExpiredNeighbours(WithoutHead(n.leases[step.s], n.now), n.now)
  }

  // It makes no difference exactly then.
  lemma AsWrittenIff(n: Net, step: NetStep)
    requires Possible(n, step)
    ensures StepAsWritten(n, step) == Applied(n, step) <==> TidyStep(n, step)
  {
    hide Purged, Live, ExpiredNeighbours, WithoutHead;
    if step.Alarm? {
      PurgedIsLiveIff(n.leases[step.s], n.now);
      assert StepAsWritten(n, step).leases[step.s] == Purged(n.leases[step.s], n.now);
      assert Applied(n, step).leases[step.s] == Live(n.leases[step.s], n.now);
    }
  }

  ghost predicate TidyRun(k: Timing, n: Net, steps: seq<NetStep>)
    decreases |steps|
  {
    steps == [] || (
      && Enabled(k, n, steps[0]) && TidyStep(n, steps[0])
      && TidyRun(k, StepAsWritten(n, steps[0]), steps[1..]))
  }

  ghost function AllAsWritten(k: Timing, n: Net, steps: seq<NetStep>): Net
    requires TidyRun(k, n, steps)
    decreases |steps|
  {
    if steps == [] then n else AllAsWritten(k, StepAsWritten(n, steps[0]), steps[1..])
  }

  // So all that is proved of runs holds of the code as written in every run whose alarms are tidy.
  lemma {:induction false} TidyRunsAreRuns(k: Timing, n: Net, steps: seq<NetStep>)
    requires TidyRun(k, n, steps)
    ensures RunEnabled(k, n, steps) && AllAsWritten(k, n, steps) == AppliedAll(k, n, steps)
    decreases |steps|
  {
    hide Applied, StepAsWritten;
    if steps != [] {
      AsWrittenIff(n, steps[0]);
      TidyRunsAreRuns(k, StepAsWritten(n, steps[0]), steps[1..]);
    }
  }
}
