/**
 * A client's side of the leases (client/Net/Peep/BC/BC.pm:145-203, 537-650, 745-789): the hash of
 * known servers, refreshed and purged at every tick. Autodiscovery is on and the protocol is UDP.
 */
module BroadcastClient {
  import opened Events
  import opened LeaseProtocol

  const BC_INTERVAL: int := 40

  class BcClient {
    const me: Client
    // %Servers with the 'expires' field, and __LAST_BC_INTERVAL__.
    var servers: map<Server, int>
    var lastBc: int

    constructor (c: Client)
      ensures me == c && servers == map[] && lastBc == 0
    {
      me := c;
      servers := map[];
      lastBc := 0;
    }

    // hello( PROT_CLIENT_STILL_ALIVE )
    method Hello(now: int) returns (sent: set<Packet>)
      ensures sent == ClientSends(me, servers, now)
    {
      sent := {};
      var keys := servers.Keys;
      while exists s :: s in keys
        invariant keys <= servers.Keys
        invariant sent == set s | s in servers && s !in keys :: ToServer(me, s, now)
        decreases keys
      {
        var s :| s in keys;
        sent := sent + {ToServer(me, s, now)};
        keys := keys - {s};
      }
    }

    // updateserver: the server is known for the minutes and seconds that its packet gives.
    method UpdateServer(s: Server, min: Byte, sec: Byte, now: int)
      modifies this`servers
      ensures servers == old(servers)[s := now + min as int * 60 + sec as int]
    {
      servers := servers[s := now + min as int * 60 + sec as int];
    }

    // updateserverlist, for the packets that wait in the socket. A server's packet carries its lease.
    method UpdateServerList(received: seq<Packet>, now: int)
      modifies this`servers
      ensures servers == Refreshed(old(servers), (set p | p in received), now)
    {
      for i := 0 to |received|
        invariant servers == Refreshed(old(servers), (set p | p in received[..i]), now)
      {
        assert received[..i + 1] == received[..i] + [received[i]];
        match received[i]
        case ToClient(s, _, _) =>
          UpdateServer(s, SERVER_LEASE_MIN, SERVER_LEASE_SEC, now);
        case ToServer(_, _, _) =>
      }
      assert received[..|received|] == received;
    }

    // purgeserverlist
    method PurgeServerList(now: int)
      modifies this`servers
      ensures servers == PurgedServers(old(servers), now)
    {
      var keys := servers.Keys;
      while exists s :: s in keys
        invariant keys <= old(servers).Keys
        invariant servers == map s | s in old(servers) && (s in keys || old(servers)[s] > now) :: old(servers)[s]
        decreases keys
      {
        var s :| s in keys;
        if servers[s] <= now {
          servers := servers - {s};
        }
        keys := keys - {s};
      }
    }

    // handlealarm: what the client does at a tick is what the protocol's step Tick says. With no
    // server known it only counts, and broadcasts after BC_INTERVAL ticks.
    method HandleAlarm(received: seq<Packet>, now: int) returns (sent: set<Packet>, broadcast: bool)
      modifies this
      ensures sent == ClientSends(me, old(servers), now)
      ensures servers == PurgedServers(Refreshed(old(servers), (set p | p in received), now), now)
      ensures broadcast <==> old(servers) == map[] && old(lastBc) >= BC_INTERVAL
      ensures lastBc == if old(servers) == map[] && !broadcast then old(lastBc) + 1 else 0
    {
      sent := {};
      broadcast := false;
      if servers != map[] {
        sent := Hello(now);
        lastBc := 0;
      } else {
        lastBc := lastBc + 1;
        if lastBc > BC_INTERVAL {
          broadcast := true;
          lastBc := 0;
        }
      }
      UpdateServerList(received, now);
      PurgeServerList(now);
    }
  }
}
