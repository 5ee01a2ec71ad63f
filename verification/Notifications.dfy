/**
 * Batching of e-mail notifications (client/Net/Peep/Notifier/Notifier.pm:48-430): a notification is
 * kept per client until a mail to the client's recipients is due.
 */
module Notifications {
  import opened Options

  datatype Notification = Notification(client: string, status: string, message: string, datetime: int)

  // What the configuration says, per client name.
  datatype Settings = Settings(hostname: string, relays: seq<string>, interval: nat,
                               hosts: map<string, seq<string>>, recipients: map<string, seq<string>>,
                               levels: map<string, string>)

  // $NOTIFICATIONS->{client}: its NOTIFICATIONS and its SEND_TIME, if there has been one.
  datatype Batch = Batch(pending: seq<Notification>, sendTime: Option<int>)

  datatype Mail = Mail(recipients: seq<string>, client: string, at: int, body: seq<Notification>)

  // A call of notify: when it looks at the clock, how long the mail takes, and whether a relay takes it.
  datatype Call = Call(n: Notification, force: bool, now: int, took: nat, relayed: bool)

  datatype Answer = Died | Undef | Zero | One

  datatype Desk = Desk(batches: map<string, Batch>, mails: seq<Mail>)

  // ---------- Perl's tests ----------

  predicate Truthy(s: string) {
    s != "" && s != "0"
  }

  // =~ /^w$/, which lets a newline follow
  predicate IsWord(s: string, w: string) {
    s == w || s == w + "\n"
  }

  // =~ /w/
  predicate Contains(s: string, w: string) {
    exists i :: 0 <= i <= |s| && w <= s[i..]
  }

  predicate HostMatches(host: string, hostname: string) {
    host == hostname || IsWord(host, "all") || IsWord(host, "localhost") || IsWord(host, "127.0.0.1")
  }

  predicate HostsMatch(hosts: seq<string>, hostname: string) {
    "none" !in hosts && AnyMatches(hosts, hostname)
  }

  predicate AnyMatches(hosts: seq<string>, hostname: string) {
    exists h :: h in hosts && HostMatches(h, hostname)
  }

  lemma AnyMatchesLast(hosts: seq<string>, h: string, hostname: string)
    ensures AnyMatches(hosts + [h], hostname) <==> AnyMatches(hosts, hostname) || HostMatches(h, hostname)
  {
    hide HostMatches;
    assert h in hosts + [h];
    if g :| g in hosts && HostMatches(g, hostname) {
      assert g in hosts + [h];
    }
  }

  // Which hosts a client may name: this one, or one of three words, at the end of a line or not. A single
  // "none" shuts all of them out.
  lemma HostsMatchIff(hosts: seq<string>, hostname: string)
    ensures HostsMatch(hosts, hostname) <==>
            && "none" !in hosts
            && exists h :: h in hosts
                 && h in {hostname, "all", "all\n", "localhost", "localhost\n", "127.0.0.1", "127.0.0.1\n"}
  {
    assert "all" + "\n" == "all\n" && "localhost" + "\n" == "localhost\n" && "127.0.0.1" + "\n" == "127.0.0.1\n";
  }

  // The test in notify and the one in _getNotifications.
  predicate Passes(level: string, status: string) {
    (level == "crit" ==> status == "crit")
    && (level == "warn" ==> IsWord(status, "warn") || IsWord(status, "crit"))
  }

  // Which statuses pass which level.
  lemma PassesIff(level: string, status: string)
    ensures Passes(level, status) <==>
            match level
            case "crit" => status == "crit"
            case "warn" => status in {"warn", "crit", "warn\n", "crit\n"}
            case _ => true
  {
    assert "warn" + "\n" == "warn\n" && "crit" + "\n" == "crit\n";
  }

  predicate IsDue(level: string, status: string) {
    if level == "crit" then status == "crit"
    else if level == "warn" then Contains(status, "warn") || Contains(status, "crit")
    else true
  }

  lemma WhatPassesIsDue(level: string, status: string)
    requires Passes(level, status)
    ensures IsDue(level, status)
  {
    if level == "warn" {
      assert status[0..] == status;
    }
  }

  // _getNotifications
  function Due(level: string, ns: seq<Notification>): seq<Notification> {
    if ns == [] then []
    else (if IsDue(level, ns[0].status) then [ns[0]] else []) + Due(level, ns[1..])
  }

  lemma {:induction false} AllAreDue(level: string, ns: seq<Notification>)
    requires forall n :: n in ns ==> Passes(level, n.status)
    ensures Due(level, ns) == ns
  {
    if ns != [] {
      assert ns[0] in ns;
      WhatPassesIsDue(level, ns[0].status);
      AllAreDue(level, ns[1..]);
    }
  }

  function Reversed<T>(s: seq<T>): seq<T> {
    if s == [] then [] else Reversed(s[1..]) + [s[0]]
  }

  lemma {:induction false} ReversedLast<T>(s: seq<T>, x: T)
    ensures Reversed(s + [x]) == [x] + Reversed(s)
  {
    if s != [] {
      ReversedLast(s[1..], x);
      assert (s + [x])[1..] == s[1..] + [x];
    }
  }

  lemma {:induction false} ReversedTwice<T>(s: seq<T>)
    ensures Reversed(Reversed(s)) == s
  {
    if s != [] {
      ReversedTwice(s[1..]);
      ReversedLast(Reversed(s[1..]), s[0]);
    }
  }

  // ---------- notify ----------

  function BatchOf(batches: map<string, Batch>, c: string): Batch {
    if c in batches then batches[c] else Batch([], None)
  }

  // store
  function Stored(batches: map<string, Batch>, n: Notification): map<string, Batch> {
    var b := BatchOf(batches, n.client);
    batches[n.client := b.(pending := b.pending + [n])]
  }

  // notify gets as far as storing the notification.
  predicate Accepts(cfg: Settings, n: Notification) {
    && Truthy(n.client)
    && n.client in cfg.hosts && n.client in cfg.recipients && n.client in cfg.levels
    && cfg.recipients[n.client] != [] && cfg.hosts[n.client] != []
    && Passes(cfg.levels[n.client], n.status)
    && HostsMatch(cfg.hosts[n.client], cfg.hostname)
    && cfg.relays != []
  }

  predicate TimeToSend(cfg: Settings, b: Batch, now: int) {
    b.sendTime == None || now - b.sendTime.value > cfg.interval
  }

  // _notify
  function Sent(cfg: Settings, d: Desk, c: string, k: Call): (Desk, Answer)
    requires c in cfg.levels && c in cfg.recipients
  {
    var due := Due(cfg.levels[c], BatchOf(d.batches, c).pending);
    if !Truthy(cfg.levels[c]) then (d, Undef)
    else if due == [] || !k.relayed then (d, Zero)
    else (Desk(d.batches[c := Batch([], Some(k.now + k.took))],
               d.mails + [Mail(cfg.recipients[c], c, k.now + k.took, Reversed(due))]), One)
  }

  function Notified(cfg: Settings, d: Desk, k: Call): (Desk, Answer) {
    var c := k.n.client;
    if !Truthy(c) then (d, Died)
    else if !(c in cfg.hosts && c in cfg.recipients && c in cfg.levels) then (d, One)
    else if cfg.recipients[c] == [] || cfg.hosts[c] == [] then (d, Zero)
    else if !Passes(cfg.levels[c], k.n.status) || !HostsMatch(cfg.hosts[c], cfg.hostname) then (d, One)
    else if cfg.relays == [] then (d, Undef)
    else
      var stored := d.(batches := Stored(d.batches, k.n));
      if TimeToSend(cfg, BatchOf(d.batches, c), k.now) || k.force then Sent(cfg, stored, c, k)
      else (stored, One)
  }

  // ---------- force ----------

  // What the clock says and whether a relay takes a mail, when force comes to a client.
  datatype Moment = Moment(now: int, took: nat, relayed: bool)

  // The client has a send time and notifications that have not gone out.
  predicate Forceable(d: Desk, c: string) {
    c in d.batches && d.batches[c].sendTime.Some? && d.batches[c].pending != []
  }

  // The call that force makes for such a client.
  function ForcingCall(d: Desk, c: string, at: Moment): Call
    requires Forceable(d, c)
  {
    Call(d.batches[c].pending[0], true, at.now, at.took, at.relayed)
  }

  function ForcedOne(cfg: Settings, d: Desk, c: string, at: Moment): Desk {
    if Forceable(d, c) then Notified(cfg, d, ForcingCall(d, c, at)).0 else d
  }

  // force over the clients in the order in which the hash lists them. What notify dies of is never kept,
  // as WhatIsKeptIsAccepted says.
  function Forced(cfg: Settings, d: Desk, order: seq<string>, at: string -> Moment): Desk
    decreases |order|
  {
    if order == [] then d
    else
      var c := order[|order| - 1];
      ForcedOne(cfg, Forced(cfg, d, order[..|order| - 1], at), c, at(c))
  }

  class Notifier {
    const cfg: Settings
    var batches: map<string, Batch>
    // The mails that a relay has taken.
    var mails: seq<Mail>

    constructor (s: Settings)
      ensures cfg == s && batches == map[] && mails == []
    {
      cfg := s;
      batches := map[];
      mails := [];
    }

    ghost function State(): Desk
      reads this
    {
      Desk(batches, mails)
    }

    // notify
    method Notify(k: Call) returns (a: Answer)
      modifies this
      ensures (State(), a) == Notified(cfg, old(State()), k)
    {
      var c := k.n.client;
      if !Truthy(c) {
        return Died;
      }
      if !(c in cfg.hosts && c in cfg.recipients && c in cfg.levels) {
        return One;
      }
      if |cfg.recipients[c]| == 0 {
        return Zero;
      }
      if |cfg.hosts[c]| == 0 {
        return Zero;
      }
      var ok := CheckHosts(cfg.hosts[c]);
      if cfg.levels[c] == "crit" && k.n.status != "crit" {
        return One;
      } else if cfg.levels[c] == "warn" && !(IsWord(k.n.status, "warn") || IsWord(k.n.status, "crit")) {
        return One;
      }
      if ok == 0 {
        return One;
      }
      if |cfg.relays| == 0 {
        return Undef;
      }
      Store(k.n);
      if TimeToSend(cfg, batches[c], k.now) || k.force {
        a := SendAll(c, k);
      } else {
        a := One;
      }
    }

    // force, without the number it returns. `order` is what keys %$NOTIFICATIONS gives.
    method Force(order: seq<string>, at: string -> Moment)
      modifies this
      ensures State() == Forced(cfg, old(State()), order, at)
    {
      for i := 0 to |order|
        invariant State() == Forced(cfg, old(State()), order[..i], at)
      {
        var c := order[i];
        assert order[..i + 1][..i] == order[..i];
        if c in batches && batches[c].sendTime.Some? {
          var notifications := batches[c].pending;
          if |notifications| > 0 {
            var m := at(c);
            var _ := Notify(Call(notifications[0], true, m.now, m.took, m.relayed));
          }
        }
      }
      assert order[..|order|] == order;
    }

    // The loop over the acceptable hosts in notify: it counts matches, and gives up at "none".
    method CheckHosts(hosts: seq<string>) returns (ok: nat)
      ensures ok > 0 <==> HostsMatch(hosts, cfg.hostname)
    {
      hide IsWord;
      ok := 0;
      for i := 0 to |hosts|
        invariant "none" !in hosts[..i]
        invariant ok > 0 <==> AnyMatches(hosts[..i], cfg.hostname)
      {
        AnyMatchesLast(hosts[..i], hosts[i], cfg.hostname);
        assert hosts[..i + 1] == hosts[..i] + [hosts[i]];
        if hosts[i] == cfg.hostname {
          ok := ok + 1;
        }
        if IsWord(hosts[i], "all") || IsWord(hosts[i], "localhost") || IsWord(hosts[i], "127.0.0.1") {
          ok := ok + 1;
        }
        if hosts[i] == "none" {
          ok := 0;
          return;
        }
      }
      assert hosts[..|hosts|] == hosts;
    }

    // store
    method Store(n: Notification)
      modifies this`batches
      ensures batches == Stored(old(batches), n)
    {
      if n.client !in batches {
        batches := batches[n.client := Batch([], None)];
      }
      var b := batches[n.client];
      batches := batches[n.client := b.(pending := b.pending + [n])];
    }

    // _notify
    method SendAll(c: string, k: Call) returns (a: Answer)
      requires c in batches && c in cfg.levels && c in cfg.recipients
      modifies this
      ensures (State(), a) == Sent(cfg, old(State()), c, k)
    {
      if !Truthy(cfg.levels[c]) {
        return Undef;
      }
      var due := Due(cfg.levels[c], batches[c].pending);
      if |due| == 0 {
        return Zero;
      }
      var body := GetBody(due);
      if !k.relayed {
        return Zero;
      }
      mails := mails + [Mail(cfg.recipients[c], c, k.now + k.took, body)];
      // _setSendTime, _garbageCollect
      batches := batches[c := batches[c].(sendTime := Some(k.now + k.took))];
      batches := batches[c := batches[c].(pending := [])];
      assert batches == old(batches)[c := Batch([], Some(k.now + k.took))];
      a := One;
    }

    // _getBody: the most recent first.
    method GetBody(due: seq<Notification>) returns (body: seq<Notification>)
      ensures body == Reversed(due)
    {
      body := [];
      var i := |due|;
      assert due[..i] == due;
      while i > 0
        invariant 0 <= i <= |due|
        invariant body + Reversed(due[..i]) == Reversed(due)
      {
        i := i - 1;
        assert due[..i + 1] == due[..i] + [due[i]];
        ReversedLast(due[..i], due[i]);
        body := body + [due[i]];
      }
    }
  }

  // ---------- Whole runs ----------

  function Run(cfg: Settings, calls: seq<Call>): Desk
    decreases |calls|
  {
    if calls == [] then Desk(map[], [])
    else
      var k := |calls| - 1;
      Notified(cfg, Run(cfg, calls[..k]), calls[k]).0
  }

  // What the mails of a client say, and what was to be said, in the order it came.
  function Told(mails: seq<Mail>, c: string): seq<Notification>
    decreases |mails|
  {
    if mails == [] then []
    else
      var m := mails[|mails| - 1];
      Told(mails[..|mails| - 1], c) + (if m.client == c then Reversed(m.body) else [])
  }

  function ToTell(cfg: Settings, calls: seq<Call>, c: string): seq<Notification>
    decreases |calls|
  {
    if calls == [] then []
    else
      var n := calls[|calls| - 1].n;
      ToTell(cfg, calls[..|calls| - 1], c) + (if n.client == c && Accepts(cfg, n) then [n] else [])
  }

  ghost predicate AllPass(cfg: Settings, d: Desk) {
    forall c, n :: c in d.batches && n in d.batches[c].pending ==> c in cfg.levels && Passes(cfg.levels[c], n.status)
  }

  lemma {:induction false} WhatIsKeptPasses(cfg: Settings, calls: seq<Call>)
    ensures AllPass(cfg, Run(cfg, calls))
    decreases |calls|
  {
    if calls != [] {
      var d, k := Run(cfg, calls[..|calls| - 1]), calls[|calls| - 1];
      WhatIsKeptPasses(cfg, calls[..|calls| - 1]);
      CallKeepsPassing(cfg, d, k);
    }
  }

  lemma CallKeepsPassing(cfg: Settings, d: Desk, k: Call)
    requires AllPass(cfg, d)
    ensures AllPass(cfg, Notified(cfg, d, k).0)
  {
    hide Passes, HostsMatch, Due, Reversed, Truthy;
    var e := Notified(cfg, d, k).0;
    forall c, n | c in e.batches && n in e.batches[c].pending
      ensures c in cfg.levels && Passes(cfg.levels[c], n.status)
    {
      assert n == k.n || (c in d.batches && n in d.batches[c].pending);
    }
  }

  // What a call leaves when it has mailed all there is of the client.
  function Mailed(cfg: Settings, d: Desk, k: Call): Desk
    requires Accepts(cfg, k.n)
  {
    var c := k.n.client;
    Desk(d.batches[c := Batch([], Some(k.now + k.took))],
         d.mails + [Mail(cfg.recipients[c], c, k.now + k.took, Reversed(BatchOf(d.batches, c).pending + [k.n]))])
  }

  // A call does nothing, keeps the notification, or mails everything.
  lemma CallOutcomes(cfg: Settings, d: Desk, k: Call)
    requires AllPass(cfg, d)
    ensures var e := Notified(cfg, d, k).0;
            if Accepts(cfg, k.n) then e == d.(batches := Stored(d.batches, k.n)) || e == Mailed(cfg, d, k) else e == d
  {
    hide Passes, HostsMatch, Due, Reversed, Truthy, TimeToSend;
    if Accepts(cfg, k.n) {
      AllAreDue(cfg.levels[k.n.client], BatchOf(d.batches, k.n.client).pending + [k.n]);
    }
  }

  lemma ToldAppends(mails: seq<Mail>, m: Mail, c: string)
    ensures Told(mails + [m], c) == Told(mails, c) + (if m.client == c then Reversed(m.body) else [])
  {
    assert (mails + [m])[..|mails|] == mails;
  }

  // What one call adds to the mails and leaves.
  lemma CallAccounts(cfg: Settings, d: Desk, k: Call, c: string)
    requires AllPass(cfg, d)
    ensures var e := Notified(cfg, d, k).0;
            Told(e.mails, c) + BatchOf(e.batches, c).pending
            == Told(d.mails, c) + BatchOf(d.batches, c).pending
               + (if k.n.client == c && Accepts(cfg, k.n) then [k.n] else [])
  {
    hide Notified, Accepts, Told, Reversed, AllPass;
    CallOutcomes(cfg, d, k);
    var e := Notified(cfg, d, k).0;
    var told, was := Told(d.mails, c), BatchOf(d.batches, c).pending;
    assert told + was + [] == told + was && told + [] == told;
    assert told + was + [k.n] == told + (was + [k.n]);
    if Accepts(cfg, k.n) && e == Mailed(cfg, d, k) {
      var all := BatchOf(d.batches, k.n.client).pending + [k.n];
      ToldAppends(d.mails, e.mails[|d.mails|], c);
      ReversedTwice(all);
      assert told + (was + [k.n]) + [] == told + (was + [k.n]);
    }
  }

  // Every notification that notify takes is in one mail that went out or is still kept, once, and in
  // its place: nothing is lost by a mail that fails.
  lemma {:induction false} EveryNotificationIsToldOnce(cfg: Settings, calls: seq<Call>, c: string)
    ensures var d := Run(cfg, calls);
            Told(d.mails, c) + BatchOf(d.batches, c).pending == ToTell(cfg, calls, c)
    decreases |calls|
  {
    if calls != [] {
      var k := |calls| - 1;
      WhatIsKeptPasses(cfg, calls[..k]);
      EveryNotificationIsToldOnce(cfg, calls[..k], c);
      CallAccounts(cfg, Run(cfg, calls[..k]), calls[k], c);
    }
  }

  // The times of the mails so far and the recorded send times.
  ghost predicate Spaced(cfg: Settings, d: Desk) {
    && (forall i, j :: 0 <= i < j < |d.mails| && d.mails[i].client == d.mails[j].client ==>
          d.mails[j].at - d.mails[i].at > cfg.interval)
    && (forall i :: 0 <= i < |d.mails| ==>
          && d.mails[i].client in d.batches
          && d.batches[d.mails[i].client].sendTime.Some?
          && d.mails[i].at <= d.batches[d.mails[i].client].sendTime.value)
  }

  // Without force, two mails for one client are more than the interval apart.
  lemma {:induction false} MailsAreSpaced(cfg: Settings, calls: seq<Call>)
    requires forall k :: k in calls ==> !k.force
    ensures Spaced(cfg, Run(cfg, calls))
    decreases |calls|
  {
    if calls != [] {
      var k := calls[|calls| - 1];
      var d := Run(cfg, calls[..|calls| - 1]);
      MailsAreSpaced(cfg, calls[..|calls| - 1]);
      assert k in calls;
      CallKeepsSpaced(cfg, d, k);
    }
  }

  lemma CallKeepsSpaced(cfg: Settings, d: Desk, k: Call)
    requires Spaced(cfg, d) && !k.force
    ensures Spaced(cfg, Notified(cfg, d, k).0)
  {
    hide Accepts, Passes, HostsMatch, Due, Reversed, Truthy;
  }

  // When the last mail went out for a client.
  function LastMail(mails: seq<Mail>, c: string): Option<int>
    decreases |mails|
  {
    if mails == [] then None
    else
      var m := mails[|mails| - 1];
      if m.client == c then Some(m.at) else LastMail(mails[..|mails| - 1], c)
  }

  lemma CallKeepsSendTimes(cfg: Settings, d: Desk, k: Call, c: string)
    requires BatchOf(d.batches, c).sendTime == LastMail(d.mails, c)
    ensures var e := Notified(cfg, d, k).0; BatchOf(e.batches, c).sendTime == LastMail(e.mails, c)
  {
    hide Accepts, Passes, HostsMatch, Due, Reversed, Truthy, TimeToSend;
    var e := Notified(cfg, d, k).0;
    if e.mails != d.mails {
      assert e.mails[..|e.mails| - 1] == d.mails;
    }
  }

  // The send time that is kept is that of the last mail, forced or not.
  lemma {:induction false} SendTimeIsLastMail(cfg: Settings, calls: seq<Call>, c: string)
    ensures BatchOf(Run(cfg, calls).batches, c).sendTime == LastMail(Run(cfg, calls).mails, c)
    decreases |calls|
  {
    hide Notified;
    if calls != [] {
      var k := |calls| - 1;
      SendTimeIsLastMail(cfg, calls[..k], c);
      CallKeepsSendTimes(cfg, Run(cfg, calls[..k]), calls[k], c);
    }
  }

  // A mail goes out exactly when it is forced, or the last one for the client is longer ago than the
  // interval, and a relay takes it; then it says all there is, the most recent first.
  lemma MailGoesOutIff(cfg: Settings, calls: seq<Call>, k: Call)
    ensures var d, c := Run(cfg, calls), k.n.client;
            var e := Notified(cfg, d, k).0;
            var all := BatchOf(d.batches, c).pending + [k.n];
            var last := LastMail(d.mails, c);
            var out := && Accepts(cfg, k.n) && Truthy(cfg.levels[c]) && k.relayed
                       && (k.force || last == None || k.now - last.value > cfg.interval);
            e.mails == d.mails
            + if out then [Mail(cfg.recipients[c], c, k.now + k.took, Reversed(all))] else []
  {
    hide Passes, HostsMatch, Due, Reversed, LastMail;
    var d, c := Run(cfg, calls), k.n.client;
    WhatIsKeptPasses(cfg, calls);
    SendTimeIsLastMail(cfg, calls, c);
    if Accepts(cfg, k.n) {
      AllAreDue(cfg.levels[c], BatchOf(d.batches, c).pending + [k.n]);
    }
  }

  // What notify answers. It dies of a call that names no client. For a notification that it takes it says
  // whether all is well: 1 if a mail went out or none was due, 0 if no relay took the one that was due,
  // nothing if the client's level is empty.
  lemma AnswerMeans(cfg: Settings, calls: seq<Call>, k: Call)
    ensures var d, c := Run(cfg, calls), k.n.client;
            var (e, a) := Notified(cfg, d, k);
            var last := LastMail(d.mails, c);
            var due := k.force || last == None || k.now - last.value > cfg.interval;
            && (a == Died <==> c == "" || c == "0")
            && (Accepts(cfg, k.n) ==>
                  && (a == One <==> !due || |e.mails| > |d.mails|)
                  && (a == Zero <==> due && Truthy(cfg.levels[c]) && !k.relayed)
                  && (a == Undef <==> due && !Truthy(cfg.levels[c])))
  {
    hide Passes, HostsMatch, Due, Reversed, LastMail;
    var d, c := Run(cfg, calls), k.n.client;
    WhatIsKeptPasses(cfg, calls);
    SendTimeIsLastMail(cfg, calls, c);
    if Accepts(cfg, k.n) {
      AllAreDue(cfg.levels[c], BatchOf(d.batches, c).pending + [k.n]);
    }
  }

  // And what it answers for one that it does not take: 0 if the client is configured without recipients
  // or hosts, nothing if only a relay is wanting, and otherwise 1, as if all were well.
  lemma RefusalMeans(cfg: Settings, d: Desk, k: Call)
    requires Truthy(k.n.client) && !Accepts(cfg, k.n)
    ensures var c := k.n.client;
            var (e, a) := Notified(cfg, d, k);
            var configured := c in cfg.hosts && c in cfg.recipients && c in cfg.levels;
            && e == d
            && (a == Zero <==> configured && (cfg.recipients[c] == [] || cfg.hosts[c] == []))
            && (a == Undef <==> Accepts(cfg.(relays := ["relay"]), k.n))
            && (a == One || a == Zero || a == Undef)
  {
    hide Passes, HostsMatch, Truthy;
  }

  // force passes the first notification it finds to notify again: that one is told twice.
  lemma ForceTellsTheFirstTwice(cfg: Settings, calls: seq<Call>, c: string, k: Call)
    requires var d := Run(cfg, calls);
             && BatchOf(d.batches, c).pending != [] && k.n == BatchOf(d.batches, c).pending[0]
             && k.force && k.relayed && k.n.client == c && Accepts(cfg, k.n) && Truthy(cfg.levels[c])
    ensures var d := Run(cfg, calls);
            var m := Notified(cfg, d, k).0.mails;
            && |m| == |d.mails| + 1
            && m[|d.mails|].body == [k.n] + Reversed(BatchOf(d.batches, c).pending)
  {
    MailGoesOutIff(cfg, calls, k);
    ReversedLast(BatchOf(Run(cfg, calls).batches, c).pending, k.n);
  }

  // What force mails for a client: if a relay takes it, all that is kept, with the first one at the top
  // again, dated when the mail is done.
  lemma ForcedMailGoesOutIff(cfg: Settings, d: Desk, c: string, at: Moment)
    requires AllPass(cfg, d)
    ensures var b := BatchOf(d.batches, c);
            var out := && b.sendTime != None && b.pending != [] && b.pending[0].client == c
                       && Accepts(cfg, b.pending[0]) && Truthy(cfg.levels[c]) && at.relayed;
            (b.pending != [] ==> b.pending[0].client == c) ==>
              ForcedOne(cfg, d, c, at).mails
              == d.mails
                 + if out
                   then [Mail(cfg.recipients[c], c, at.now + at.took, [b.pending[0]] + Reversed(b.pending))]
                   else []
  {
    hide Passes, HostsMatch, Due, Reversed, TimeToSend;
    var b := BatchOf(d.batches, c);
    if Forceable(d, c) && b.pending[0].client == c && Accepts(cfg, b.pending[0]) {
      AllAreDue(cfg.levels[c], b.pending + [b.pending[0]]);
      ReversedLast(b.pending, b.pending[0]);
    }
  }

  // ---------- When force repeats a notification ----------

  // Everything there is of a client: what its mails tell, and what is kept.
  function Tally(d: Desk, c: string): seq<Notification> {
    Told(d.mails, c) + BatchOf(d.batches, c).pending
  }

  // The notifications of a client are kept under its name.
  ghost predicate Keyed(d: Desk) {
    forall c, n :: c in d.batches && n in d.batches[c].pending ==> n.client == c
  }

  lemma CallKeepsKeyed(cfg: Settings, d: Desk, k: Call)
    requires Keyed(d)
    ensures Keyed(Notified(cfg, d, k).0)
    ensures forall c :: c != k.n.client ==> BatchOf(Notified(cfg, d, k).0.batches, c) == BatchOf(d.batches, c)
  {
    hide Passes, HostsMatch, Due, Reversed, Truthy, TimeToSend;
    var e := Notified(cfg, d, k).0;
    forall c, n | c in e.batches && n in e.batches[c].pending ensures n.client == c {
      assert n == k.n || (c in d.batches && n in d.batches[c].pending);
    }
  }

  // force does again, for a client, the first notification that it has kept.
  ghost predicate Repeats(cfg: Settings, d: Desk, c: string) {
    Forceable(d, c) && Accepts(cfg, d.batches[c].pending[0])
  }

  lemma ForcedOneAccounts(cfg: Settings, d: Desk, c: string, at: Moment, b: string)
    requires AllPass(cfg, d) && Keyed(d)
    ensures var e := ForcedOne(cfg, d, c, at);
            && AllPass(cfg, e) && Keyed(e)
            && Tally(e, b) == Tally(d, b) + (if b == c && Repeats(cfg, d, c) then [d.batches[c].pending[0]] else [])
            && (b != c ==> BatchOf(e.batches, b) == BatchOf(d.batches, b))
  {
    hide Notified, Accepts, AllPass, Told;
    if Forceable(d, c) {
      var k := ForcingCall(d, c, at);
      assert k.n in d.batches[c].pending;
      CallKeepsPassing(cfg, d, k);
      CallKeepsKeyed(cfg, d, k);
      CallAccounts(cfg, d, k, b);
    }
  }

  lemma {:induction false} ForcedAccounts(cfg: Settings, d: Desk, order: seq<string>, at: string -> Moment, b: string)
    requires AllPass(cfg, d) && Keyed(d)
    requires forall i, j :: 0 <= i < j < |order| ==> order[i] != order[j]
    ensures var e := Forced(cfg, d, order, at);
            && AllPass(cfg, e) && Keyed(e)
            && Tally(e, b) == Tally(d, b) + (if b in order && Repeats(cfg, d, b) then [d.batches[b].pending[0]] else [])
            && (b !in order ==> BatchOf(e.batches, b) == BatchOf(d.batches, b))
    decreases |order|
  {
    hide ForcedOne, Accepts, AllPass, Keyed, Tally, Repeats, BatchOf;
    if order != [] {
      var m := |order| - 1;
      var c := order[m];
      ForcedAccounts(cfg, d, order[..m], at, b);
      ForcedAccounts(cfg, d, order[..m], at, c);
      var e := Forced(cfg, d, order[..m], at);
      assert order == order[..m] + [c] && c !in order[..m];
      assert b in order <==> b in order[..m] || b == c;
      assert Tally(d, b) + [] == Tally(d, b);
      RepeatsByBatch(cfg, d, e, c);
      ForcedOneAccounts(cfg, e, c, at(c), b);
    }
  }

  lemma RepeatsByBatch(cfg: Settings, d: Desk, e: Desk, c: string)
    requires BatchOf(e.batches, c) == BatchOf(d.batches, c)
    ensures Repeats(cfg, e, c) <==> Repeats(cfg, d, c)
    ensures Repeats(cfg, d, c) ==> e.batches[c].pending[0] == d.batches[c].pending[0]
  {
    hide Accepts;
  }

  // Forcing the mails out repeats a notification exactly if some client with a send time has one kept
  // that notify takes again. It repeats the first one of each such client, and nothing else, in whatever
  // order it comes to the clients and whether or not a relay takes the mails.
  lemma ForceRepeatsIff(cfg: Settings, d: Desk, order: seq<string>, at: string -> Moment)
    requires AllPass(cfg, d) && Keyed(d)
    requires forall i, j :: 0 <= i < j < |order| ==> order[i] != order[j]
    requires forall c :: c in order <==> c in d.batches
    ensures var e := Forced(cfg, d, order, at);
            && (forall c :: Tally(e, c) == Tally(d, c) + if Repeats(cfg, d, c) then [d.batches[c].pending[0]] else [])
            && ((exists c :: Tally(e, c) != Tally(d, c)) <==> exists c :: Repeats(cfg, d, c))
  {
    hide Forced, AllPass, Keyed, Tally, Accepts;
    var e := Forced(cfg, d, order, at);
    forall c ensures Tally(e, c) == Tally(d, c) + if Repeats(cfg, d, c) then [d.batches[c].pending[0]] else [] {
      ForcedAccounts(cfg, d, order, at, c);
    }
    if c :| Repeats(cfg, d, c) {
      assert |Tally(e, c)| == |Tally(d, c)| + 1;
    }
  }

  // After any calls of notify that is so whenever a client with a send time has anything kept.
  lemma {:induction false} ForceAfterCallsRepeatsIff(cfg: Settings, calls: seq<Call>, c: string)
    ensures var d := Run(cfg, calls);
            AllPass(cfg, d) && Keyed(d) && (Repeats(cfg, d, c) <==> Forceable(d, c))
    decreases |calls|
  {
    WhatIsKeptPasses(cfg, calls);
    WhatIsKeptIsAccepted(cfg, calls);
  }

  ghost predicate AllAccepted(cfg: Settings, d: Desk) {
    forall c, n :: c in d.batches && n in d.batches[c].pending ==> Accepts(cfg, n)
  }

  lemma {:induction false} WhatIsKeptIsAccepted(cfg: Settings, calls: seq<Call>)
    ensures AllAccepted(cfg, Run(cfg, calls)) && Keyed(Run(cfg, calls))
    decreases |calls|
  {
    if calls != [] {
      var d, k := Run(cfg, calls[..|calls| - 1]), calls[|calls| - 1];
      WhatIsKeptIsAccepted(cfg, calls[..|calls| - 1]);
      CallKeepsKeyed(cfg, d, k);
      CallKeepsAccepted(cfg, d, k);
    }
  }

  lemma CallKeepsAccepted(cfg: Settings, d: Desk, k: Call)
    requires AllAccepted(cfg, d)
    ensures AllAccepted(cfg, Notified(cfg, d, k).0)
  {
    hide Passes, HostsMatch, Due, Reversed, Truthy, TimeToSend;
    var e := Notified(cfg, d, k).0;
    forall c, n | c in e.batches && n in e.batches[c].pending ensures Accepts(cfg, n) {
      assert n == k.n || (c in d.batches && n in d.batches[c].pending);
    }
  }
}
