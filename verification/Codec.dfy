/**
 * Packets on the wire: what a client packs (client/Net/Peep/Data/Notice/Notice.pm:73-91 and the
 * headers in client/Net/Peep/BC/BC.pm:459-495) and what the servers make of it: the servlet of
 * server/tcp_server.c:202-340, the datagram loop of server/udp_server.c:113-224 and the unpacking of
 * an event in server/server.c:346-387.
 *
 * A read returns all that was asked for unless the peer has closed the connection.
 */
module Codec {
  import opened Events
  import opened Options

  const PROT_VERSION: Byte := 2
  const PROT_BC_CLIENT: Byte := 2
  const PROT_CLIENT_EVENT: Byte := 4
  const PROT_CONTENT_EVENT: Byte := 2
  const PROT_MAGIC_NUMBER: int := 0xDEADBEEF
  const MAX_UDP_PACKET_SIZE: nat := 512

  // sizeof (HEADER), and sizeof (EVENT_BODY) - sizeof (char *)
  const HEADER_SIZE: nat := 16
  const EVENT_SIZE: nat := 16

  const TWO31: int := 0x8000_0000
  const TWO32: int := 0x1_0000_0000

  // ---------- Numbers ----------

  // pack "C" and "N": the low 8 and 32 bits, the latter in network byte order.
  function PackC(x: int): Byte {
    x % 256
  }

  function PackN(x: int): (b: seq<Byte>)
    ensures |b| == 4
  {
    var u := x % TWO32;
    [u / 0x100_0000, u / 0x1_0000 % 256, u / 0x100 % 256, u % 256]
  }

  // ntohl, as it reads into an unsigned and a signed int.
  function Ntohl(b: seq<Byte>): int
    requires |b| == 4
  {
    var (b0: int, b1: int, b2: int, b3: int) := (b[0], b[1], b[2], b[3]);
    ((b0 * 256 + b1) * 256 + b2) * 256 + b3
  }

  function ToInt(u: int): int {
    if u < TWO31 then u else u - TWO32
  }

  lemma NtohlUndoesPackN(x: int)
    ensures Ntohl(PackN(x)) == x % TWO32
  {
    var u := x % TWO32;
    assert u / 0x1_0000 == u / 0x100_0000 * 256 + u / 0x1_0000 % 256;
    assert u / 0x100 == u / 0x1_0000 * 256 + u / 0x100 % 256;
  }

  // ---------- What a client sends ----------

  datatype Notice = Notice(kind: int, location: int, priority: int, volume: int, dither: int,
                           flags: int, sound: seq<Byte>)

  // getContentEvent
  function ContentEvent(n: Notice): seq<Byte> {
    [PackC(n.kind), PackC(n.location), PackC(n.priority), PackC(n.volume), PackC(n.dither), 0, 0, 0]
    + PackN(n.flags) + PackN(|n.sound|) + n.sound
  }

  datatype ClientPacket = ClientPacket(kind: Byte, content: Byte, body: seq<Byte>)

  // The header that sendout puts before a body.
  function Wire(p: ClientPacket): seq<Byte> {
    [PROT_VERSION, p.kind, p.content, 0, 0, 0, 0, 0] + PackN(PROT_MAGIC_NUMBER) + PackN(|p.body|) + p.body
  }

  function WireAll(ps: seq<ClientPacket>): seq<Byte> {
    if ps == [] then [] else Wire(ps[0]) + WireAll(ps[1..])
  }

  // sendout over UDP
  function Datagram(n: Notice): seq<Byte> {
    Wire(ClientPacket(PROT_CLIENT_EVENT, PROT_CONTENT_EVENT, ContentEvent(n)))
  }

  // ---------- The TCP servlet ----------

  // What reaches serverProcessClientBC and serverProcessClientEventPacket.
  datatype Delivery = Broadcast(body: seq<Byte>) | ClientEvent(content: Byte, body: seq<Byte>)

  // Why the servlet stops: the peer closed between packets or inside a body; it closed inside a
  // header; the header announced a negative length.
  datatype Ending = Closed | CutHeader | BadLength

  datatype Served = Served(deliveries: seq<Delivery>, ending: Ending)

  function Unpacked(kind: Byte, content: Byte, body: seq<Byte>): seq<Delivery> {
    if kind == PROT_BC_CLIENT then [Broadcast(body)]
    else if kind == PROT_CLIENT_EVENT then [ClientEvent(content, body)]
    else []
  }

  // What a servlet makes of everything the peer sends.
  function Serve(s: seq<Byte>): Served
    decreases |s|
  {
    if s == [] then Served([], Closed)
    else if |s| < HEADER_SIZE then Served([], CutHeader)
    else if Ntohl(s[8..12]) != PROT_MAGIC_NUMBER then Serve(s[16..])
    else
      var len := ToInt(Ntohl(s[12..16]));
      if len < 0 then Served([], BadLength)
      else if |s| - HEADER_SIZE < len then Served([], Closed)
      else
        var rest := Serve(s[16 + len..]);
        Served(Unpacked(s[1], s[2], s[16..16 + len]) + rest.deliveries, rest.ending)
  }

  class Servlet {
    // The connection: what the peer sends before it closes, and how much of it has been read.
    const incoming: seq<Byte>
    var pos: nat
    var deliveries: seq<Delivery>

    constructor (s: seq<Byte>)
      ensures incoming == s && pos == 0 && deliveries == []
    {
      incoming := s;
      pos := 0;
      deliveries := [];
    }

    method Read(len: nat) returns (bytes: seq<Byte>)
      requires pos <= |incoming|
      modifies this`pos
      ensures pos == old(pos) + |bytes| <= |incoming|
      ensures var s := incoming[old(pos)..];
              && |bytes| == (if |s| < len then |s| else len)
              && bytes == s[..|bytes|] && incoming[pos..] == s[|bytes|..]
    {
      var n := if |incoming| - pos < len then |incoming| - pos else len;
      bytes := incoming[pos..pos + n];
      pos := pos + n;
    }

    // The switch on the packet's type.
    method Process(kind: Byte, content: Byte, body: seq<Byte>)
      modifies this`deliveries
      ensures deliveries == old(deliveries) + Unpacked(kind, content, body)
    {
      if kind == PROT_BC_CLIENT {
        deliveries := deliveries + [Broadcast(body)];
      } else if kind == PROT_CLIENT_EVENT {
        deliveries := deliveries + [ClientEvent(content, body)];
      }
    }

    // serverServlet
    method ServerServlet() returns (ending: Ending)
      requires pos == 0 && deliveries == []
      modifies this
      ensures Served(deliveries, ending) == Serve(incoming)
    {
      hide Serve;
      assert incoming[0..] == incoming;
      ending := Closed;
      var ended := false;
      while !ended
        invariant pos <= |incoming|
        invariant Serve(incoming) ==
                  if ended then Served(deliveries, ending) else Before(deliveries, Serve(incoming[pos..]))
        decreases |incoming| - pos, !ended
      {
        ended, ending := Turn(deliveries, Serve(incoming));
      }
    }

    // One round of its loop.
    method Turn(ghost before: seq<Delivery>, ghost all: Served) returns (ended: bool, ending: Ending)
      requires pos <= |incoming| && deliveries == before && all == Before(before, Serve(incoming[pos..]))
      modifies this
      ensures pos <= |incoming| && if ended then pos >= old(pos) else pos > old(pos)
      ensures all == if ended then Served(deliveries, ending) else Before(deliveries, Serve(incoming[pos..]))
    {
      hide Ntohl, ToInt, Unpacked;
      ended, ending := false, Closed;
      ghost var s := incoming[pos..];
      var header := Read(HEADER_SIZE);
      if |header| == 0 {
        ended := true;
        return;
      }
      if |header| < HEADER_SIZE {
        ended, ending := true, CutHeader;
        return;
      }
      FieldsOfHeader(s);
      if Ntohl(header[8..12]) != PROT_MAGIC_NUMBER {
        return;
      }
      var len := ToInt(Ntohl(header[12..16]));
      if len < 0 {
        ended, ending := true, BadLength;
        return;
      }
      var body := Read(len);
      if |body| != len {
        return;
      }
      CutTwice(s, HEADER_SIZE, len);
      ghost var rest := Serve(incoming[pos..]);
      Process(header[1], header[2], body);
      assert deliveries + rest.deliveries == before + (Unpacked(s[1], s[2], body) + rest.deliveries);
    }
  }

  // What the whole connection gives, after some deliveries.
  function Before(deliveries: seq<Delivery>, rest: Served): Served {
    Served(deliveries + rest.deliveries, rest.ending)
  }

  lemma FieldsOfHeader(s: seq<Byte>)
    requires |s| >= HEADER_SIZE
    ensures s[..HEADER_SIZE][8..12] == s[8..12] && s[..HEADER_SIZE][12..16] == s[12..16]
  {
  }

  lemma CutTwice(s: seq<Byte>, a: nat, b: nat)
    requires a + b <= |s|
    ensures s[a..][..b] == s[a..a + b] && s[a..][b..] == s[a + b..]
  {
  }

  // ---------- Framing ----------

  function DeliveriesOf(ps: seq<ClientPacket>): seq<Delivery> {
    if ps == [] then [] else Unpacked(ps[0].kind, ps[0].content, ps[0].body) + DeliveriesOf(ps[1..])
  }

  lemma MagicOnTheWire()
    ensures PackN(PROT_MAGIC_NUMBER) == [0xDE, 0xAD, 0xBE, 0xEF]
  {}

  // Where the parts of a packet are.
  lemma WireParts(p: ClientPacket, rest: seq<Byte>)
    requires |p.body| < TWO31
    ensures var s := Wire(p) + rest;
            && |Wire(p)| == 16 + |p.body|
            && s[1] == p.kind && s[2] == p.content && s[8..12] == [0xDE, 0xAD, 0xBE, 0xEF]
            && Ntohl(s[8..12]) == PROT_MAGIC_NUMBER && ToInt(Ntohl(s[12..16])) == |p.body|
            && s[16..16 + |p.body|] == p.body && s[16 + |p.body|..] == rest
  {
    hide Ntohl, PackN;
    var s := Wire(p) + rest;
    assert s[8..12] == PackN(PROT_MAGIC_NUMBER);
    assert s[12..16] == PackN(|p.body|);
    MagicOnTheWire();
    NtohlUndoesPackN(PROT_MAGIC_NUMBER);
    NtohlUndoesPackN(|p.body|);
  }

  // Whatever packets a client sends one after the other, their bodies come out in order, and the
  // servlet is then where the next packet begins.
  lemma {:induction false} PacketsArriveInOrder(ps: seq<ClientPacket>, rest: seq<Byte>)
    requires forall p :: p in ps ==> |p.body| < TWO31
    ensures Serve(WireAll(ps) + rest) ==
            Served(DeliveriesOf(ps) + Serve(rest).deliveries, Serve(rest).ending)
  {
    hide Wire, Ntohl, ToInt, Unpacked;
    if ps == [] {
      assert WireAll(ps) + rest == rest;
      assert DeliveriesOf(ps) + Serve(rest).deliveries == Serve(rest).deliveries;
    } else {
      var more := WireAll(ps[1..]) + rest;
      PacketsArriveInOrder(ps[1..], rest);
      WireParts(ps[0], more);
      assert WireAll(ps) + rest == Wire(ps[0]) + more;
      assert DeliveriesOf(ps) + Serve(rest).deliveries
          == Unpacked(ps[0].kind, ps[0].content, ps[0].body) + (DeliveriesOf(ps[1..]) + Serve(rest).deliveries);
    }
  }

  // What becomes of one packet: a broadcast and a client event are handed on, each with its body, the
  // latter with its content type; a packet of any other type is read over.
  lemma PacketIsDelivered(p: ClientPacket, rest: seq<Byte>)
    requires |p.body| < TWO31
    ensures Serve(Wire(p) + rest)
            == Before(match p.kind
                      case 2 => [Broadcast(p.body)]
                      case 4 => [ClientEvent(p.content, p.body)]
                      case _ => [],
                      Serve(rest))
  {
    hide Wire, Serve;
    PacketsArriveInOrder([p], rest);
    assert WireAll([p]) == Wire(p) + WireAll([]) == Wire(p);
    assert DeliveriesOf([p]) == Unpacked(p.kind, p.content, p.body) + DeliveriesOf([])
        == Unpacked(p.kind, p.content, p.body);
  }

  // What becomes of a connection whose last packet is not whole, after the ones that are: nothing more is
  // delivered, and the servlet ends by what is wanting.
  lemma CutPacketEnds(ps: seq<ClientPacket>, p: ClientPacket, k: nat)
    requires forall q :: q in ps ==> |q.body| < TWO31
    requires |p.body| < TWO31 && k < |Wire(p)|
    ensures Serve(WireAll(ps) + Wire(p)[..k])
            == Served(DeliveriesOf(ps), if 0 < k < 16 then CutHeader else Closed)
  {
    hide Ntohl, ToInt, PackN;
    var rest := Wire(p)[..k];
    PacketsArriveInOrder(ps, rest);
    if k >= 16 {
      WireParts(p, []);
      assert Wire(p) + [] == Wire(p);
      assert rest[8..12] == Wire(p)[8..12] && rest[12..16] == Wire(p)[12..16];
    }
    assert DeliveriesOf(ps) + [] == DeliveriesOf(ps);
  }

  // Sixteen bytes without the magic number are passed over, and a header that announces a negative length
  // ends the connection.
  lemma StrayHeaderIsSkipped(header: seq<Byte>, rest: seq<Byte>)
    requires |header| == 16
    ensures var len := Ntohl(header[12..16]);
            && (header[8..12] != [0xDE, 0xAD, 0xBE, 0xEF] ==> Serve(header + rest) == Serve(rest))
            && (header[8..12] == [0xDE, 0xAD, 0xBE, 0xEF] && len >= TWO31 ==>
                  Serve(header + rest) == Served([], BadLength))
  {
    var s := header + rest;
    assert s[8..12] == header[8..12] && s[12..16] == header[12..16] && s[16..] == rest;
    MagicIff(header[8..12]);
    NtohlInRange(header[12..16]);
    hide Ntohl;
  }

  lemma NtohlInRange(b: seq<Byte>)
    requires |b| == 4
    ensures 0 <= Ntohl(b) < TWO32
  {
  }

  lemma MagicIff(b: seq<Byte>)
    requires |b| == 4
    ensures Ntohl(b) == PROT_MAGIC_NUMBER <==> b == [0xDE, 0xAD, 0xBE, 0xEF]
  {
    var (b0: int, b1: int, b2: int, b3: int) := (b[0], b[1], b[2], b[3]);
    assert b == [b[0], b[1], b[2], b[3]];
  }

  // No two lists of client events look alike on the wire.
  lemma {:induction false} WireIsUnambiguous(ps: seq<ClientPacket>, qs: seq<ClientPacket>)
    requires forall p :: p in ps + qs ==> |p.body| < TWO31 && p.kind == PROT_CLIENT_EVENT
    requires WireAll(ps) == WireAll(qs)
    ensures ps == qs
  {
    PacketsArriveInOrder(ps, []);
    PacketsArriveInOrder(qs, []);
    assert WireAll(ps) + [] == WireAll(ps) && WireAll(qs) + [] == WireAll(qs);
    assert DeliveriesOf(ps) + [] == DeliveriesOf(ps) && DeliveriesOf(qs) + [] == DeliveriesOf(qs);
    EventDeliveries(ps);
    EventDeliveries(qs);
    forall i | 0 <= i < |ps| ensures ps[i] == qs[i] {
      assert DeliveriesOf(ps)[i] == DeliveriesOf(qs)[i];
      assert ps[i] in ps + qs && qs[i] in ps + qs;
    }
  }

  lemma {:induction false} EventDeliveries(ps: seq<ClientPacket>)
    requires forall p :: p in ps ==> p.kind == PROT_CLIENT_EVENT
    ensures |DeliveriesOf(ps)| == |ps|
    ensures forall i :: 0 <= i < |ps| ==> DeliveriesOf(ps)[i] == ClientEvent(ps[i].content, ps[i].body)
  {
    if ps != [] {
      EventDeliveries(ps[1..]);
    }
  }

  // However a transmission is cut short, what has been delivered by then is the beginning of what the
  // whole would have delivered.
  lemma {:induction false} DeliveredSoFarStands(s: seq<Byte>, more: seq<Byte>)
    ensures Serve(s).deliveries <= Serve(s + more).deliveries
    decreases |s|
  {
    hide Ntohl, ToInt, Unpacked;
    if |s| >= HEADER_SIZE {
      var t := s + more;
      assert t[8..12] == s[8..12] && t[12..16] == s[12..16];
      assert t[16..] == s[16..] + more;
      if Ntohl(s[8..12]) != PROT_MAGIC_NUMBER {
        DeliveredSoFarStands(s[16..], more);
      } else {
        var len := ToInt(Ntohl(s[12..16]));
        if 0 <= len <= |s| - HEADER_SIZE {
          assert t[16 + len..] == s[16 + len..] + more;
          assert t[16..16 + len] == s[16..16 + len];
          DeliveredSoFarStands(s[16 + len..], more);
        }
      }
    }
  }

  // ---------- The event in a body ----------

  // memcpy of n bytes; None if that reads outside the data.
  function Memcpy(data: seq<Byte>, from: nat, n: int): (r: Option<seq<Byte>>)
    ensures r.Some? ==> |r.value| == n
  {
    if n < 0 || |data| - from < n then None else Some(data[from..from + n])
  }

  // What copying an event out of a body gives. The code compares no lengths: where it copies from
  // outside the body, the result is not defined.
  datatype Decoding = Fault | Decoded(event: Event)

  // serverProcessClientEventPacket, for PROT_CONTENT_EVENT.
  function EventOf(data: seq<Byte>): Decoding {
    var fields := Memcpy(data, 0, EVENT_SIZE);
    if fields.None? then Fault
    else
      var f := fields.value;
      var sound := Memcpy(data, EVENT_SIZE, ToInt(Ntohl(f[12..16])));
      if sound.None? then Fault
      else Decoded(Event(f[0], f[1], f[2], f[3], f[4], ToInt(Ntohl(f[8..12])), sound.value))
  }

  // The event that a notice asks for, where its numbers fit the fields.
  ghost predicate Fits(n: Notice) {
    && 0 <= n.kind < 256 && 0 <= n.location < 256 && 0 <= n.priority < 256
    && 0 <= n.volume < 256 && 0 <= n.dither < 256 && -TWO31 <= n.flags < TWO31
  }

  ghost predicate Conveys(e: Event, n: Notice) {
    && e.kind == n.kind && e.loc == n.location && e.prior == n.priority && e.vol == n.volume
    && e.dither == n.dither && e.flags == n.flags && e.sound == n.sound
  }

  lemma ByteFits(x: int)
    ensures PackC(x) as int == x <==> 0 <= x < 256
  {}

  lemma IntFits(x: int)
    ensures ToInt(x % TWO32) == x <==> -TWO31 <= x < TWO31
    ensures 0 <= x < TWO31 ==> ToInt(x % TWO32) == x
  {}

  lemma FieldsAre(data: seq<Byte>)
    requires |data| >= EVENT_SIZE
    ensures var f := Memcpy(data, 0, EVENT_SIZE).value;
            f[8..12] == data[8..12] && f[12..16] == data[12..16] && f[..5] == data[..5]
  {
  }

  // Where the fields of a notice are in what the client packs.
  lemma NoticeLayout(n: Notice)
    requires Fits(n)
    ensures var b := ContentEvent(n);
            && |b| == 16 + |n.sound| && b[..5] == [n.kind, n.location, n.priority, n.volume, n.dither]
            && b[8..12] == PackN(n.flags) && b[12..16] == PackN(|n.sound|) && b[16..] == n.sound
  {
    hide PackN;
  }

  // Decoding an encoded notice gives the notice back, whatever follows it in the buffer, exactly if
  // its numbers fit.
  lemma NoticeComesBackIff(n: Notice, rest: seq<Byte>)
    requires |n.sound| < TWO31
    ensures EventOf(ContentEvent(n) + rest).Decoded?
    ensures Conveys(EventOf(ContentEvent(n) + rest).event, n) <==> Fits(n)
  {
    hide PackC, PackN, Ntohl, ToInt;
    ByteFits(n.kind);
    ByteFits(n.location);
    ByteFits(n.priority);
    ByteFits(n.volume);
    ByteFits(n.dither);
    IntFits(n.flags);
    IntFits(|n.sound|);
    var data := ContentEvent(n) + rest;
    assert data[8..12] == PackN(n.flags);
    assert data[12..16] == PackN(|n.sound|);
    FieldsAre(data);
    NtohlUndoesPackN(n.flags);
    NtohlUndoesPackN(|n.sound|);
    assert data[16..16 + |n.sound|] == n.sound;
  }

  // ---------- Datagrams ----------

  // data_buffer after recvfrom: what does not fit is cut off, and what the datagram does not reach
  // stays from before.
  function Landed(stale: seq<Byte>, datagram: seq<Byte>): seq<Byte> {
    if |datagram| <= |stale| then datagram + stale[|datagram|..] else datagram[..|stale|]
  }

  // What the datagram loop makes of a packet: it is no event, or it is decoded.
  datatype Received = Ignored | Unpacking(decoding: Decoding)

  function DatagramEvent(buffer: seq<Byte>): Received {
    if |buffer| < HEADER_SIZE || Ntohl(buffer[8..12]) != PROT_MAGIC_NUMBER then Ignored
    else if buffer[1] != PROT_CLIENT_EVENT || buffer[2] != PROT_CONTENT_EVENT then Ignored
    else Unpacking(EventOf(buffer[16..]))
  }

  class UdpServer {
    const buffer: array<Byte>

    constructor ()
      ensures fresh(buffer) && buffer.Length == MAX_UDP_PACKET_SIZE
    {
      buffer := new Byte[MAX_UDP_PACKET_SIZE](_ => 0);
    }

    // One round of serverRealStart, for a packet with an event that does not read outside the buffer.
    method Receive(datagram: seq<Byte>) returns (e: Option<Event>)
      requires buffer.Length == MAX_UDP_PACKET_SIZE
      requires DatagramEvent(Landed(buffer[..], datagram)) != Unpacking(Fault)
      modifies buffer
      ensures buffer[..] == Landed(old(buffer[..]), datagram)
      ensures DatagramEvent(buffer[..]) == if e.None? then Ignored else Unpacking(Decoded(e.value))
    {
      var n := if |datagram| < buffer.Length then |datagram| else buffer.Length;
      forall i | 0 <= i < n {
        buffer[i] := datagram[i];
      }
      e := None;
      var header := buffer[..HEADER_SIZE];
      assert header[8..12] == buffer[..][8..12];
      assert buffer[..] == Landed(old(buffer[..]), datagram);
      if Ntohl(header[8..12]) != PROT_MAGIC_NUMBER {
        return;
      }
      if header[1] == PROT_CLIENT_EVENT && header[2] == PROT_CONTENT_EVENT {
        assert buffer[HEADER_SIZE..] == buffer[..][16..];
        var event := ProcessEvent(buffer[HEADER_SIZE..]);
        e := Some(event);
      }
    }

    // The PROT_CONTENT_EVENT arm of serverProcessClientEventPacket, where it reads inside the data.
    method ProcessEvent(data: seq<Byte>) returns (e: Event)
      requires EventOf(data) != Fault
      ensures EventOf(data) == Decoded(e)
    {
      var body := data[..EVENT_SIZE];
      var flags := ToInt(Ntohl(body[8..12]));
      var soundLen := ToInt(Ntohl(body[12..16]));
      var sound := data[EVENT_SIZE..EVENT_SIZE + soundLen];
      e := Event(body[0], body[1], body[2], body[3], body[4], flags, sound);
    }
  }

  // The server reads no further than its buffer for a notice that comes by datagram exactly if the
  // sound's name leaves room for the header and the fields; then a notice whose numbers fit arrives,
  // whatever the buffer held before.
  lemma NoticeArrivesByDatagramIff(n: Notice, stale: seq<Byte>)
    requires |stale| == MAX_UDP_PACKET_SIZE && |n.sound| < TWO31 - EVENT_SIZE && Fits(n)
    ensures var e := DatagramEvent(Landed(stale, Datagram(n)));
            && e.Unpacking?
            && (e.decoding != Fault <==> |n.sound| <= MAX_UDP_PACKET_SIZE - HEADER_SIZE - EVENT_SIZE)
            && (e.decoding != Fault ==> Conveys(e.decoding.event, n))
  {
    hide Ntohl, PackN, Wire, ToInt, Fits, Conveys, EventOf;
    var p := ClientPacket(PROT_CLIENT_EVENT, PROT_CONTENT_EVENT, ContentEvent(n));
    var d := Datagram(n);
    var b := Landed(stale, d);
    WireParts(p, []);
    assert d + [] == d;
    assert b[8..12] == d[8..12];
    if |d| <= |stale| {
      assert b[16..] == ContentEvent(n) + stale[|d|..];
      NoticeComesBackIff(n, stale[|d|..]);
    } else {
      assert b[16..] == ContentEvent(n)[..MAX_UDP_PACKET_SIZE - 16];
      CutBodyIsReadPastItsEnd(n, MAX_UDP_PACKET_SIZE - 16);
    }
  }

  // A packet that fits the buffer is taken for an event exactly by its type and content type.
  lemma OtherPacketsAreIgnoredIff(p: ClientPacket, stale: seq<Byte>)
    requires |stale| == MAX_UDP_PACKET_SIZE && |p.body| <= 496
    ensures DatagramEvent(Landed(stale, Wire(p))) == Ignored <==> p.kind != 4 || p.content != 2
  {
    hide Ntohl, PackN, EventOf, ToInt;
    var b := Landed(stale, Wire(p));
    WireParts(p, []);
    assert Wire(p) + [] == Wire(p);
    assert b[8..12] == Wire(p)[8..12];
  }

  // If only the fields of an event arrive, the server takes its sound's name from what an earlier packet
  // left in the buffer.
  lemma StaleNameIsRead(n: Notice, stale: seq<Byte>)
    requires |stale| == MAX_UDP_PACKET_SIZE && Fits(n) && |n.sound| <= 480
    ensures var d := Datagram(n)[..32];
            DatagramEvent(Landed(stale, d))
            == Unpacking(Decoded(Event(n.kind, n.location, n.priority, n.volume, n.dither, n.flags,
                                       stale[32..32 + |n.sound|])))
  {
    hide Ntohl, PackN, PackC, EventOf, ToInt, Wire, ContentEvent;
    var name := stale[32..32 + |n.sound|];
    var m := n.(sound := name);
    SameFields(n, m);
    var d := Datagram(n)[..32];
    assert Landed(stale, d) == Datagram(m) + stale[32 + |n.sound|..];
    assert Landed(stale, Datagram(m)) == Datagram(m) + stale[32 + |n.sound|..];
    NoticeArrivesByDatagramIff(m, stale);
  }

  lemma SameFields(n: Notice, m: Notice)
    requires |n.sound| == |m.sound| && m == n.(sound := m.sound)
    ensures |Datagram(n)| == |Datagram(m)| == 32 + |n.sound|
    ensures Datagram(m) == Datagram(n)[..32] + m.sound
  {
  }

  // For a body that was cut short the server copies from behind its end.
  lemma CutBodyIsReadPastItsEnd(n: Notice, k: nat)
    requires |n.sound| < TWO31 && k < |ContentEvent(n)|
    ensures EventOf(ContentEvent(n)[..k]) == Fault
  {
    hide Ntohl, PackN;
    if k >= EVENT_SIZE {
      var data := ContentEvent(n)[..k];
      assert data[12..16] == PackN(|n.sound|);
      FieldsAre(data);
      NtohlUndoesPackN(|n.sound|);
    }
  }
}
