/** The hop prober: one call of `ping`, which sends `packets` UDP datagrams
    with a fixed time to live and records the ICMP answer (or its absence)
    to each one. Sockets, the clock and name resolution are replaced by a
    `Session`: what the operating system and the network returned to that call. */
module Prober {
  import opened Wrappers
  import Icmp

  /** Address recorded for an attempt that received nothing. */
  const NoResponse: string := "*"

  /** A dotted-quad IPv4 address as returned by `gethostbyname` or by
      `recvfrom`; it is never the no-response marker. */
  type Address = a: string | a != NoResponse witness "0.0.0.0"

  /** The local name of the sending socket, `(host, port)`. */
  datatype SocketName = SocketName(host: string, port: int)

  /** What the raw ICMP socket delivered for one datagram sent: nothing
      within the timeout (or a receive error), or a datagram from `address`
      that arrived `latency` milliseconds after the send. */
  datatype Observation =
    | Timeout
    | Reply(address: Address, latency: real, datagram: Icmp.Datagram)

  /** Defaults of `ping` and `traceroute`: the conventional traceroute UDP
      port, a time to live of 30, a 3-second timeout and 3 datagrams. */
  const DefaultPort: int := 33434
  const DefaultTtl: int := 30
  const DefaultTimeout: real := 3.0
  const DefaultPackets: int := 3

  /** The arguments of one `ping` call, with the same defaults. */
  datatype Call = Call(
    endpoint: string,
    port: int := DefaultPort,
    ttl: int := DefaultTtl,
    timeout: real := DefaultTimeout,
    packets: int := DefaultPackets)

  /** What the environment returned to one `ping` call: the name of the UDP
      socket, the address `endpoint` resolved to, and one observation per
      datagram sent, in send order. */
  datatype Session = Session(source: SocketName, target: Address, replies: seq<Observation>)

  /** One entry of `ping_time`. */
  datatype Attempt = Attempt(
    attempt: nat,
    address: string,
    time: Option<real>,
    pktType: Option<int>,
    pktCode: Option<int>)

  /** The record `ping` returns for one time-to-live value. */
  datatype Hop = Hop(
    source: SocketName,
    target: Address,
    dest: string,
    ttl: int,
    packets: int,
    pingTime: seq<Attempt>)

  /** The only failure this model gives `ping`: with no attempt recorded,
      reading the first one raises an index error (traceroute.py:164). */
  datatype PingError = EmptyPingTime

  /** Number of datagrams `range(packets)` sends: none for a count of zero
      or less, otherwise the count itself. */
  function Sends(packets: int): (n: nat)
    ensures n == 0 <==> packets <= 0
    ensures n > 0 ==> n == packets
  {
    if packets > 0 then packets else 0
  }

  /** True when a session answers a call with one observation per datagram sent. */
  predicate Answers(call: Call, s: Session)
  {
    |s.replies| == Sends(call.packets)
  }

  /** The attempt record built for datagram number `n` from what was observed for it. */
  function Record(n: nat, o: Observation): (a: Attempt)
    ensures a.attempt == n
    ensures a.address == NoResponse <==> o.Timeout?
    ensures a.time.Some? <==> o.Reply?
    ensures a.pktType.Some? <==> o.Reply?
    ensures a.pktCode.Some? <==> o.Reply?
    ensures o.Reply? ==> a.address == o.address && a.time == Some(o.latency)
    ensures o.Reply? ==> a.pktType == Some(Icmp.Int8(o.datagram[Icmp.IpHeaderLength]))
    ensures o.Reply? ==> a.pktCode == Some(Icmp.Int8(o.datagram[Icmp.IpHeaderLength + 1]))
  {
    match o
    case Timeout => Attempt(n, NoResponse, None, None, None)
    case Reply(addr, latency, datagram) =>
      var tc := Icmp.Unpack(datagram);
      Attempt(n, addr, Some(latency), Some(tc.pktType), Some(tc.pktCode))
  }

  /** The `ping_time` list after one attempt per observation, each appended in send order. */
  function Attempts(replies: seq<Observation>): (a: seq<Attempt>)
    ensures |a| == |replies|
    ensures forall i :: 0 <= i < |a| ==> a[i].attempt == i
    ensures forall i :: 0 <= i < |a| ==> a[i] == Record(i, replies[i])
    decreases |replies|
  {
    if |replies| == 0 then []
    else
      var n := |replies| - 1;
      Attempts(replies[..n]) + [Record(n, replies[n])]
  }

  /** `ping`: the header keeps the resolved target and the requested ttl and
      count, `ping_time` holds one record per datagram in send order, and
      `dest` is the address of the first attempt. */
  function Ping(call: Call, s: Session): (r: Result<Hop, PingError>)
    requires Answers(call, s)
    ensures r.Success? <==> call.packets >= 1
    ensures r.Success? ==>
      && r.value.source == s.source
      && r.value.target == s.target
      && r.value.ttl == call.ttl
      && r.value.packets == call.packets
      && |r.value.pingTime| == call.packets
      && r.value.dest == r.value.pingTime[0].address
      && (forall i :: 0 <= i < |r.value.pingTime| ==> r.value.pingTime[i] == Record(i, s.replies[i]))
  {
    var attempts := Attempts(s.replies);
    if |attempts| == 0 then Failure(EmptyPingTime)
    else Success(Hop(s.source, s.target, attempts[0].address, call.ttl, call.packets, attempts))
  }

  /** The attempt loop of `ping` as written: one record appended per
      datagram, then `dest` read from the first record. It computes `Ping`. */
  method PingLoop(call: Call, s: Session) returns (r: Result<Hop, PingError>)
    requires Answers(call, s)
    ensures r == Ping(call, s)
  {
    var pingTime: seq<Attempt> := [];
    var packetNo := 0;
    while packetNo < Sends(call.packets)
      invariant 0 <= packetNo <= Sends(call.packets)
      invariant |pingTime| == packetNo
      invariant forall i :: 0 <= i < packetNo ==> pingTime[i] == Record(i, s.replies[i])
    {
      pingTime := pingTime + [Record(packetNo, s.replies[packetNo])];
      packetNo := packetNo + 1;
    }
    assert pingTime == Attempts(s.replies);
    if |pingTime| == 0 {
      return Failure(EmptyPingTime);
    }
    r := Success(Hop(s.source, s.target, pingTime[0].address, call.ttl, call.packets, pingTime));
  }

  /** The hop's `dest` is the no-response marker exactly when the first
      datagram went unanswered, and otherwise the first responder. */
  lemma DestIsFirstAttempt(call: Call, s: Session)
    requires Answers(call, s)
    requires call.packets >= 1
    ensures Ping(call, s).value.dest == NoResponse <==> s.replies[0].Timeout?
    ensures s.replies[0].Reply? ==> Ping(call, s).value.dest == s.replies[0].address
  {
    var h := Ping(call, s).value;
    assert h.pingTime[0] == Record(0, s.replies[0]);
  }

  /** Only the first observation decides `dest`: sessions that agree on it
      give hops with the same `dest`, ttl and count, whatever the later
      datagrams met and whatever address the endpoint resolved to. */
  lemma DestIgnoresLaterAttempts(call: Call, s: Session, s': Session)
    requires Answers(call, s) && Answers(call, s')
    requires call.packets >= 1
    requires s.replies[0] == s'.replies[0]
    ensures Ping(call, s).value.dest == Ping(call, s').value.dest
    ensures Ping(call, s).value.ttl == Ping(call, s').value.ttl
    ensures Ping(call, s).value.packets == Ping(call, s').value.packets
  {
    DestIsFirstAttempt(call, s);
    DestIsFirstAttempt(call, s');
  }

  /** A first attempt that timed out hides every later answer: the hop's
      `dest` is the no-response marker even though attempt 1 was answered. */
  lemma FirstTimeoutHidesLaterReply(call: Call, src: SocketName, target: Address, o: Observation)
    requires call.packets == 2
    requires o.Reply?
    ensures Ping(call, Session(src, target, [Timeout, o])).value.dest == NoResponse
    ensures Ping(call, Session(src, target, [Timeout, o])).value.pingTime[1].address == o.address
  {
    var s := Session(src, target, [Timeout, o]);
    DestIsFirstAttempt(call, s);
    assert Ping(call, s).value.pingTime[1] == Record(1, o);
  }

  /** A router's time-exceeded answer is recorded with type 11 and code 0,
      and the destination's port-unreachable answer with type 3 and code 3. */
  lemma RecordsIcmpAnswer(n: nat, addr: Address, latency: real, ip: seq<Icmp.Byte>, rest: seq<Icmp.Byte>)
    requires |ip| == Icmp.IpHeaderLength
    requires |rest| >= Icmp.IcmpHeaderLength - 2
    ensures var d := Icmp.Encapsulate(ip, Icmp.TimeExceeded, Icmp.TtlExceededInTransit, rest);
      Record(n, Reply(addr, latency, d)) == Attempt(n, addr, Some(latency), Some(11), Some(0))
    ensures var d := Icmp.Encapsulate(ip, Icmp.DestinationUnreachable, Icmp.PortUnreachable, rest);
      Record(n, Reply(addr, latency, d)) == Attempt(n, addr, Some(latency), Some(3), Some(3))
  {
    Icmp.UnpackEncapsulate(ip, Icmp.TimeExceeded, Icmp.TtlExceededInTransit, rest);
    Icmp.UnpackEncapsulate(ip, Icmp.DestinationUnreachable, Icmp.PortUnreachable, rest);
  }

  /** A call with every default argument sends three datagrams with time to
      live 30 and always yields a hop with three attempt records. */
  lemma DefaultPingSucceeds(endpoint: string, s: Session)
    requires Answers(Call(endpoint), s)
    ensures |s.replies| == 3
    ensures Ping(Call(endpoint), s).Success?
    ensures Ping(Call(endpoint), s).value.ttl == 30
    ensures |Ping(Call(endpoint), s).value.pingTime| == 3
  {
  }
}
