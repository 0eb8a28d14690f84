# Traceroute probing engine in Dafny

This project models the probing engine of the TraceRoute repository:
`ping`, which sends `packets` UDP datagrams with a fixed time to live and
records the ICMP answer to each, and `traceroute`, which calls `ping` with
time to live 1, 2, 3, … until a hop reports the resolved target or the
maximum time to live is reached.

The network is an oracle. One `ping` call receives a `Session`. A session
holds the name of the UDP socket, the address `gethostbyname` returned for
the endpoint, and one `Observation` per datagram sent. An observation is
either a timeout or a reply from an address, with its latency and the
received datagram. `traceroute` receives a `Network`, a function from the
arguments of each `ping` call to its session, and the address its own
`gethostbyname` call returned. The sweep itself is stated over any `ping`
function from call arguments to outcomes; `PingOver` instantiates it with
the modelled `ping` run against a network.

Modules:

- `Wrappers`: `Option` for Python's `None` and `Result` for the raised error.
- `Icmp`: reading the ICMP type and code from the received datagram. They are
  bytes 20 and 21, just behind an option-less 20-byte IPv4 header (IHL = 5,
  section 3.1 of RFC 791). RFC 792 ("Message Formats") puts type and code
  first in the ICMP header. The format `'bbHHh'` reads each byte as a
  **signed** 8-bit value.
- `Prober`: the attempt, hop and observation records, `Ping` and its loop.
- `Tracer`: the time-to-live sweep, `Traceroute` and its `while True` loop.

Behaviour of the code that the model keeps as written:

- Each `ping` call made by `traceroute` resolves the endpoint again, because
  it is passed `endpoint` and not `dest_addr`. A hop's `target` is therefore
  that call's own resolution. It need not equal the trace's `target`.
- The sweep returns `max(max_ttl, 1)` hops when the target is never reached,
  not `max_ttl`: the first `ping` runs before the bound is tested.
- `ping` does not validate `packets`. With `packets <= 0` it sends nothing
  and raises an index error at line 164 reading `ping_time[0]`. This is
  modelled as `Failure(EmptyPingTime)`. `traceroute` propagates it from its
  first hop.
- Both functions have defaults (traceroute.py:26-29, 171-174): port 33434,
  ttl or `max_ttl` 30, timeout 3 and 3 packets. `Call` and `Request` carry the
  same defaults, so `Call(endpoint)` and `Request(endpoint)` are the calls
  `ping(destination)` and `traceroute(destination)` of the repository's
  callers. With the default count the index error cannot arise.
- The IHL field of the reply's IPv4 header is never read. A reply whose header
  carries options is decoded at the same fixed offsets 20 and 21, and `Unpack`
  does the same.

## Model

| member | source | states |
|---|---|---|
| Icmp.Int8 | traceroute.py:134 | The format character `b` reads an octet as the unique value in -128..127 congruent to it modulo 256: octets below 128 are kept, octets of 128 or more become negative |
| Icmp.Int8RoundTrip | traceroute.py:134 | Reading an octet as signed and packing it again is the identity, in both directions |
| Icmp.Int8Unique | traceroute.py:134 | Any signed 8-bit value congruent to the octet modulo 256 is the value `Int8` returns |
| Icmp.Unpack | traceroute.py:134 | Type and code are signed 8-bit values whose packed octets are bytes 20 and 21 of the datagram |
| Icmp.UnpackEncapsulate | traceroute.py:132-134 | For an ICMP message behind a 20-byte IPv4 header, decoding gives back that message's type and code octets, read as signed |
| Icmp.HighOctetDecodesNegative | traceroute.py:134 | A type or code octet is reported negative exactly when it is 128 or more; otherwise the value is the octet itself |
| Prober.Sends | traceroute.py:126 | `range(packets)` runs no iteration when `packets <= 0` and exactly `packets` iterations otherwise |
| Prober.DefaultPingSucceeds | traceroute.py:24-30 | `ping(endpoint)` with its defaults sends three datagrams with ttl 30 and always returns a hop with three attempt records |
| Prober.Record | traceroute.py:84-98 | Entry n has `attempt == n`. A timeout gives address `'*'` and no time, type or code. A reply gives the responder's address, its latency, and bytes 20 and 21 read as signed octets. The address is `'*'` exactly when the attempt timed out |
| Prober.Attempts | traceroute.py:126-158 | The list holds one entry per datagram, in send order: entry i has `attempt == i` and records observation i |
| Prober.Ping | traceroute.py:118-166 | Succeeds exactly when `packets >= 1`. The header keeps the socket name, the resolved target, the requested ttl and the count. `ping_time` has `packets` entries in send order. `dest` is the address of entry 0 |
| Prober.PingLoop | traceroute.py:118-166 | The `for` loop that appends one record per datagram, followed by the read of `ping_time[0]`, computes the same result as `Ping`, including the failure when nothing was sent |
| Prober.DestIsFirstAttempt | traceroute.py:164 | `dest` is `'*'` exactly when the first datagram went unanswered; otherwise it is the first responder's address |
| Prober.DestIgnoresLaterAttempts | traceroute.py:164 | Two sessions that agree on the first observation give hops with the same `dest`, ttl and count, whatever the later datagrams met and whatever the endpoint resolved to |
| Prober.FirstTimeoutHidesLaterReply | traceroute.py:151-164 | With a timeout followed by a reply, `dest` is `'*'` although attempt 1 records the responder |
| Prober.RecordsIcmpAnswer | traceroute.py:132-149 | A time-exceeded answer (type 11, code 0) and a port-unreachable answer (type 3, code 3) are recorded with those type and code values |
| Tracer.Request.ProbeAt | traceroute.py:233-239 | The `ping` call for a given ttl carries that ttl and forwards the trace's endpoint, port, timeout and count unchanged |
| Tracer.Stops | traceroute.py:243 | The break test holds when the hop's `dest` is the target or the ttl has reached `max_ttl`, and only then; a hop whose `dest` is `'*'` below `max_ttl` never stops the loop |
| Tracer.Sweep | traceroute.py:230-244 | A failing first `ping` call aborts the sweep. A successful sweep from ttl t has at least one hop and at most `max(max_ttl - t + 1, 1)` |
| Tracer.SweepSucceeds | traceroute.py:230-244 | If every `ping` call succeeds, the sweep succeeds |
| Tracer.SweepProbes | traceroute.py:230-241 | Hop k of a sweep from ttl t is the answer to the `ping` call with ttl t + k and the caller's other arguments |
| Tracer.SweepStopsAtFirst | traceroute.py:243-244 | No hop before the last passes the break test (`dest == dest_addr or ttl >= max_ttl`), and the last hop does |
| Tracer.SweepCharacterized | traceroute.py:230-244 | Any non-empty list that answers the `ping` calls from ttl t on, in which only the last hop passes the break test, is exactly the sweep's result |
| Tracer.Traceroute | traceroute.py:221-246 | Fails when the first `ping` call fails, and succeeds when every `ping` call does. The header has target `dest_addr`, ttl `max_ttl` and the count. There are between 1 and `max(max_ttl, 1)` hops. Hop k is the answer to the `ping` call with ttl k + 1 and the same endpoint, port, timeout and count. Every earlier hop has `dest != dest_addr` and ttl below `max_ttl`. The last hop reports the target or the list has reached `max_ttl` |
| Tracer.TracerouteLoop | traceroute.py:230-246 | The `while True` loop with its break test computes the same trace as `Traceroute`, including the propagated failure |
| Tracer.HopHeaders | traceroute.py:233-241 | Against a network, the trace succeeds exactly when `packets >= 1`. Hop k's target and source come from its own `ping` call's session, not from the trace's resolution. Its ttl is k + 1 and it holds `packets` attempts |
| Tracer.ReachedTargetEndsTrace | traceroute.py:243-244 | If the `ping` call at some ttl n ≤ `max_ttl` reports the target, the trace has at most n hops and its last hop reports the target |
| Tracer.FullTraceIffUnreached | traceroute.py:230-244 | When every `ping` call succeeds, the trace has exactly `max(max_ttl, 1)` hops if and only if no `ping` call with ttl below `max_ttl` reports the target |
| Tracer.SmallMaxTtlSingleHop | traceroute.py:230-244 | With `max_ttl <= 1` the trace is exactly the hop probed with ttl 1 |
| Tracer.DefaultTraceSucceeds | traceroute.py:169-175 | `traceroute(endpoint)` with its defaults, against a network, always succeeds with between 1 and 30 hops of three attempts each |
| Tracer.FirstTimeoutContinues | traceroute.py:243-244 | A hop below `max_ttl` whose first datagram timed out never ends the trace, because its `dest` is `'*'` |

## Left out

- Socket I/O: opening the raw ICMP and UDP sockets, `settimeout`, `setsockopt`, `sendto`, `recvfrom` and `close` (traceroute.py:104-116, 127, 132, 160-161). Their results are given by the session oracle. Their failures are not modelled: a missing privilege for the raw socket; a time to live the kernel rejects at line 116 (0, above 255, or negative other than -1), so a direct `ping` with ttl 0 raises while `Ping` succeeds; a port outside 0..65535, which `sendto` rejects at line 127; and a negative timeout.
- Tracer.Traceroute: does not model the time-to-live limit of line 116. With `max_ttl > 255`, unless a hop at ttl 255 or below reports the target, the code's `ping` call at ttl 256 raises and the hops already collected are lost, so the code never returns more than 255 hops. `Traceroute` returns up to `max(max_ttl, 1)` hops, because the session oracle never fails.
- Name resolution (traceroute.py:102, 221): `gethostbyname` is an input. The trace's address is a parameter, and each `ping` call's address comes from its session. A `Network` never fails to resolve. In the code, a failure at line 221 raises before any hop exists. A failure at line 102 can happen in the `ping` call for any ttl k. For k ≥ 2 it raises after hops 1..k-1 were appended at line 241 and discards them. `Sweep` already propagates a failing `Probe` at any ttl, so such a failure is expressible through the abstract `ping` function. Only `PingOver` has no resolution error.
- Latency (traceroute.py:128, 133, 139): the clock, the float subtraction and `round(..., 4)` are not modelled. The observation carries the rounded milliseconds, and the model passes them through unchanged.
- Received datagrams shorter than 28 bytes (traceroute.py:131-146): the bare `except` swallows the unpack error, which leaves `pkt_type`/`pkt_code` unassigned or stale from an earlier attempt; unassigned on the first reply, they make line 146 raise `UnboundLocalError`. The `Datagram` type admits only datagrams of at least 28 bytes, so this case is not modelled.
- Which ICMP packet the raw socket delivers: the code does not match a reply to its probe. The observation oracle abstracts this.
- The socket name in `source` is whatever `getsockname` returns; the model takes it from the session. `getsockname` runs at line 119, before the first `sendto` at line 127, while the UDP socket is still unbound, so on Linux every hop's `source` is `('0.0.0.0', 0)`. `Session.source` leaves it unconstrained.
- mapper.py (GUI animation and geolocation over HTTP), agent.py and agent/agent.py (HTTP routes) are not part of this model. agent/traceroute.py is not part of this model either: it uses undefined names and has no coherent behaviour.
