/** The route tracer: `traceroute` calls `ping` with time to live 1, 2, 3, …
    and collects the hops until one of them reports the resolved target or
    the maximum time to live is reached. */
module Tracer {
  import opened Wrappers
  import opened Prober

  /** The `ping` function as `traceroute` sees it: the outcome of each call. */
  type Probe = Call -> Result<Hop, PingError>

  /** The network as seen by `ping`: what the environment returns to each
      call, with one observation per datagram sent. */
  type Network = net: Call -> Session | forall c :: Answers(c, net(c))
    witness (c: Call) => Session(SocketName("0.0.0.0", 0), "0.0.0.0", seq(Sends(c.packets), i => Timeout))

  /** `ping` run against a network. */
  function PingOver(net: Network): Probe
  {
    c => Ping(c, net(c))
  }

  /** The arguments of one `traceroute` call, with the defaults of `traceroute`. */
  datatype Request = Request(
    endpoint: string,
    port: int := DefaultPort,
    maxTtl: int := DefaultTtl,
    timeout: real := DefaultTimeout,
    packets: int := DefaultPackets)
  {
    /** The `ping` call made for a given time to live: every other argument is forwarded unchanged. */
    function ProbeAt(ttl: int): (c: Call)
      ensures c.endpoint == endpoint && c.port == port && c.timeout == timeout
      ensures c.packets == packets && c.ttl == ttl
    {
      Call(endpoint, port, ttl, timeout, packets)
    }
  }

  /** The record `traceroute` returns. */
  datatype Trace = Trace(target: Address, ttl: int, packets: int, pingData: seq<Hop>)

  /** The break test of the sweep loop. It holds once the hop reports the
      target or the maximum time to live is reached; a hop whose `dest` is the
      no-response marker never reports the target. */
  function Stops(req: Request, destAddr: Address, hop: Hop, ttl: int): (stop: bool)
    ensures hop.dest == destAddr ==> stop
    ensures ttl >= req.maxTtl ==> stop
    ensures hop.dest == NoResponse && ttl < req.maxTtl ==> !stop
    ensures stop ==> hop.dest == destAddr || ttl >= req.maxTtl
  {
    hop.dest == destAddr || ttl >= req.maxTtl
  }

  /** Hops already collected, followed by the outcome of the rest of the sweep. */
  function Prepend(hops: seq<Hop>, rest: Result<seq<Hop>, PingError>): Result<seq<Hop>, PingError>
  {
    match rest
    case Failure(e) => Failure(e)
    case Success(more) => Success(hops + more)
  }

  /** Prepending nothing leaves an outcome unchanged. */
  lemma PrependNothing(rest: Result<seq<Hop>, PingError>)
    ensures Prepend([], rest) == rest
  {
    if rest.Success? {
      assert [] + rest.value == rest.value;
    }
  }

  /** Prepending a list and then one more hop is prepending the longer list. */
  lemma PrependAppend(hops: seq<Hop>, hop: Hop, rest: Result<seq<Hop>, PingError>)
    ensures Prepend(hops, Prepend([hop], rest)) == Prepend(hops + [hop], rest)
  {
    if rest.Success? {
      assert hops + ([hop] + rest.value) == (hops + [hop]) + rest.value;
    }
  }

  /** The hops the loop appends from time to live `ttl` on, until the break
      test holds; the first failing `ping` call aborts the sweep. */
  function Sweep(req: Request, destAddr: Address, ping: Probe, ttl: int): (r: Result<seq<Hop>, PingError>)
    requires ttl >= 1
    ensures ping(req.ProbeAt(ttl)).Failure? ==> r.Failure?
    ensures r.Success? ==> 1 <= |r.value| <= (if ttl < req.maxTtl then req.maxTtl - ttl + 1 else 1)
    decreases if ttl < req.maxTtl then req.maxTtl - ttl else 0
  {
    match ping(req.ProbeAt(ttl))
    case Failure(e) => Failure(e)
    case Success(hop) =>
      if Stops(req, destAddr, hop, ttl) then Success([hop])
      else Prepend([hop], Sweep(req, destAddr, ping, ttl + 1))
  }

  /** A sweep whose `ping` calls all succeed succeeds. */
  lemma {:induction false} SweepSucceeds(req: Request, destAddr: Address, ping: Probe, ttl: int)
    requires ttl >= 1
    ensures (forall t :: ping(req.ProbeAt(t)).Success?) ==> Sweep(req, destAddr, ping, ttl).Success?
    decreases if ttl < req.maxTtl then req.maxTtl - ttl else 0
  {
    if (forall t :: ping(req.ProbeAt(t)).Success?) && !Stops(req, destAddr, ping(req.ProbeAt(ttl)).value, ttl) {
      SweepSucceeds(req, destAddr, ping, ttl + 1);
    }
  }

  /** Hop k of a sweep started at `ttl` is the answer to the `ping` call with time to live `ttl + k`. */
  lemma {:induction false} SweepProbes(req: Request, destAddr: Address, ping: Probe, ttl: int)
    requires ttl >= 1
    requires Sweep(req, destAddr, ping, ttl).Success?
    ensures var hops := Sweep(req, destAddr, ping, ttl).value;
      forall k :: 0 <= k < |hops| ==> ping(req.ProbeAt(ttl + k)) == Success(hops[k])
    decreases if ttl < req.maxTtl then req.maxTtl - ttl else 0
  {
    var hops := Sweep(req, destAddr, ping, ttl).value;
    var hop := ping(req.ProbeAt(ttl)).value;
    if !Stops(req, destAddr, hop, ttl) {
      SweepProbes(req, destAddr, ping, ttl + 1);
      var rest := Sweep(req, destAddr, ping, ttl + 1).value;
      assert hops == [hop] + rest;
      forall k | 1 <= k < |hops|
        ensures ping(req.ProbeAt(ttl + k)) == Success(hops[k])
      {
        assert hops[k] == rest[k - 1];
        assert ttl + k == (ttl + 1) + (k - 1);
      }
    }
  }

  /** No hop of a sweep before its last passes the break test, and the last one does. */
  lemma {:induction false} SweepStopsAtFirst(req: Request, destAddr: Address, ping: Probe, ttl: int)
    requires ttl >= 1
    requires Sweep(req, destAddr, ping, ttl).Success?
    ensures var hops := Sweep(req, destAddr, ping, ttl).value;
      && (forall k :: 0 <= k < |hops| - 1 ==> !Stops(req, destAddr, hops[k], ttl + k))
      && Stops(req, destAddr, hops[|hops| - 1], ttl + |hops| - 1)
    decreases if ttl < req.maxTtl then req.maxTtl - ttl else 0
  {
    var hops := Sweep(req, destAddr, ping, ttl).value;
    var hop := ping(req.ProbeAt(ttl)).value;
    if Stops(req, destAddr, hop, ttl) {
      assert hops == [hop];
    } else {
      SweepStopsAtFirst(req, destAddr, ping, ttl + 1);
      var rest := Sweep(req, destAddr, ping, ttl + 1).value;
      assert hops == [hop] + rest;
      assert hops[|hops| - 1] == rest[|rest| - 1];
      assert ttl + |hops| - 1 == (ttl + 1) + |rest| - 1;
      forall k | 1 <= k < |hops| - 1
        ensures !Stops(req, destAddr, hops[k], ttl + k)
      {
        assert hops[k] == rest[k - 1];
        assert ttl + k == (ttl + 1) + (k - 1);
      }
    }
  }

  /** A list of hops that answers the `ping` calls from `ttl` on, in which only
      the last hop passes the break test, is exactly what the sweep returns. */
  lemma {:induction false} SweepCharacterized(req: Request, destAddr: Address, ping: Probe, ttl: int, hops: seq<Hop>)
    requires ttl >= 1
    requires |hops| >= 1
    requires forall k :: 0 <= k < |hops| ==> ping(req.ProbeAt(ttl + k)) == Success(hops[k])
    requires forall k :: 0 <= k < |hops| - 1 ==> !Stops(req, destAddr, hops[k], ttl + k)
    requires Stops(req, destAddr, hops[|hops| - 1], ttl + |hops| - 1)
    ensures Sweep(req, destAddr, ping, ttl) == Success(hops)
    decreases |hops|
  {
    assert ping(req.ProbeAt(ttl + 0)) == Success(hops[0]);
    if |hops| > 1 {
      var rest := hops[1..];
      assert !Stops(req, destAddr, hops[0], ttl + 0);
      forall k | 0 <= k < |rest|
        ensures ping(req.ProbeAt((ttl + 1) + k)) == Success(rest[k])
      {
        assert ping(req.ProbeAt(ttl + (k + 1))) == Success(hops[k + 1]);
        assert (ttl + 1) + k == ttl + (k + 1);
      }
      forall k | 0 <= k < |rest| - 1
        ensures !Stops(req, destAddr, rest[k], (ttl + 1) + k)
      {
        assert !Stops(req, destAddr, hops[k + 1], ttl + (k + 1));
        assert (ttl + 1) + k == ttl + (k + 1);
      }
      assert rest[|rest| - 1] == hops[|hops| - 1];
      assert (ttl + 1) + |rest| - 1 == ttl + |hops| - 1;
      SweepCharacterized(req, destAddr, ping, ttl + 1, rest);
      assert hops == [hops[0]] + rest;
    } else {
      assert Stops(req, destAddr, hops[0], ttl);
      assert hops == [hops[0]];
    }
  }

  /** `traceroute`, given the address `endpoint` resolved to at its start.
      Hop k is the answer to the `ping` call with time to live k + 1 and the
      caller's endpoint, port, timeout and count; the sweep ends at the first
      hop whose `dest` is the target, or at the maximum time to live, and
      never returns an empty list. A failing `ping` call aborts the trace. */
  function Traceroute(req: Request, destAddr: Address, ping: Probe): (r: Result<Trace, PingError>)
    ensures ping(req.ProbeAt(1)).Failure? ==> r.Failure?
    ensures (forall t :: ping(req.ProbeAt(t)).Success?) ==> r.Success?
    ensures r.Success? ==>
      && r.value.target == destAddr
      && r.value.ttl == req.maxTtl
      && r.value.packets == req.packets
      && 1 <= |r.value.pingData| <= (if req.maxTtl > 1 then req.maxTtl else 1)
      && (forall k :: 0 <= k < |r.value.pingData| ==>
            ping(req.ProbeAt(k + 1)) == Success(r.value.pingData[k]))
      && (forall k :: 0 <= k < |r.value.pingData| - 1 ==>
            r.value.pingData[k].dest != destAddr && k + 1 < req.maxTtl)
      && (r.value.pingData[|r.value.pingData| - 1].dest == destAddr
          || |r.value.pingData| >= req.maxTtl)
  {
    SweepSucceeds(req, destAddr, ping, 1);
    match Sweep(req, destAddr, ping, 1)
    case Failure(e) => Failure(e)
    case Success(hops) =>
      SweepProbes(req, destAddr, ping, 1);
      SweepStopsAtFirst(req, destAddr, ping, 1);
      assert forall k :: 0 <= k < |hops| ==> ping(req.ProbeAt(k + 1)) == Success(hops[k]) by {
        forall k | 0 <= k < |hops| ensures ping(req.ProbeAt(k + 1)) == Success(hops[k]) {
          assert ping(req.ProbeAt(1 + k)) == Success(hops[k]);
        }
      }
      assert forall k :: 0 <= k < |hops| - 1 ==> !Stops(req, destAddr, hops[k], k + 1) by {
        forall k | 0 <= k < |hops| - 1 ensures !Stops(req, destAddr, hops[k], k + 1) {
          assert !Stops(req, destAddr, hops[k], 1 + k);
        }
      }
      Success(Trace(destAddr, req.maxTtl, req.packets, hops))
  }

  /** The `while True` loop of `traceroute` as written: it computes the same
      outcome as the recursive sweep, including a failure raised by `ping`. */
  method TracerouteLoop(req: Request, destAddr: Address, ping: Probe) returns (r: Result<Trace, PingError>)
    ensures r == Traceroute(req, destAddr, ping)
  {
    var hops: seq<Hop> := [];
    var ttl := 0;
    PrependNothing(Sweep(req, destAddr, ping, 1));
    while true
      invariant 0 <= ttl
      invariant ttl == 0 || ttl < req.maxTtl
      invariant Sweep(req, destAddr, ping, 1) == Prepend(hops, Sweep(req, destAddr, ping, ttl + 1))
      decreases req.maxTtl - ttl
    {
      ttl := ttl + 1;
      var pingData := ping(req.ProbeAt(ttl));
      if pingData.Failure? {
        assert Sweep(req, destAddr, ping, ttl) == Failure(pingData.error);
        assert Sweep(req, destAddr, ping, 1) == Failure(pingData.error);
        return Failure(pingData.error);
      }
      if pingData.value.dest == destAddr || ttl >= req.maxTtl {
        assert Sweep(req, destAddr, ping, ttl) == Success([pingData.value]);
        hops := hops + [pingData.value];
        break;
      }
      assert Sweep(req, destAddr, ping, ttl) == Prepend([pingData.value], Sweep(req, destAddr, ping, ttl + 1));
      PrependAppend(hops, pingData.value, Sweep(req, destAddr, ping, ttl + 1));
      hops := hops + [pingData.value];
    }
    assert Sweep(req, destAddr, ping, 1) == Success(hops);
    r := Success(Trace(destAddr, req.maxTtl, req.packets, hops));
  }

  /** Against a network, the trace succeeds exactly when `packets >= 1`, and
      hop k carries time to live k + 1, the requested count, one attempt per
      datagram, and the target and source of its own `ping` call's session,
      which need not be the trace's target. */
  lemma HopHeaders(req: Request, destAddr: Address, net: Network, k: nat)
    ensures Traceroute(req, destAddr, PingOver(net)).Success? <==> req.packets >= 1
    ensures Traceroute(req, destAddr, PingOver(net)).Success? && k < |Traceroute(req, destAddr, PingOver(net)).value.pingData| ==>
      var hop := Traceroute(req, destAddr, PingOver(net)).value.pingData[k];
      && hop.ttl == k + 1
      && hop.packets == req.packets
      && |hop.pingTime| == req.packets
      && hop.target == net(req.ProbeAt(k + 1)).target
      && hop.source == net(req.ProbeAt(k + 1)).source
  {
    var ping := PingOver(net);
    var c := req.ProbeAt(k + 1);
    assert ping(c) == Ping(c, net(c));
    assert ping(req.ProbeAt(1)) == Ping(req.ProbeAt(1), net(req.ProbeAt(1)));
    if req.packets >= 1 {
      forall t ensures ping(req.ProbeAt(t)).Success? {
        assert ping(req.ProbeAt(t)) == Ping(req.ProbeAt(t), net(req.ProbeAt(t)));
      }
    }
  }

  /** A hop whose first datagram went unanswered never ends the trace before
      the maximum time to live, whatever its later datagrams met. */
  lemma FirstTimeoutContinues(req: Request, destAddr: Address, net: Network, k: nat)
    requires Traceroute(req, destAddr, PingOver(net)).Success?
    requires k < |Traceroute(req, destAddr, PingOver(net)).value.pingData|
    requires k + 1 < req.maxTtl
    requires net(req.ProbeAt(k + 1)).replies[0].Timeout?
    ensures k < |Traceroute(req, destAddr, PingOver(net)).value.pingData| - 1
  {
    var hops := Traceroute(req, destAddr, PingOver(net)).value.pingData;
    var c := req.ProbeAt(k + 1);
    assert PingOver(net)(c) == Success(hops[k]);
    DestIsFirstAttempt(c, net(c));
    assert hops[k].dest == NoResponse;
  }

  /** When the `ping` call at some time to live up to the maximum reports the
      target, the trace ends on a hop reporting the target, no later. */
  lemma ReachedTargetEndsTrace(req: Request, destAddr: Address, ping: Probe, n: int)
    requires Traceroute(req, destAddr, ping).Success?
    requires 1 <= n <= req.maxTtl
    requires ping(req.ProbeAt(n)).Success? && ping(req.ProbeAt(n)).value.dest == destAddr
    ensures var hops := Traceroute(req, destAddr, ping).value.pingData;
      |hops| <= n && hops[|hops| - 1].dest == destAddr
  {
    var hops := Traceroute(req, destAddr, ping).value.pingData;
    assert n - 1 < |hops| ==> ping(req.ProbeAt((n - 1) + 1)) == Success(hops[n - 1]);
    assert |hops| <= n;
    if |hops| >= req.maxTtl {
      assert ping(req.ProbeAt((n - 1) + 1)) == Success(hops[n - 1]);
    }
  }

  /** When every `ping` call succeeds, the trace has the full `max(max_ttl, 1)`
      hops exactly when no time to live below the maximum reaches the target. */
  lemma FullTraceIffUnreached(req: Request, destAddr: Address, ping: Probe)
    requires forall t :: ping(req.ProbeAt(t)).Success?
    ensures var hops := Traceroute(req, destAddr, ping).value.pingData;
      |hops| == (if req.maxTtl > 1 then req.maxTtl else 1)
      <==> forall n :: 1 <= n < req.maxTtl ==> ping(req.ProbeAt(n)).value.dest != destAddr
  {
    var hops := Traceroute(req, destAddr, ping).value.pingData;
    if |hops| == (if req.maxTtl > 1 then req.maxTtl else 1) {
      forall n | 1 <= n < req.maxTtl
        ensures ping(req.ProbeAt(n)).value.dest != destAddr
      {
        assert ping(req.ProbeAt((n - 1) + 1)) == Success(hops[n - 1]);
      }
    }
  }

  /** With a maximum time to live of at most 1 the trace is exactly the hop
      probed with time to live 1. */
  lemma SmallMaxTtlSingleHop(req: Request, destAddr: Address, ping: Probe)
    requires Traceroute(req, destAddr, ping).Success?
    requires req.maxTtl <= 1
    ensures Traceroute(req, destAddr, ping).value.pingData == [ping(req.ProbeAt(1)).value]
  {
    var hops := Traceroute(req, destAddr, ping).value.pingData;
    assert ping(req.ProbeAt(0 + 1)) == Success(hops[0]);
  }

  /** `traceroute(endpoint)` with every default argument, against a network,
      always succeeds with between 1 and 30 hops of three attempts each. */
  lemma DefaultTraceSucceeds(endpoint: string, destAddr: Address, net: Network)
    ensures Traceroute(Request(endpoint), destAddr, PingOver(net)).Success?
    ensures var hops := Traceroute(Request(endpoint), destAddr, PingOver(net)).value.pingData;
      && 1 <= |hops| <= 30
      && forall k :: 0 <= k < |hops| ==> |hops[k].pingTime| == 3
  {
    var req := Request(endpoint);
    HopHeaders(req, destAddr, net, 0);
    var hops := Traceroute(req, destAddr, PingOver(net)).value.pingData;
    forall k | 0 <= k < |hops|
      ensures |hops[k].pingTime| == 3
    {
      HopHeaders(req, destAddr, net, k);
    }
  }
}
