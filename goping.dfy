/**
 Configuration and orchestration (ping.go): the functional options, the
 constructor with its defaults, host resolution and the `Ping` entry point
 that resolves, runs exactly one transport and reduces its counters.

 Address parsing, name lookup and the privilege probe are outside the model:
 their answers for the host are parameters.
 */
module Goping {
  import opened Records
  import Statistics
  import Icmp
  import Tcp

  // ---------------------------------------------------------------------------
  // Options
  // ---------------------------------------------------------------------------

  /** The four functional options WithCount, WithInterval, WithTimeout and WithSize. */
  datatype Setter =
    | WithCount(c: int)
    | WithInterval(i: int)
    | WithTimeout(t: int)
    | WithSize(s: int)

  /** The fields of Options, to say which field a setter writes. */
  datatype Field = Count | Interval | Timeout | Size

  function Get(o: Options, f: Field): int {
    match f
    case Count => o.count
    case Interval => o.interval
    case Timeout => o.timeout
    case Size => o.size
  }

  function FieldOf(s: Setter): Field {
    match s
    case WithCount(_) => Count
    case WithInterval(_) => Interval
    case WithTimeout(_) => Timeout
    case WithSize(_) => Size
  }

  function ValueOf(s: Setter): int {
    match s
    case WithCount(c) => c
    case WithInterval(i) => i
    case WithTimeout(t) => t
    case WithSize(sz) => sz
  }

  /** Running a setter on the options: it writes its own field and leaves the other three alone. */
  function Apply(s: Setter, o: Options): (r: Options)
    ensures Get(r, FieldOf(s)) == ValueOf(s)
    ensures forall f :: f != FieldOf(s) ==> Get(r, f) == Get(o, f)
  {
    match s
    case WithCount(c) => o.(count := c)
    case WithInterval(i) => o.(interval := i)
    case WithTimeout(t) => o.(timeout := t)
    case WithSize(sz) => o.(size := sz)
  }

  /** The options NewPinger starts from: 5 probes, a 3-second timeout, 64 bytes, no interval. */
  const Defaults: Options := Options(5, 0, 3 * Second, 64)

  /** The setters run in order on a starting value. */
  function ApplyAll(o: Options, setters: seq<Setter>): Options {
    if setters == [] then o
    else Apply(setters[|setters| - 1], ApplyAll(o, setters[..|setters| - 1]))
  }

  /** NewPinger: start from the defaults and run every setter on them, first to last. */
  method NewPinger(host: string, setters: seq<Setter>) returns (p: Pinger)
    ensures p.host == host
    ensures p.options == ApplyAll(Defaults, setters)
  {
    var opts := Defaults;
    for i := 0 to |setters|
      invariant opts == ApplyAll(Defaults, setters[..i])
    {
      assert setters[..i + 1][..i] == setters[..i];
      opts := Apply(setters[i], opts);
    }
    assert setters[..|setters|] == setters;
    p := Pinger(host, opts);
  }

  /** With no setters a pinger has Count 5, Timeout 3s, Size 64 and Interval 0. */
  lemma NoSetterDefaults()
    ensures ApplyAll(Defaults, []) == Options(5, 0, 3 * Second, 64)
    ensures Second == 1_000_000_000
  {
  }

  /** The last setter of a field decides it. */
  lemma {:induction false} LastSetterWins(o: Options, setters: seq<Setter>, k: int)
    requires 0 <= k < |setters|
    requires forall j :: k < j < |setters| ==> FieldOf(setters[j]) != FieldOf(setters[k])
    ensures Get(ApplyAll(o, setters), FieldOf(setters[k])) == ValueOf(setters[k])
  {
    var n := |setters| - 1;
    if k < n {
      LastSetterWins(o, setters[..n], k);
    }
  }

  /** A field no setter names keeps its starting value. */
  lemma {:induction false} UnsetFieldKept(o: Options, setters: seq<Setter>, f: Field)
    requires forall j :: 0 <= j < |setters| ==> FieldOf(setters[j]) != f
    ensures Get(ApplyAll(o, setters), f) == Get(o, f)
  {
    if setters != [] {
      UnsetFieldKept(o, setters[..|setters| - 1], f);
    }
  }

  // ---------------------------------------------------------------------------
  // Resolution
  // ---------------------------------------------------------------------------

  /** What the name lookup of the host returned. */
  datatype Lookup = Found(ips: seq<Ip>) | LookupFailed(cause: string)

  datatype ResolveError =
    | CouldNotResolve(host: string, cause: string)
    | NoAddresses(host: string)

  /**
   resolveIP: a literal address is returned as parsed; otherwise the first
   address the lookup found; an error naming the host when the lookup failed
   or found nothing. `literal` is what parsing the host as an address gave.
   */
  function ResolveIp(host: string, literal: Option<Ip>, lookup: Lookup): (r: Result<Ip, ResolveError>)
    ensures literal.Some? ==> r == Ok(literal.value)
    ensures r.Ok? ==> (literal.Some? && r.value == literal.value) || (lookup.Found? && r.value in lookup.ips)
    ensures r.Err? <==> literal.None? && (lookup.LookupFailed? || lookup.ips == [])
    ensures r.Err? ==> r.error.host == host
  {
    if literal.Some? then Ok(literal.value)
    else match lookup
      case LookupFailed(cause) => Err(CouldNotResolve(host, cause))
      case Found(ips) =>
        if |ips| == 0 then Err(NoAddresses(host)) else Ok(ips[0])
  }

  /** A literal address never depends on the lookup: resolving it performs no lookup. */
  lemma LiteralNeedsNoLookup(host: string, ip: Ip, l1: Lookup, l2: Lookup)
    ensures ResolveIp(host, Some(ip), l1) == ResolveIp(host, Some(ip), l2)
  {
  }

  /** Of several addresses found, the first is chosen. */
  lemma FirstAddressChosen(host: string, ips: seq<Ip>)
    requires |ips| > 0
    ensures ResolveIp(host, None, Found(ips)) == Ok(ips[0])
  {
  }

  // ---------------------------------------------------------------------------
  // Ping
  // ---------------------------------------------------------------------------

  datatype Transport = IcmpTransport | TcpTransport

  datatype PingError =
    | ResolveFailed(cause: ResolveError)
    | IcmpFailed(icmpCause: Icmp.IcmpError)
    | TcpFailed(tcpCause: string)

  /** Everything a Ping observes from the outside world. */
  datatype World = World(
    literal: Option<Ip>,          // the host parsed as an address
    lookup: Lookup,               // the name lookup of the host
    privileged: bool,             // the privilege probe's answer
    icmp: Icmp.IcmpEnv,           // what the echo channel does
    addrText: Ip -> string,       // the text form of an address
    dials: seq<Tcp.Dial>)         // what the connection attempts do

  /** What the transports need of the world and the options once an address is known. */
  predicate Runnable(opts: Options, w: World) {
    && (!w.privileged || w.icmp.listenOk ==> opts.count >= 0)
    && (w.privileged && w.icmp.listenOk ==> (opts.count > 0 ==> opts.size >= 0) && |w.icmp.probes| == opts.count)
    && (!w.privileged ==> |w.dials| == opts.count)
  }

  /** The result of the privileged transport, reduced, once the channel is open. */
  function IcmpStats(dst: Ip, opts: Options, env: Icmp.IcmpEnv): Stats
    requires |env.probes| == opts.count
  {
    var rtts := Icmp.Recorded(env.probes, Icmp.EchoReplyType(Icmp.FamilyOf(dst)), Icmp.Pid(env.rawPid), opts.timeout);
    Icmp.RecordedBound(env.probes, Icmp.EchoReplyType(Icmp.FamilyOf(dst)), Icmp.Pid(env.rawPid), opts.timeout);
    Statistics.Reduce(Icmp.Written(env.probes), |rtts|, rtts)
  }

  /**
   A run whose every write fails reports nothing sent and no loss: a failed
   write is skipped, not counted as a lost probe.
   */
  lemma AllWritesFailedShowsNoLoss(dst: Ip, opts: Options, env: Icmp.IcmpEnv)
    requires |env.probes| == opts.count
    requires forall p :: p in env.probes ==> !p.writeOk
    ensures var st := IcmpStats(dst, opts, env);
      st.sent == 0 && st.recv == 0 && st.rtts == [] && st.loss == 0.0
  {
    Icmp.AllWritesFail(env.probes, Icmp.EchoReplyType(Icmp.FamilyOf(dst)), Icmp.Pid(env.rawPid),
                       opts.timeout, opts.count);
  }

  /** The result of the fallback transport, reduced, when every dial connected. */
  function TcpStats(dials: seq<Tcp.Dial>): Stats
    requires Tcp.FirstRefusal(dials) == |dials|
  {
    Statistics.Reduce(|dials|, |dials|, Tcp.Elapsed(dials))
  }

  /**
   Ping: resolve the host, run exactly one transport (ICMP when privileged,
   else TCP) and reduce its counters. `used` says which transport ran.
   */
  method Ping(p: Pinger, w: World) returns (r: Result<Stats, PingError>, used: Option<Transport>)
    requires ResolveIp(p.host, w.literal, w.lookup).Ok? ==> Runnable(p.options, w)
    ensures var res := ResolveIp(p.host, w.literal, w.lookup);
      && (res.Err? ==> r == Err(ResolveFailed(res.error)) && used == None)
      && (res.Ok? ==> used == Some(if w.privileged then IcmpTransport else TcpTransport))
      && (res.Ok? && w.privileged && !w.icmp.listenOk ==>
            r == Err(IcmpFailed(Icmp.ListenFailed(Icmp.NetworkForOS(Icmp.VersionNumber(Icmp.FamilyOf(res.value))),
                                                  w.icmp.listenCause))))
      && (res.Ok? && w.privileged && w.icmp.listenOk ==> r == Ok(IcmpStats(res.value, p.options, w.icmp)))
      && (res.Ok? && !w.privileged ==>
            var k := Tcp.FirstRefusal(w.dials);
            && (k < |w.dials| ==> r == Err(TcpFailed(w.dials[k].cause)))
            && (k == |w.dials| ==> r == Ok(TcpStats(w.dials))))
    ensures r.Ok? ==>
      && 0 <= r.value.recv <= r.value.sent <= p.options.count
      && |r.value.rtts| == r.value.recv
      && 0.0 <= r.value.loss <= 100.0
  {
    var resolved := ResolveIp(p.host, w.literal, w.lookup);
    if resolved.Err? {
      return Err(ResolveFailed(resolved.error)), None;
    }
    var dstIp := resolved.value;
    var sent, recv, rtts;
    if w.privileged {
      used := Some(IcmpTransport);
      var err, requests, pauses;
      sent, recv, rtts, err, requests, pauses := Icmp.RunIcmp(dstIp, p.options, w.icmp);
      if err.Some? {
        return Err(IcmpFailed(err.value)), used;
      }
    } else {
      used := Some(TcpTransport);
      var err, targets, pauses;
      sent, recv, rtts, err, targets, pauses := Tcp.RunTcp(w.addrText(dstIp), p.options, w.dials);
      if err.Some? {
        return Err(TcpFailed(err.value)), used;
      }
      assert w.dials[..|w.dials|] == w.dials;
    }
    var stats := Statistics.ComputeStats(sent, recv, rtts);
    Statistics.ReduceLossInRange(sent, recv, rtts);
    r := Ok(stats);
  }
}
