/**
 The privileged echo transport (icmp.go): sends `count` echo requests over one
 raw channel and records the round-trip time of every probe whose matching
 echo reply arrives in time.

 The socket, the clock and the echo message codec are outside the model: a run
 is driven by an `IcmpEnv` that says whether the channel opened, what the
 process id was, and, per probe, the clock reading stamped into the payload,
 whether the write succeeded and what the reads of that probe returned, each
 already parsed.
 */
module Icmp {
  import opened Records

  // ---------------------------------------------------------------------------
  // Address family and its constants
  // ---------------------------------------------------------------------------

  datatype Family = V4 | V6

  /** The family is IPv4 exactly when the address has an IPv4 form. */
  function FamilyOf(dst: Ip): Family {
    if HasV4Form(dst) then V4 else V6
  }

  function VersionNumber(f: Family): int {
    if f == V4 then 4 else 6
  }

  /** networkForOS: the channel's network name for an IP version; anything but 4 is IPv6. */
  function NetworkForOS(ipVersion: int): (network: string)
    ensures network == "ip4:icmp" <==> ipVersion == 4
    ensures network == "ip4:icmp" || network == "ip6:ipv6-icmp"
  {
    if ipVersion == 4 then "ip4:icmp" else "ip6:ipv6-icmp"
  }

  /** The protocol number that replies are parsed with (1 for ICMP, 58 for ICMPv6). */
  function Protocol(f: Family): int {
    if f == V4 then 1 else 58
  }

  /** Echo request type: 8 for ICMP (RFC 792), 128 for ICMPv6 (RFC 4443 section 4.1). */
  function EchoRequestType(f: Family): int {
    if f == V4 then 8 else 128
  }

  /** Echo reply type: 0 for ICMP (RFC 792), 129 for ICMPv6 (RFC 4443 section 4.2). */
  function EchoReplyType(f: Family): int {
    if f == V4 then 0 else 129
  }

  /**
   The per-family setup of a run: an address with an IPv4 form gets network
   "ip4:icmp", protocol 1 and types 8/0; every other address gets
   "ip6:ipv6-icmp", protocol 58 and types 128/129. Requests and replies of one
   family never share a type.
   */
  lemma FamilySetup(dst: Ip)
    ensures var f := FamilyOf(dst);
      && (f == V4 <==> HasV4Form(dst))
      && NetworkForOS(VersionNumber(f)) == (if HasV4Form(dst) then "ip4:icmp" else "ip6:ipv6-icmp")
      && Protocol(f) == (if HasV4Form(dst) then 1 else 58)
      && EchoRequestType(f) == (if HasV4Form(dst) then 8 else 128)
      && EchoReplyType(f) == (if HasV4Form(dst) then 0 else 129)
      && EchoRequestType(f) != EchoReplyType(f)
  {
  }

  // ---------------------------------------------------------------------------
  // The payload: an 8-byte big-endian send timestamp, padded to the size
  // ---------------------------------------------------------------------------

  const Two63: int := 0x8000_0000_0000_0000
  const Two64: int := 0x1_0000_0000_0000_0000

  /** Go's uint64(x) of an int64: two's complement reinterpretation. */
  function ToUint64(x: int): (u: int)
    ensures 0 <= u < Two64
  {
    x % Two64
  }

  /** Go's int64(u) of a uint64. */
  function ToInt64(u: int): int {
    if u < Two63 then u else u - Two64
  }

  lemma Int64RoundTrip(x: int)
    requires -Two63 <= x < Two63
    ensures ToInt64(ToUint64(x)) == x
  {
  }

  function Pow256(n: nat): (p: nat)
    ensures p > 0
  {
    if n == 0 then 1 else 256 * Pow256(n - 1)
  }

  /** The low n bytes of u, most significant first. */
  function BigEndian(u: nat, n: nat): (bs: seq<byte>)
    ensures |bs| == n
  {
    if n == 0 then [] else BigEndian(u / 256, n - 1) + [u % 256]
  }

  /** The number a byte string denotes, most significant byte first. */
  function BigEndianValue(bs: seq<byte>): nat {
    if bs == [] then 0 else BigEndianValue(bs[..|bs| - 1]) * 256 + bs[|bs| - 1]
  }

  lemma {:induction false} BigEndianRoundTrip(u: nat, n: nat)
    requires u < Pow256(n)
    ensures BigEndianValue(BigEndian(u, n)) == u
  {
    if n > 0 {
      var bs := BigEndian(u, n);
      assert bs[..n - 1] == BigEndian(u / 256, n - 1);
      assert u / 256 < Pow256(n - 1);
      BigEndianRoundTrip(u / 256, n - 1);
    }
  }

  function Zeros(n: nat): (z: seq<byte>)
    ensures |z| == n && forall i :: 0 <= i < n ==> z[i] == 0
  {
    seq(n, _ => 0)
  }

  /** The payload a probe sends: the stamp's 8 bytes, then zeros up to max(size, 8). */
  function Payload(size: int, stamp: int): seq<byte> {
    BigEndian(ToUint64(stamp), 8) + Zeros(if size < 8 then 0 else size - 8)
  }

  /** The send timestamp a reply's data carries in its first 8 bytes. */
  function StampOf(data: seq<byte>): int
    requires |data| >= 8
  {
    ToInt64(BigEndianValue(data[..8]))
  }

  /**
   The payload is max(size, 8) bytes long, its leading 8 bytes give back the
   send timestamp, and the rest is zero.
   */
  lemma PayloadCarriesStamp(size: int, stamp: int)
    requires -Two63 <= stamp < Two63
    ensures |Payload(size, stamp)| == if size < 8 then 8 else size
    ensures StampOf(Payload(size, stamp)) == stamp
    ensures forall i :: 8 <= i < |Payload(size, stamp)| ==> Payload(size, stamp)[i] == 0
  {
    var p := Payload(size, stamp);
    assert p[..8] == BigEndian(ToUint64(stamp), 8);
    assert Pow256(8) == Two64;
    BigEndianRoundTrip(ToUint64(stamp), 8);
    Int64RoundTrip(stamp);
  }

  // ---------------------------------------------------------------------------
  // Reading replies for one probe
  // ---------------------------------------------------------------------------

  /** A packet as the echo message parser returns it. */
  datatype Body =
    | Unparseable                                            // the parser failed
    | NotEcho                                                // a message whose body is not an echo
    | Echo(kind: int, id: int, seqNum: int, data: seq<byte>) // an echo, with its message type

  /**
   One read of the channel: it fails (read error or deadline), or it delivers a
   packet. A packet carries the clock readings the loop takes after it: time
   since the send (the fallback round-trip time), wall-clock nanoseconds (to
   subtract the echoed stamp from) and time since the send again (the timeout
   check).
   */
  datatype ReadEvent =
    | ReadFailed
    | Packet(sinceStart: int, body: Body, wallNow: int, sinceCheck: int)

  /** What the read loop of one probe waits for. */
  datatype Expect = Expect(replyType: int, pid: int, seqNum: int, timeout: int)

  /** A reply is accepted only when it is an echo with the reply type, the id and the sequence number. */
  predicate Matches(b: Body, x: Expect) {
    b.Echo? && b.kind == x.replyType && b.id == x.pid && b.seqNum == x.seqNum
  }

  /** The round-trip time of an accepted reply: from its echoed stamp if it has one. */
  function ReplyRtt(sinceStart: int, data: seq<byte>, wallNow: int): int {
    if |data| >= 8 then wallNow - StampOf(data) else sinceStart
  }

  /**
   The outcome of one probe's read loop: the round-trip time of the first
   accepted reply, or None when a read fails, the reads run out (the deadline),
   or a non-matching parsed packet arrives after the timeout. An unparseable
   packet never ends the loop: it skips the timeout check.
   */
  function Await(events: seq<ReadEvent>, x: Expect): Option<int>
    decreases |events|
  {
    if events == [] then None
    else match events[0]
      case ReadFailed => None
      case Packet(sinceStart, body, wallNow, sinceCheck) =>
        if body.Unparseable? then Await(events[1..], x)
        else if Matches(body, x) then Some(ReplyRtt(sinceStart, body.data, wallNow))
        else if sinceCheck > x.timeout then None
        else Await(events[1..], x)
  }

  /** The inner read loop of runICMP. */
  method ReadReply(events: seq<ReadEvent>, x: Expect) returns (reply: Option<int>)
    ensures reply == Await(events, x)
  {
    var k := 0;
    while k < |events|
      invariant 0 <= k <= |events|
      invariant Await(events, x) == Await(events[k..], x)
    {
      assert events[k..][1..] == events[k + 1..];
      var e := events[k];
      if e.ReadFailed? {
        return None;
      }
      var rtt := e.sinceStart;
      if e.body.Unparseable? {
        k := k + 1;
        continue;
      }
      if Matches(e.body, x) {
        if |e.body.data| >= 8 {
          rtt := e.wallNow - StampOf(e.body.data);
        }
        return Some(rtt);
      }
      if e.sinceCheck > x.timeout {
        return None;
      }
      k := k + 1;
    }
    return None;
  }

  /** Reading goes on past this event: a parsed non-match within the timeout, or garbage. */
  predicate PassesOver(e: ReadEvent, x: Expect) {
    e.Packet? && !Matches(e.body, x) && (e.body.Unparseable? || e.sinceCheck <= x.timeout)
  }

  /** The reply at index k is the one accepted: it matches and reading went on up to it. */
  predicate AcceptedAt(events: seq<ReadEvent>, x: Expect, k: int) {
    && 0 <= k < |events|
    && events[k].Packet?
    && Matches(events[k].body, x)
    && forall j :: 0 <= j < k ==> PassesOver(events[j], x)
  }

  /**
   A probe gets a round-trip time exactly when some reply is accepted, and the
   time is that of the first matching reply reached.
   */
  lemma {:induction false} AwaitAcceptsFirstMatch(events: seq<ReadEvent>, x: Expect)
    ensures Await(events, x).Some? <==> exists k :: AcceptedAt(events, x, k)
    ensures forall k :: AcceptedAt(events, x, k) ==>
      Await(events, x) == Some(ReplyRtt(events[k].sinceStart, events[k].body.data, events[k].wallNow))
  {
    if events != [] && PassesOver(events[0], x) {
      var rest := events[1..];
      AwaitAcceptsFirstMatch(rest, x);
      forall k | AcceptedAt(events, x, k) ensures k >= 1 && AcceptedAt(rest, x, k - 1) {
        forall j | 0 <= j < k - 1 ensures PassesOver(rest[j], x) {
          assert rest[j] == events[j + 1];
        }
      }
      forall k | AcceptedAt(rest, x, k) ensures AcceptedAt(events, x, k + 1) {
        forall j | 0 <= j < k + 1 ensures PassesOver(events[j], x) {
          if j > 0 {
            assert events[j] == rest[j - 1];
          }
        }
      }
    } else if events != [] {
      assert forall k :: AcceptedAt(events, x, k) ==> k == 0;
      if events[0].Packet? && Matches(events[0].body, x) {
        assert AcceptedAt(events, x, 0);
      }
    }
  }

  /** A stray reply (wrong type, id or sequence) within the timeout is dropped and reading goes on. */
  lemma StrayReplyIgnored(e: ReadEvent, rest: seq<ReadEvent>, x: Expect)
    requires e.Packet? && e.body.Echo? && !Matches(e.body, x) && e.sinceCheck <= x.timeout
    ensures Await([e] + rest, x) == Await(rest, x)
  {
    assert ([e] + rest)[1..] == rest;
  }

  /** If the peer echoes the probe's own payload, the time recovered is receive time minus send time. */
  lemma EchoedStampGivesRtt(size: int, stamp: int, sinceStart: int, wallNow: int)
    requires -Two63 <= stamp < Two63
    ensures ReplyRtt(sinceStart, Payload(size, stamp), wallNow) == wallNow - stamp
  {
    PayloadCarriesStamp(size, stamp);
  }

  // ---------------------------------------------------------------------------
  // The probe loop
  // ---------------------------------------------------------------------------

  /** One probe: the clock reading stamped into its payload, whether the write succeeded, its events. */
  datatype Probe = Probe(stamp: int, writeOk: bool, events: seq<ReadEvent>)

  /** Everything a run observes from the outside world. */
  datatype IcmpEnv = IcmpEnv(listenOk: bool, listenCause: string, rawPid: int, probes: seq<Probe>)

  datatype IcmpError = ListenFailed(network: string, cause: string)

  /** An echo request as handed to the channel's write. */
  datatype EchoRequest = EchoRequest(kind: int, code: int, id: int, seqNum: int, data: seq<byte>)

  /** The echo identifier: the process id masked to 16 bits (`Getpid() & 0xffff`). */
  function Pid(rawPid: int): (pid: int)
    ensures 0 <= pid < 0x10000
    ensures (pid - rawPid) % 0x10000 == 0
  {
    rawPid % 0x10000
  }

  /** The number of probes whose write succeeded. */
  function Written(probes: seq<Probe>): nat {
    if probes == [] then 0
    else Written(probes[..|probes| - 1]) + (if probes[|probes| - 1].writeOk then 1 else 0)
  }

  /** What one probe adds to the list of times: nothing, or the time of its accepted reply. */
  function Contribution(p: Probe, x: Expect): seq<int> {
    if !p.writeOk then []
    else match Await(p.events, x)
      case Some(rtt) => [rtt]
      case None => []
  }

  /** The times recorded by the probes, where probe i waits for sequence number i + 1. */
  function Recorded(probes: seq<Probe>, replyType: int, pid: int, timeout: int): seq<int> {
    if probes == [] then []
    else
      Recorded(probes[..|probes| - 1], replyType, pid, timeout)
      + Contribution(probes[|probes| - 1], Expect(replyType, pid, |probes|, timeout))
  }

  /** The number of sleeps: after every probe whose write succeeded, except at index count - 1. */
  function Pauses(probes: seq<Probe>, count: int): nat {
    if probes == [] then 0
    else
      var i := |probes| - 1;
      Pauses(probes[..i], count) + (if probes[i].writeOk && i != count - 1 then 1 else 0)
  }

  /** runICMP. */
  method RunIcmp(dst: Ip, opts: Options, env: IcmpEnv)
    returns (sent: int, recv: int, rtts: seq<int>, err: Option<IcmpError>,
             requests: seq<EchoRequest>, pauses: nat)
    requires env.listenOk ==> opts.count >= 0 && (opts.count > 0 ==> opts.size >= 0) && |env.probes| == opts.count
    ensures !env.listenOk ==>
      && sent == 0 && recv == 0 && rtts == [] && requests == [] && pauses == 0
      && err == Some(ListenFailed(NetworkForOS(VersionNumber(FamilyOf(dst))), env.listenCause))
    ensures env.listenOk ==>
      && err == None
      && sent == Written(env.probes)
      && rtts == Recorded(env.probes, EchoReplyType(FamilyOf(dst)), Pid(env.rawPid), opts.timeout)
      && recv == |rtts|
      && pauses == Pauses(env.probes, opts.count)
      && |requests| == opts.count
      && forall i :: 0 <= i < |requests| ==>
           requests[i] == EchoRequest(EchoRequestType(FamilyOf(dst)), 0, Pid(env.rawPid), i + 1,
                                      Payload(opts.size, env.probes[i].stamp))
    ensures env.listenOk ==> 0 <= recv <= sent <= opts.count
  {
    var fam := FamilyOf(dst);
    var reqType, repType := EchoRequestType(fam), EchoReplyType(fam);
    var netw := NetworkForOS(VersionNumber(fam));
    if !env.listenOk {
      return 0, 0, [], Some(ListenFailed(netw, env.listenCause)), [], 0;
    }
    var pid := env.rawPid % 0x10000;
    var seqNum := 0;
    sent, recv, rtts, err, requests, pauses := 0, 0, [], None, [], 0;
    var i := 0;
    while i < opts.count
      invariant 0 <= i <= opts.count
      invariant seqNum == i
      invariant sent == Written(env.probes[..i])
      invariant rtts == Recorded(env.probes[..i], repType, pid, opts.timeout)
      invariant recv == |rtts|
      invariant pauses == Pauses(env.probes[..i], opts.count)
      invariant |requests| == i
      invariant forall j :: 0 <= j < i ==>
        requests[j] == EchoRequest(reqType, 0, pid, j + 1, Payload(opts.size, env.probes[j].stamp))
    {
      assert env.probes[..i + 1][..i] == env.probes[..i];
      seqNum := seqNum + 1;
      var probe := env.probes[i];
      var size := opts.size;
      if size < 8 {
        size := 8;
      }
      var payload := BigEndian(ToUint64(probe.stamp), 8) + Zeros(size - 8);
      requests := requests + [EchoRequest(reqType, 0, pid, seqNum, payload)];
      if !probe.writeOk {
        i := i + 1;
        continue;
      }
      sent := sent + 1;
      var reply := ReadReply(probe.events, Expect(repType, pid, seqNum, opts.timeout));
      if reply.Some? {
        recv := recv + 1;
        rtts := rtts + [reply.value];
      }
      if i != opts.count - 1 {
        pauses := pauses + 1;
      }
      i := i + 1;
    }
    assert env.probes[..i] == env.probes;
    RecordedBound(env.probes, repType, pid, opts.timeout);
  }

  // ---------------------------------------------------------------------------
  // Properties of a run
  // ---------------------------------------------------------------------------

  /** At most one time per probe, and only for probes that were written. */
  lemma {:induction false} RecordedBound(probes: seq<Probe>, replyType: int, pid: int, timeout: int)
    ensures |Recorded(probes, replyType, pid, timeout)| <= Written(probes) <= |probes|
  {
    if probes != [] {
      RecordedBound(probes[..|probes| - 1], replyType, pid, timeout);
    }
  }

  /**
   Every recorded time is the accepted reply of some written probe i, read while
   waiting for sequence number i + 1.
   */
  lemma {:induction false} RecordedComesFromReplies(probes: seq<Probe>, replyType: int, pid: int, timeout: int)
    ensures forall r :: r in Recorded(probes, replyType, pid, timeout) ==>
      exists i :: 0 <= i < |probes| && probes[i].writeOk
        && Await(probes[i].events, Expect(replyType, pid, i + 1, timeout)) == Some(r)
  {
    if probes != [] {
      var n := |probes| - 1;
      var init := probes[..n];
      RecordedComesFromReplies(init, replyType, pid, timeout);
      forall r | r in Recorded(probes, replyType, pid, timeout)
        ensures exists i ::
                  0 <= i < |probes| && probes[i].writeOk
                  && Await(probes[i].events, Expect(replyType, pid, i + 1, timeout)) == Some(r)
      {
        if r in Recorded(init, replyType, pid, timeout) {
          var i :| 0 <= i < |init| && init[i].writeOk
            && Await(init[i].events, Expect(replyType, pid, i + 1, timeout)) == Some(r);
          assert probes[i] == init[i];
        } else {
          assert r in Contribution(probes[n], Expect(replyType, pid, n + 1, timeout));
        }
      }
    }
  }

  /** When every write fails, nothing is sent, nothing is recorded and nobody sleeps. */
  lemma {:induction false} AllWritesFail(probes: seq<Probe>, replyType: int, pid: int, timeout: int, count: int)
    requires forall p :: p in probes ==> !p.writeOk
    ensures Written(probes) == 0
    ensures Recorded(probes, replyType, pid, timeout) == []
    ensures Pauses(probes, count) == 0
  {
    if probes != [] {
      var init := probes[..|probes| - 1];
      forall p | p in init ensures !p.writeOk {
        assert p in probes;
      }
      AllWritesFail(init, replyType, pid, timeout, count);
      assert probes[|probes| - 1] in probes;
    }
  }

  /** Before the last index every written probe is followed by a sleep. */
  lemma {:induction false} PausesBeforeLast(probes: seq<Probe>, count: int)
    requires |probes| < count
    ensures Pauses(probes, count) == Written(probes)
  {
    if probes != [] {
      PausesBeforeLast(probes[..|probes| - 1], count);
    }
  }

  /** All probes are counted as written exactly when every write succeeded. */
  lemma {:induction false} WrittenAll(probes: seq<Probe>)
    ensures Written(probes) <= |probes|
    ensures Written(probes) == |probes| <==> forall i :: 0 <= i < |probes| ==> probes[i].writeOk
  {
    if probes != [] {
      var n := |probes| - 1;
      var init := probes[..n];
      WrittenAll(init);
      if forall i :: 0 <= i < |probes| ==> probes[i].writeOk {
        forall i | 0 <= i < n ensures init[i].writeOk {
          assert init[i] == probes[i];
        }
      }
      if Written(probes) == |probes| {
        forall i | 0 <= i < |probes| ensures probes[i].writeOk {
          if i < n {
            assert probes[i] == init[i];
          }
        }
      }
    }
  }

  /**
   A run sleeps Count - 1 times exactly when every probe but the last was
   written: the last probe never sleeps, whatever its write did.
   */
  lemma PausesWhenAllWritten(probes: seq<Probe>, count: int)
    requires 1 <= |probes| == count
    ensures Pauses(probes, count) == count - 1 <==> forall i :: 0 <= i < count - 1 ==> probes[i].writeOk
  {
    var n := |probes| - 1;
    var init := probes[..n];
    PausesBeforeLast(init, count);
    WrittenAll(init);
    assert forall i :: 0 <= i < n ==> init[i] == probes[i];
  }

  /** Sleeps never outnumber successful writes. */
  lemma {:induction false} PausesBound(probes: seq<Probe>, count: int)
    ensures Pauses(probes, count) <= Written(probes)
  {
    if probes != [] {
      PausesBound(probes[..|probes| - 1], count);
    }
  }
}
