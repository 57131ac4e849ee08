# goping probe engine, modelled in Dafny

goping is a small ping library. The caller builds a `Pinger` from a host and
functional options. `Ping` does four things in order:

1. It resolves the host to one address.
2. It picks a transport: ICMP echo when the process may open raw sockets, a
   TCP connect to port 80 otherwise.
3. It runs `Count` probes on that transport.
4. It reduces the counters and round-trip times into a `Stats` record.

The two transports fail differently. The echo transport skips a probe whose
write fails: that probe is not counted as sent, so it does not raise the loss,
and a run whose every write fails reports 0% loss
(`Goping.AllWritesFailedShowsNoLoss`). A written probe that gets no reply
counts as lost. Either way the run carries on. The connect transport gives up
the whole run at the first failed connection.

The model has one module per source file, plus `Records` for the types declared
in ping.go:

- `records.dfy` (`Records`): the `Options`, `Stats` and `Pinger` records of
  ping.go, plus `Option`/`Result`, bytes and addresses. An address is its bytes,
  and `HasV4Form` is Go's `To4() != nil` rule.
- `statistics.dfy` (`Statistics`): `computeStats` is a method with the source's
  loop. It is proved equal to the function `Reduce`, and lemmas say what
  `Reduce` means.
- `icmp.dfy` (`Icmp`): `runICMP` is a method with the source's probe loop.
  `ReadReply` is the inner read loop, written as its own method. Both are
  proved against spec functions (`Await`, `Recorded`, `Written`, `Pauses`).
  The module also holds the family constants, `networkForOS`, and the payload
  with its big-endian timestamp.
- `tcp.dfy` (`Tcp`): `runTCP` is a method with the source's loop. It is proved
  against `FirstRefusal`, the index of the first failed dial.
- `goping.dfy` (`Goping`): the setters, `NewPinger` (a loop over the setters),
  `resolveIP` and `Ping`.

The outside world enters as plain values. Durations are integer nanoseconds.

- Clock readings are given per probe or per read.
- Each socket operation's outcome is given: listen, write, each read, each dial.
- The process id is given.
- Each read is given already parsed (unparseable, not an echo, or an echo).
- The answers of `net.ParseIP`, `net.LookupIP` and the privilege probe are given.

If the read events given for a probe run out, reading ends. This stands for
the read deadline firing.

Some behaviours of the code are easy to misread; the model follows the code:

- The average divides by `len(rtts)`, not by `recv`.
- The maximum starts at 0, not at the first element. So a list of negative times
  gives a maximum of 0.
- A failed ICMP write `continue`s past the inter-probe sleep. So the run sleeps
  after every probe that was written, except the last (icmp.go:67-69,
  109-111). It sleeps `Count - 1` times exactly when every probe but the last
  is written (`Icmp.PausesWhenAllWritten`).
- An unparseable packet goes straight back to reading and skips the timeout
  check (icmp.go:90-93). Only a parsed packet that does not match can end the
  read loop on timeout.
- Failure of the privilege probe is not reported as an error: the process exits.
  This is out of scope, as listed below.

## Model

| member | source | states |
|---|---|---|
| `Statistics.ComputeStats` | stats.go:5-39 | the one-pass min/max/sum loop yields exactly `Reduce(sent, recv, rtts)`; it may be called whenever `recv != 0` implies a non-empty list and `sent != 0` (both divisions) |
| `Statistics.NoReplies` | stats.go:6-17 | with `recv == 0`, MinRTT, AvgRTT and MaxRTT are 0, and Loss is 100 if `sent > 0`, else 0 |
| `Statistics.InputsPreserved` | stats.go:11-37 | on both branches, the record's Sent, Recv and RTTs are the inputs unchanged |
| `Statistics.FirstMinIsFirstMinimal` | stats.go:19-23 | MinRTT is an element of the list, no element is smaller, and it is at the first index that holds the minimum |
| `Statistics.ZeroSeededMaxBounds` | stats.go:19-26 | MaxRTT is max(0, largest element): it is ≥ 0, ≥ every element, and either 0 or an element |
| `Statistics.MaxIsElementWhenNonNegative` | stats.go:24-26 | for a non-empty list of non-negative times, MaxRTT is the largest element |
| `Statistics.SumBounds` | stats.go:27 | if every element is between lo and hi, the sum is between n·lo and n·hi |
| `Statistics.QuotBetween` | stats.go:34 | Go's truncating division keeps a quotient between lo and hi when the dividend is between n·lo and n·hi |
| `Statistics.MinAvgMax` | stats.go:19-35 | for every non-empty list, MinRTT ≤ AvgRTT ≤ MaxRTT, with AvgRTT = sum / len(rtts) truncated |
| `Statistics.LossInRange` | stats.go:36 | with 0 < recv ≤ sent, the loss 100·(sent−recv)/sent lies in [0, 100] |
| `Statistics.ReduceLossInRange` | stats.go:6-36 | on both branches the loss lies in [0, 100] once 0 ≤ recv ≤ sent |
| `Statistics.AverageDividesByListLength` | stats_test.go:47-65 | (5, 3, [5ms]) gives avg = min = max = 5ms: the average divides by the list length, not by recv; the loss is 40 |
| `Statistics.AllReceived` | stats_test.go:21-44 | (5, 5, [10, 20, 30]ms) gives min 10ms, avg 20ms, max 30ms and loss 0 |
| `Icmp.NetworkForOS` | icmp.go:116-121 | the network is "ip4:icmp" exactly for IP version 4, and "ip6:ipv6-icmp" for any other version |
| `Icmp.FamilySetup` | icmp.go:16-26 | the family is IPv4 iff the address has an IPv4 form; IPv4 uses "ip4:icmp", protocol 1 and types 8/0, otherwise "ip6:ipv6-icmp", 58 and 128/129; the request and reply types differ |
| `Icmp.Int64RoundTrip` | icmp.go:53 | converting an int64 timestamp to uint64 and back gives the timestamp again |
| `Icmp.BigEndianRoundTrip` | icmp.go:97 | reading back n big-endian bytes gives the number written, if it fits in n bytes |
| `Icmp.PayloadCarriesStamp` | icmp.go:46-53 | the payload is max(Size, 8) bytes, its first 8 bytes decode to the send timestamp, and the rest is zero |
| `Icmp.EchoedStampGivesRtt` | icmp.go:96-99 | a reply that echoes the probe's payload yields RTT = receive time − send time |
| `Icmp.ReadReply` | icmp.go:74-108 | the inner read loop returns exactly `Await(events, expect)` |
| `Icmp.AwaitAcceptsFirstMatch` | icmp.go:90-107 | a probe gets a time iff some reply is accepted: the reply matches type, id and seq, and every earlier packet was unparseable or a non-match within the timeout. The time is that reply's |
| `Icmp.StrayReplyIgnored` | icmp.go:94-107 | an echo with the wrong type, id or seq, arriving within the timeout, is dropped and reading continues |
| `Icmp.Pid` | icmp.go:36 | the identifier is in [0, 65535] and congruent to the process id mod 2^16 |
| `Icmp.RunIcmp` | icmp.go:15-114 | listen failure: (0, 0, [], error naming the network), and no probe. Otherwise: no error; sent = successful writes; rtts = `Recorded`; recv = len(rtts) ≤ sent ≤ Count; probe i carries seq i+1, the same id and the padded, stamped payload, even if its write fails; sleeps = `Pauses` |
| `Icmp.RecordedBound` | icmp.go:94-103 | at most one time per probe, and only for written probes: len(rtts) ≤ sent ≤ Count |
| `Icmp.RecordedComesFromReplies` | icmp.go:66-103 | every recorded time is the accepted reply of some written probe i, matched against seq i+1 |
| `Icmp.AllWritesFail` | icmp.go:66-70 | if every write fails, nothing is sent or recorded and nobody sleeps |
| `Icmp.PausesWhenAllWritten` | icmp.go:109-111 | with Count ≥ 1 probes, the run sleeps Count − 1 times exactly when every probe but the last is written |
| `Icmp.PausesBeforeLast` | icmp.go:67-111 | before the last index, every written probe is followed by one sleep |
| `Icmp.WrittenAll` | icmp.go:67-70 | sent ≤ number of probes, with equality exactly when every write succeeds |
| `Icmp.PausesBound` | icmp.go:67-111 | sleeps never outnumber successful writes, because a failed write skips the sleep |
| `Tcp.FirstRefusal` | tcp.go:15-21 | the index of the first failed dial (or the number of dials): every earlier dial connected, and the one there failed |
| `Tcp.RunTcp` | tcp.go:9-32 | with k the first failure: rtts are the elapsed times of dials 0..k−1 and recv = sleeps = k. On a failure, sent = k+1 and that dial's error is returned; otherwise sent = recv = Count with no error. Every dial targets "<address>:80" |
| `Tcp.AbortIgnoresLaterDials` | tcp.go:18-21 | after the first failure, the later dials play no part in the outcome |
| `Goping.Apply` | ping.go:35-46 | each With* setter writes its own field of Options and leaves the other three unchanged |
| `Goping.NewPinger` | ping.go:48-61 | the pinger keeps the host unchanged; its options are the defaults with every setter applied, first to last |
| `Goping.NoSetterDefaults` | ping.go:49-53 | with no setters the options are Count 5, Interval 0, Timeout 3s (3·10^9 ns), Size 64 |
| `Goping.LastSetterWins` | ping.go:54-56 | the last setter of a field decides that field |
| `Goping.UnsetFieldKept` | ping.go:54-56 | a field that no setter names keeps its starting value |
| `Goping.ResolveIp` | ping.go:91-106 | a parsed literal is returned as is. Otherwise the result is an address the lookup found. It fails, naming the host, iff there is no literal and the lookup errs or finds nothing |
| `Goping.LiteralNeedsNoLookup` | ping.go:92-95 | when the host is a literal address, the lookup's answer does not affect the result |
| `Goping.FirstAddressChosen` | ping.go:101-105 | of the addresses found, the first is returned |
| `Goping.AllWritesFailedShowsNoLoss` | stats.go:6-10 | when every ICMP write fails, the reduced stats have sent 0, recv 0, no times and loss 0 (not 100): failed writes never count as sent (icmp.go:67-70) |
| `Goping.Ping` | ping.go:63-89 | a failed resolution returns an error and runs no transport. Otherwise exactly one transport runs: ICMP if privileged, else TCP. A transport error gives no stats; success gives the reduction of that transport's counters. Any stats returned have recv ≤ sent ≤ Count, len(rtts) = recv and loss in [0, 100] |

## Left out

- Socket calls are not modelled. These are listening, writing, reading, read
  deadlines, dialling and closing. Each probe's outcome is an input instead.
- Echo message encoding and parsing are not modelled. A read delivers a packet
  already parsed. Echo types are numbers of the run's own family.
- The 16-bit sequence field is not modelled. On the wire, the echo message
  carries only the low 16 bits of seq. The model compares a reply's sequence
  number with the untruncated counter, as the code does.
- `time.Now`, `time.Since` and `time.Sleep` are not modelled. Clock readings
  are inputs, and sleeps are counted, not performed. `Interval` only determines
  how long each sleep lasts, so the model does not use it.
- `net.ParseIP`, `net.LookupIP` and `IP.String` are not modelled. Their answers
  for the host are inputs.
- `hasICMPPrivilege` (ping.go:108-120) is not modelled, because it opens a raw
  socket, matches error text and calls `os.Exit`. Its answer is an input to
  `Ping`.
- Per-probe and fallback messages printed with `fmt` are not modelled. The
  zero-based index they print is therefore absent too.
- Error messages are not modelled. Errors are tagged values that carry their
  cause and the host or network.
- `Statistics.ComputeStats`: does not model int64 overflow of the sum.
- `Statistics.ComputeStats`: models Loss as an exact `real`, without float64
  rounding.
- `Statistics.ComputeStats`: requires a non-empty `rtts` when `recv != 0`,
  because Go panics on the integer division by `len(rtts)` at stats.go:34.
- `Statistics.ComputeStats`: requires `sent != 0` when `recv != 0`. In Go that
  division yields ±Inf or NaN, which a `real` cannot hold. Both transports
  guarantee `recv ≤ sent`.
- `Icmp.RunIcmp`: requires Count ≥ 0 once the channel opens, because `make`
  panics on a negative length (icmp.go:44).
- `Icmp.RunIcmp`: requires Size ≥ 0 when the channel opens and Count > 0,
  because the first probe's `make([]byte, size)` panics on a negative size
  (icmp.go:47). With Count = 0 any Size is accepted, as in the code.
- `Tcp.RunTcp`: requires Count ≥ 0, because `make` panics on a negative length
  (tcp.go:15).
- `Goping.Ping`: requires of the options what the transport it runs requires
  (Count ≥ 0, and Size ≥ 0 when ICMP runs with Count > 0), for the same panics.
- `Goping.NewPinger`: `PingerOption` (ping.go:33) is any `func(*Options)`; the
  model admits only the four With* setters, not closures written by callers.
- `cmd/goping/main.go` is not part of this model. It holds flag parsing, usage
  text, exit codes and report printing.
