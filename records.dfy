/**
 The records shared by the probe engine (declared in ping.go), and the small
 value types the model needs around them: optional values and results, bytes,
 and network addresses.

 Durations (Go's time.Duration, int64 nanoseconds) are plain `int`s.
 */
module Records {

  datatype Option<+T> = None | Some(value: T)

  datatype Result<+T, +E> = Ok(value: T) | Err(error: E)

  type byte = x: int | 0 <= x < 256

  /** One second, in nanoseconds. */
  const Second: int := 1_000_000_000

  /** A numeric network address, as its bytes (Go's net.IP). */
  datatype Ip = Ip(octets: seq<byte>)

  /** The 12-byte prefix that marks an IPv4 address stored in 16 bytes. */
  const V4InV6Prefix: seq<byte> := [0, 0, 0, 0, 0, 0, 0, 0, 0, 0, 0xff, 0xff]

  /**
   True iff the address has an IPv4 form (Go's `ip.To4() != nil`): either it is
   4 bytes long, or it is 16 bytes long and starts with the IPv4-in-IPv6 prefix.
   */
  predicate HasV4Form(ip: Ip) {
    |ip.octets| == 4 || (|ip.octets| == 16 && ip.octets[..12] == V4InV6Prefix)
  }

  /** The probe configuration. */
  datatype Options = Options(count: int, interval: int, timeout: int, size: int)

  /** The statistics of one run. */
  datatype Stats = Stats(
    sent: int,
    recv: int,
    minRtt: int,
    avgRtt: int,
    maxRtt: int,
    loss: real,
    rtts: seq<int>)

  /** A configured pinger: the host to probe and its options. */
  datatype Pinger = Pinger(host: string, options: Options)
}
