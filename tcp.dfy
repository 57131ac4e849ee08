/**
 The unprivileged fallback transport (tcp.go): times a TCP connection to port
 80 of the target per probe, and gives up the whole run at the first
 connection that fails.

 The dialler and the clock are outside the model: each probe's dial is given
 as its outcome, the elapsed time of a connection that succeeded or the cause
 of one that failed.
 */
module Tcp {
  import opened Records

  datatype Dial = Connected(elapsed: int) | Refused(cause: string)

  /** The address every probe dials: the target's text form and port 80. */
  function DialTarget(dstText: string): string {
    dstText + ":80"
  }

  /**
   The index of the first failed dial, or the number of dials when all succeed:
   every dial before it connected, and the dial at it (if any) failed.
   */
  function FirstRefusal(dials: seq<Dial>): (k: nat)
    ensures k <= |dials|
    ensures forall j :: 0 <= j < k ==> dials[j].Connected?
    ensures k < |dials| ==> dials[k].Refused?
  {
    if dials == [] then 0
    else if dials[0].Refused? then 0
    else 1 + FirstRefusal(dials[1..])
  }

  /** The elapsed times of a list of successful dials. */
  function Elapsed(dials: seq<Dial>): (ts: seq<int>)
    requires forall j :: 0 <= j < |dials| ==> dials[j].Connected?
    ensures |ts| == |dials|
    ensures forall j :: 0 <= j < |dials| ==> ts[j] == dials[j].elapsed
  {
    if dials == [] then [] else Elapsed(dials[..|dials| - 1]) + [dials[|dials| - 1].elapsed]
  }

  /**
   runTCP. `targets` lists the addresses dialled and `pauses` counts the sleeps
   between probes.
   */
  method RunTcp(dstText: string, opts: Options, dials: seq<Dial>)
    returns (sent: int, recv: int, rtts: seq<int>, err: Option<string>,
             targets: seq<string>, pauses: nat)
    requires opts.count >= 0
    requires |dials| == opts.count
    ensures var k := FirstRefusal(dials);
      && rtts == Elapsed(dials[..k])
      && recv == |rtts| == k == pauses
      && (k < |dials| ==> sent == k + 1 && err == Some(dials[k].cause))
      && (k == |dials| ==> sent == opts.count && err == None)
    ensures |targets| == sent && forall t :: t in targets ==> t == DialTarget(dstText)
    ensures 0 <= recv <= sent <= opts.count
  {
    sent, recv, rtts, err, targets, pauses := 0, 0, [], None, [], 0;
    var i := 0;
    while i < opts.count
      invariant 0 <= i <= FirstRefusal(dials)
      invariant sent == recv == |rtts| == i == pauses
      invariant forall j :: 0 <= j < i ==> dials[j].Connected?
      invariant rtts == Elapsed(dials[..i])
      invariant |targets| == sent && forall t :: t in targets ==> t == DialTarget(dstText)
    {
      sent := sent + 1;
      var target := dstText + ":80";
      targets := targets + [target];
      match dials[i]
      case Refused(cause) =>
        return sent, recv, rtts, Some(cause), targets, pauses;
      case Connected(elapsed) =>
        recv := recv + 1;
        rtts := rtts + [elapsed];
        pauses := pauses + 1;
        assert dials[..i + 1][..i] == dials[..i];
        i := i + 1;
    }
  }

  /**
   A failed run stopped at its first failure: every recorded time belongs to a
   dial that connected, and the dials after the failure played no part.
   */
  lemma {:induction false} AbortIgnoresLaterDials(dials: seq<Dial>, later: seq<Dial>)
    requires FirstRefusal(dials) < |dials|
    ensures FirstRefusal(dials + later) == FirstRefusal(dials)
    ensures var k := FirstRefusal(dials); (dials + later)[..k] == dials[..k]
  {
    if dials[0].Connected? {
      assert (dials + later)[1..] == dials[1..] + later;
      AbortIgnoresLaterDials(dials[1..], later);
    }
  }
}
