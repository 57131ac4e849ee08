/**
 The statistics reducer (stats.go): turns the counters and the list of
 round-trip times of one run into a `Stats` record.
 */
module Statistics {
  import opened Records

  /** Go's integer division on durations: truncates toward zero. */
  function Quot(a: int, n: int): (q: int)
    requires n > 0
  {
    if a >= 0 then a / n else -((-a) / n)
  }

  /** The sum of a list of durations. */
  function Sum(s: seq<int>): int {
    if s == [] then 0 else Sum(s[..|s| - 1]) + s[|s| - 1]
  }

  /**
   The minimum as the reducer's loop finds it: seeded by the first element and
   replaced only by a strictly smaller one.
   */
  function FirstMin(s: seq<int>): int
    requires |s| > 0
  {
    if |s| == 1 then s[0]
    else
      var m := FirstMin(s[..|s| - 1]);
      if s[|s| - 1] < m then s[|s| - 1] else m
  }

  /** The maximum as the reducer's loop finds it: seeded by zero. */
  function ZeroSeededMax(s: seq<int>): int {
    if s == [] then 0
    else
      var m := ZeroSeededMax(s[..|s| - 1]);
      if s[|s| - 1] > m then s[|s| - 1] else m
  }

  /** What computeStats demands of its inputs for the divisions it performs. */
  predicate Reducible(sent: int, recv: int, rtts: seq<int>) {
    recv != 0 ==> |rtts| > 0 && sent != 0
  }

  /** The loss percentage when at least one reply arrived. */
  function LossPercent(sent: int, recv: int): real
    requires sent != 0
  {
    100.0 * (sent - recv) as real / sent as real
  }

  /** The reduction computeStats performs, as a function of its inputs. */
  function Reduce(sent: int, recv: int, rtts: seq<int>): Stats
    requires Reducible(sent, recv, rtts)
  {
    if recv == 0 then
      Stats(sent, recv, 0, 0, 0, if sent > 0 then 100.0 else 0.0, rtts)
    else
      Stats(sent, recv, FirstMin(rtts), Quot(Sum(rtts), |rtts|), ZeroSeededMax(rtts),
            LossPercent(sent, recv), rtts)
  }

  /** computeStats: one pass over the list keeps the minimum, maximum and sum. */
  method ComputeStats(sent: int, recv: int, rtts: seq<int>) returns (stats: Stats)
    requires Reducible(sent, recv, rtts)
    ensures stats == Reduce(sent, recv, rtts)
  {
    if recv == 0 {
      var loss := 0.0;
      if sent > 0 {
        loss := 100.0;
      }
      return Stats(sent, recv, 0, 0, 0, loss, rtts);
    }
    var lo, hi, sum := 0, 0, 0;
    var i := 0;
    while i < |rtts|
      invariant 0 <= i <= |rtts|
      invariant i > 0 ==> lo == FirstMin(rtts[..i])
      invariant hi == ZeroSeededMax(rtts[..i])
      invariant sum == Sum(rtts[..i])
    {
      var rtt := rtts[i];
      assert rtts[..i + 1][..i] == rtts[..i];
      if i == 0 || rtt < lo {
        lo := rtt;
      }
      if rtt > hi {
        hi := rtt;
      }
      sum := sum + rtt;
      i := i + 1;
    }
    assert rtts[..i] == rtts;
    stats := Stats(sent, recv, lo, Quot(sum, |rtts|), hi, 100.0 * (sent - recv) as real / sent as real, rtts);
  }

  // ---------------------------------------------------------------------------
  // What the reduction means
  // ---------------------------------------------------------------------------

  /** With no reply, the extrema and the average are zero and the loss is 0 or 100. */
  lemma NoReplies(sent: int, rtts: seq<int>)
    ensures var st := Reduce(sent, 0, rtts);
      && st.minRtt == 0 && st.avgRtt == 0 && st.maxRtt == 0
      && st.loss == (if sent > 0 then 100.0 else 0.0)
  {
  }

  /** Both branches hand the counters and the list back unchanged. */
  lemma InputsPreserved(sent: int, recv: int, rtts: seq<int>)
    requires Reducible(sent, recv, rtts)
    ensures var st := Reduce(sent, recv, rtts);
      st.sent == sent && st.recv == recv && st.rtts == rtts
  {
  }

  /**
   FirstMin is an element of the list, no element is smaller, and it sits at
   the first position that holds the minimum.
   */
  lemma {:induction false} FirstMinIsFirstMinimal(s: seq<int>)
    requires |s| > 0
    ensures forall x :: x in s ==> FirstMin(s) <= x
    ensures exists k :: 0 <= k < |s| && s[k] == FirstMin(s) && forall j :: 0 <= j < k ==> s[j] > FirstMin(s)
  {
    if |s| > 1 {
      var init := s[..|s| - 1];
      FirstMinIsFirstMinimal(init);
      var k :| 0 <= k < |init| && init[k] == FirstMin(init) && forall j :: 0 <= j < k ==> init[j] > FirstMin(init);
      forall x | x in s ensures FirstMin(s) <= x {
        if x != s[|s| - 1] {
          assert x in init;
        }
      }
      if s[|s| - 1] < FirstMin(init) {
        var last := |s| - 1;
        forall j | 0 <= j < last ensures s[j] > FirstMin(s) {
          assert s[j] in init;
        }
        assert s[last] == FirstMin(s);
      } else {
        assert s[k] == init[k] == FirstMin(s);
        forall j | 0 <= j < k ensures s[j] > FirstMin(s) {
          assert s[j] == init[j];
        }
      }
    } else {
      assert s[0] == FirstMin(s);
    }
  }

  /**
   The zero-seeded maximum is max(0, largest element): it is non-negative, no
   element exceeds it, and it is either zero or an element of the list.
   */
  lemma {:induction false} ZeroSeededMaxBounds(s: seq<int>)
    ensures ZeroSeededMax(s) >= 0
    ensures forall x :: x in s ==> x <= ZeroSeededMax(s)
    ensures ZeroSeededMax(s) == 0 || ZeroSeededMax(s) in s
  {
    if s != [] {
      var init := s[..|s| - 1];
      ZeroSeededMaxBounds(init);
      assert s == init + [s[|s| - 1]];
    }
  }

  /** With a non-empty list of non-negative times, MaxRTT is the largest element. */
  lemma MaxIsElementWhenNonNegative(s: seq<int>)
    requires |s| > 0
    requires forall x :: x in s ==> x >= 0
    ensures ZeroSeededMax(s) in s
    ensures forall x :: x in s ==> x <= ZeroSeededMax(s)
  {
    ZeroSeededMaxBounds(s);
    if ZeroSeededMax(s) == 0 {
      assert s[0] in s;
      assert s[0] == 0;
    }
  }

  /** Every element lies between lo and hi, so the sum lies between n·lo and n·hi. */
  lemma {:induction false} SumBounds(s: seq<int>, lo: int, hi: int)
    requires forall x :: x in s ==> lo <= x <= hi
    ensures |s| * lo <= Sum(s) <= |s| * hi
  {
    if s != [] {
      var init := s[..|s| - 1];
      forall x | x in init ensures lo <= x <= hi {
        assert x in s;
      }
      SumBounds(init, lo, hi);
      assert s[|s| - 1] in s;
    }
  }

  /** Truncating division of a sum bounded by n·lo and n·hi stays between lo and hi. */
  lemma QuotBetween(a: int, n: int, lo: int, hi: int)
    requires n > 0
    requires n * lo <= a <= n * hi
    ensures lo <= Quot(a, n) <= hi
  {
    if a >= 0 {
      FloorBetween(a, n, lo, hi);
    } else {
      FloorBetween(-a, n, -hi, -lo);
    }
  }

  lemma FloorBetween(a: int, n: int, lo: int, hi: int)
    requires n > 0 && a >= 0
    requires n * lo <= a <= n * hi
    ensures lo <= a / n <= hi
  {
    var q, r := a / n, a % n;
    assert a == n * q + r && 0 <= r < n;
    if q < lo {
      assert n * q <= n * (lo - 1) by { MulMonotone(n, q, lo - 1); }
    }
    if q > hi {
      assert n * (hi + 1) <= n * q by { MulMonotone(n, hi + 1, q); }
    }
  }

  lemma MulMonotone(n: int, x: int, y: int)
    requires n > 0 && x <= y
    ensures n * x <= n * y
  {
  }

  /** For every non-empty list, MinRTT <= AvgRTT <= MaxRTT. */
  lemma MinAvgMax(sent: int, recv: int, rtts: seq<int>)
    requires recv != 0 && sent != 0 && |rtts| > 0
    ensures var st := Reduce(sent, recv, rtts);
      st.minRtt <= st.avgRtt <= st.maxRtt
  {
    FirstMinIsFirstMinimal(rtts);
    ZeroSeededMaxBounds(rtts);
    SumBounds(rtts, FirstMin(rtts), ZeroSeededMax(rtts));
    QuotBetween(Sum(rtts), |rtts|, FirstMin(rtts), ZeroSeededMax(rtts));
  }

  /** When some reply arrived and no more replies than probes, the loss is a percentage. */
  lemma LossInRange(sent: int, recv: int)
    requires 0 < recv <= sent
    ensures 0.0 <= LossPercent(sent, recv) <= 100.0
  {
  }

  /** Every run's reduction: the loss lies in [0, 100] once recv <= sent. */
  lemma ReduceLossInRange(sent: int, recv: int, rtts: seq<int>)
    requires Reducible(sent, recv, rtts)
    requires 0 <= recv <= sent
    ensures 0.0 <= Reduce(sent, recv, rtts).loss <= 100.0
  {
  }

  /** Five probes, three replies but one sample: 40% loss and every time is the one sample. */
  lemma AverageDividesByListLength()
    ensures var st := Reduce(5, 3, [5_000_000]);
      st.avgRtt == 5_000_000 && st.minRtt == 5_000_000 && st.maxRtt == 5_000_000 && st.loss == 40.0
  {
  }

  /** Ten, twenty and thirty milliseconds give 10/20/30 and no loss. */
  lemma AllReceived()
    ensures var st := Reduce(5, 5, [10_000_000, 20_000_000, 30_000_000]);
      st.minRtt == 10_000_000 && st.avgRtt == 20_000_000 && st.maxRtt == 30_000_000 && st.loss == 0.0
  {
    var s := [10_000_000, 20_000_000, 30_000_000];
    var s1, s2 := [10_000_000], [10_000_000, 20_000_000];
    assert s[..2] == s2 && s2[..1] == s1 && s1[..0] == [];
    assert ZeroSeededMax(s1) == 10_000_000 && Sum(s1) == 10_000_000;
    assert FirstMin(s2) == 10_000_000 && ZeroSeededMax(s2) == 20_000_000 && Sum(s2) == 30_000_000;
  }
}
