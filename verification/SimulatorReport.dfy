/**
 What the figures of a simulation report are, told from the requests of the
 trace: the interpolated percentile, the shares and the spread of the routes.
 */
module SimulatorReport {
  import opened Common
  import opened WorkloadSimulator

  // ---- the percentile ----

  lemma LastIsLargest(values: seq<real>, x: real)
    requires values != [] && Ascending(values) && x in values
    ensures x <= values[|values| - 1]
  {
  }

  lemma AscendingInit(values: seq<real>)
    requires values != [] && Ascending(values)
    ensures Ascending(values[..|values| - 1])
    ensures multiset(values) == multiset(values[..|values| - 1]) + multiset{values[|values| - 1]}
  {
    assert values == values[..|values| - 1] + [values[|values| - 1]];
  }

  lemma SameLast(a: seq<real>, b: seq<real>)
    requires a != [] && b != [] && Ascending(a) && Ascending(b) && multiset(a) == multiset(b)
    ensures a[|a| - 1] == b[|b| - 1]
  {
    hide Ascending;
    assert a[|a| - 1] in multiset(b) && b[|b| - 1] in multiset(a);
    LastIsLargest(a, b[|b| - 1]);
    LastIsLargest(b, a[|a| - 1]);
  }

  lemma SameSize(a: seq<real>, b: seq<real>)
    requires multiset(a) == multiset(b)
    ensures |a| == |b|
  {
    assert |multiset(a)| == |a| && |multiset(b)| == |b|;
  }

  /** There is one way to put values in ascending order. */
  lemma {:induction false} AscendingUnique(a: seq<real>, b: seq<real>)
    requires Ascending(a) && Ascending(b) && multiset(a) == multiset(b)
    ensures a == b
  {
    hide Ascending;
    SameSize(a, b);
    if a != [] {
      var n := |a| - 1;
      SameLast(a, b);
      AscendingInit(a);
      AscendingInit(b);
      SameRest(multiset(a[..n]), multiset(b[..n]), multiset{a[n]});
      AscendingUnique(a[..n], b[..n]);
      TakeDrop(a, n);
      TakeDrop(b, n);
      assert a == a[..n] + [a[n]] && b == b[..n] + [b[n]];
    }
  }

  lemma SameRest(x: multiset<real>, y: multiset<real>, z: multiset<real>)
    requires x + z == y + z
    ensures x == y
  {
    assert x == (x + z) - z && y == (y + z) - z;
  }

  /** The values in order, `x` lies at `place`: on the value there, or in proportion between it and the next. */
  ghost predicate LiesAt(ordered: seq<real>, place: real, x: real) {
    exists k :: 0 <= k < |ordered| && LiesAfter(ordered, k, place, x)
  }

  ghost predicate LiesAfter(ordered: seq<real>, k: int, place: real, x: real)
    requires 0 <= k < |ordered|
  {
    k as real <= place < (k + 1) as real &&
    x == if k + 1 < |ordered| then ordered[k] + (place - k as real) * (ordered[k + 1] - ordered[k]) else ordered[k]
  }

  /** The percentile lies, in the ascending order of the values, at that share of the way from the first to the last. */
  lemma PercentileIs(values: seq<real>, share: real, ordered: seq<real>)
    requires values != [] && 0.0 <= share <= 1.0
    requires Ascending(ordered) && multiset(ordered) == multiset(values)
    ensures LiesAt(ordered, share * (|values| - 1) as real, Percentile(values, share))
  {
    hide Ascending;
    hide Sorted;
    SortedIs(values);
    AscendingUnique(ordered, Sorted(values));
    var place := Position(share, |values| - 1);
    PositionOfOne(share);
    assert |multiset(ordered)| == |ordered|;
    assert LiesAfter(ordered, place.Floor, place, Percentile(values, share));
  }

  // ---- the shares ----

  lemma {:induction false} OverIsLater(ttfts: seq<real>, slo: real)
    ensures Over(ttfts, slo) == |Later(ttfts, slo)|
  {
    if ttfts != [] {
      OverIsLater(ttfts[..|ttfts| - 1], slo);
    }
  }

  lemma Quotient(part: real, whole: real)
    requires whole > 0.0
    ensures part / whole * whole == part
  {
  }

  /**
   The report of a trace: the 95th percentile of the times to first token, the
   requests per second until the last one ends, counting at least a
   millisecond, the share of requests that missed the objective, and the share
   of the shared tokens that was reused.
   */
  lemma ReportIs(c: Config, policy: Policy, trace: seq<Signature>, root: real -> real)
    requires ValidConfig(c) && ValidTrace(trace) && trace != []
    ensures var s := After(c, policy, trace);
            s.ttfts != [] && s.routes != [] &&
            var m := Report(s, |trace|, root);
            var seconds := if s.finish <= 1.0 then 0.001 else s.finish / 1000.0;
            && m.requests == |trace| == |s.ttfts|
            && LiesAt(Sorted(s.ttfts), 0.95 * (|trace| - 1) as real, m.p95)
            && m.throughput * seconds == |trace| as real
            && m.sloViolationRate * |trace| as real == |Later(s.ttfts, c.sloMs)| as real
            && m.cacheReuseRatio * s.shared as real == (if s.shared == 0 then 0 else s.reused) as real
            && (s.shared == 0 ==> m.cacheReuseRatio == 0.0) && m.imbalance == Imbalance(s.routes, root)
  {
    hide After;
    hide Over;
    hide Percentile;
    hide Later;
    hide Sorted;
    hide Imbalance;
    hide LiesAt;
    var s := After(c, policy, trace);
    Accounts(c, policy, trace);
    OverIsLater(s.ttfts, c.sloMs);
    SortedIs(s.ttfts);
    PercentileIs(s.ttfts, 0.95, Sorted(s.ttfts));
    Quotient(|trace| as real, Max(s.finish / 1000.0, 0.001));
    Quotient(s.violations as real, |trace| as real);
    if s.shared > 0 {
      Quotient(s.reused as real, s.shared as real);
    }
  }

  // ---- the imbalance ----

  ghost function Squares(counts: seq<nat>): real {
    if counts == [] then 0.0
    else Squares(counts[..|counts| - 1]) + Product(counts[|counts| - 1] as real, counts[|counts| - 1] as real)
  }

  lemma SquareOfDifference(x: real, mean: real)
    ensures Product(x - mean, x - mean) == Product(x, x) - Product(2.0 * mean, x) + Product(mean, mean)
  {
  }

  lemma Distribute(factor: real, x: real, y: real)
    ensures Product(factor, x + y) == Product(factor, x) + Product(factor, y)
  {
  }

  /** The spread around any value, told from the sum and the sum of squares. */
  lemma {:induction false} SpreadTold(counts: seq<nat>, mean: real)
    ensures Spread(counts, mean) ==
            Squares(counts) - Product(2.0 * mean, Total(counts) as real) + Product(Product(mean, mean), |counts| as real)
  {
    if counts == [] {
      NoProduct(2.0 * mean);
      NoProduct(Product(mean, mean));
    } else {
      var n := |counts| - 1;
      SpreadTold(counts[..n], mean);
      var x := counts[n] as real;
      SquareOfDifference(x, mean);
      Distribute(2.0 * mean, Total(counts[..n]) as real, x);
      Distribute(Product(mean, mean), n as real, 1.0);
      ProductOne(Product(mean, mean));
      hide Product;
      assert (n + 1) as real == n as real + 1.0;
      assert Total(counts) as real == Total(counts[..n]) as real + x;
    }
  }

  lemma NoProduct(x: real)
    ensures Product(x, 0.0) == 0.0
  {
  }

  lemma ProductOne(x: real)
    ensures Product(x, 1.0) == x
  {
  }

  /** The imbalance is the standard deviation of the routes in units of their mean; `root` is the square root. */
  lemma ImbalanceIs(counts: seq<nat>, root: real -> real, mean: real, variance: real)
    requires counts != [] && mean * |counts| as real == Total(counts) as real && mean > 0.0
    requires variance * |counts| as real ==
             Squares(counts) - Product(2.0 * mean, Total(counts) as real) + Product(Product(mean, mean), |counts| as real)
    ensures Imbalance(counts, root) * mean == root(variance)
  {
    hide Product;
    hide Total;
    hide Squares;
    hide Spread;
    SpreadTold(counts, mean);
    OnlyQuotient(Total(counts) as real, |counts| as real, mean);
    OnlyQuotient(Spread(counts, mean), |counts| as real, variance);
    Quotient(root(variance), mean);
  }

  lemma OnlyQuotient(part: real, whole: real, q: real)
    requires whole > 0.0 && q * whole == part
    ensures part / whole == q
  {
  }
}
