/** When the answers to queries on one sample come in the order of the quantiles asked for. */
module CkmsOrder {
  import opened ErrorFunction
  import opened CkmsSample
  import opened CkmsRanks
  import opened CkmsAccuracy

  lemma {:induction false} ScanMonotone(s: seq<Item>, k: nat, bound: real, larger: real)
    requires k < |s| && bound <= larger
    ensures Scan(s, k, bound) <= Scan(s, k, larger)
    decreases |s| - k
  {
    if k + 1 < |s| && (Weight(s[..k + 1]) + s[k + 1].g + s[k + 1].delta) as real <= bound {
      ScanMonotone(s, k + 1, bound, larger);
    }
  }

  lemma {:induction false} DesiredMonotone(q: real, q': real, n: nat)
    requires 0.0 <= q <= q'
    ensures Desired(q, n) <= Desired(q', n)
  {
    ScaleDown(q, q', n as real);
  }

  // ----- the exact condition, for a sample size and a count

  /**
    The ranks at which the scan may have to stop in front of an item: only the last of two items is
    known beforehand.
   */
  ghost predicate Threshold(size: nat, count: nat, w: int) {
    2 <= size && if size == 2 then w == count else 2 <= w
  }

  /** No such rank lies within the bound for a smaller rank asked for and beyond the bound for a larger one. */
  ghost predicate BoundsInOrder(qs: seq<Quantile>, size: nat, count: nat) {
    forall d: nat, d': nat, w: int ::
      d <= d' <= count && Threshold(size, count, w) && w as real <= QueryBound(qs, d, size) ==>
        w as real <= QueryBound(qs, d', size)
  }

  /** What every sample of so many observations is known to be. */
  ghost predicate SampleOf(s: seq<Item>, count: nat) {
    s != [] && Ordered(s) && PositiveWeights(s) && Weight(s) == count && s[|s| - 1].delta == 0
  }

  ghost predicate AnswersAgree(qs: seq<Quantile>, s: seq<Item>, count: nat, q: real, q': real)
    requires s != []
  {
    Answer(qs, State(s, count, []), q).value <= Answer(qs, State(s, count, []), q').value
  }

  lemma {:induction false} ScanThresholds(s: seq<Item>, count: nat, k: nat, bound: real, larger: real)
    requires SampleOf(s, count) && k < |s|
    requires forall w :: Threshold(|s|, count, w) && w as real <= bound ==> w as real <= larger
    ensures Scan(s, k, bound) <= Scan(s, k, larger)
    decreases |s| - k
  {
    if k + 1 < |s| {
      var w := Weight(s[..k + 1]) + s[k + 1].g + s[k + 1].delta;
      WeightOfPrefix(s, k + 1);
      WeightMonotone(s, 0, k + 2);
      if |s| == 2 { assert s[..2] == s; }
      assert Threshold(|s|, count, w);
      if w as real <= bound { ScanThresholds(s, count, k + 1, bound, larger); }
    }
  }

  lemma {:induction false} BoundsMakeOrder(qs: seq<Quantile>, s: seq<Item>, count: nat, q: real, q': real)
    requires SampleOf(s, count) && BoundsInOrder(qs, |s|, count) && 0.0 <= q <= q' <= 1.0
    ensures AnswersAgree(qs, s, count, q, q')
  {
    hide QueryBound, Desired;
    DesiredMonotone(q, q', count);
    DesiredRange(q, count);
    DesiredRange(q', count);
    var b, b' := QueryBound(qs, Desired(q, count), |s|), QueryBound(qs, Desired(q', count), |s|);
    ScanThresholds(s, count, 0, b, b');
  }

  /** A sample whose second item is reached exactly by bounds of at least w. */
  function Witness(size: nat, count: nat, w: int): seq<Item>
    requires 2 <= size <= count
  {
    seq(size, i requires 0 <= i < size =>
      Item(i as real, if i == size - 1 then count - size + 1 else 1, if i == 1 && 2 < size then w - 2 else 0))
  }

  lemma {:induction false} Ones(s: seq<Item>, k: nat)
    requires k <= |s| && forall i :: 0 <= i < k ==> s[i].g == 1
    ensures Weight(s[..k]) == k
    decreases k
  {
    if 0 < k {
      Ones(s, k - 1);
      WeightOfPrefix(s, k - 1);
    }
  }

  lemma {:induction false} WitnessIsSample(size: nat, count: nat, w: int)
    requires size <= count && Threshold(size, count, w)
    ensures var s := Witness(size, count, w);
            SampleOf(s, count) && |s| == size && Weight(s[..1]) + s[1].g + s[1].delta == w
  {
    var s := Witness(size, count, w);
    Ones(s, size - 1);
    WeightOfPrefix(s, size - 1);
    assert s[..size] == s;
    Ones(s, 1);
  }

  lemma {:induction false} WitnessDisagrees(qs: seq<Quantile>, size: nat, count: nat, d: nat, d': nat, w: int)
    requires size <= count && d <= d' <= count && Threshold(size, count, w)
    requires QueryBound(qs, d', size) < w as real <= QueryBound(qs, d, size)
    ensures var q, q' := d as real / count as real, d' as real / count as real;
            0.0 <= q <= q' <= 1.0 && !AnswersAgree(qs, Witness(size, count, w), count, q, q')
  {
    hide QueryBound, Desired;
    var s := Witness(size, count, w);
    WitnessIsSample(size, count, w);
    RankAsked(d, count);
    RankAsked(d', count);
    Quotients(d as real, d' as real, count as real);
    assert Scan(s, 0, QueryBound(qs, d', size)) == 0;
    assert 1 <= Scan(s, 0, QueryBound(qs, d, size));
  }

  lemma {:induction false} RankAsked(d: nat, count: nat)
    requires d <= count && 0 < count
    ensures Desired(d as real / count as real, count) == d
  {
    assert (d as real / count as real) * count as real == d as real;
  }

  lemma {:induction false} Quotients(a: real, b: real, n: real)
    requires 0.0 <= a <= b <= n && 0.0 < n
    ensures 0.0 <= a / n <= b / n <= 1.0
  {
  }

  /** All answers on all samples of a size and a count. */
  ghost predicate AllAgree(qs: seq<Quantile>, size: nat, count: nat) {
    forall s, q, q' :: |s| == size && SampleOf(s, count) && 0.0 <= q <= q' <= 1.0 ==> AnswersAgree(qs, s, count, q, q')
  }

  /**
    A larger quantile never gets a smaller answer, on any sample of this size and count, if and only
    if the bounds are in order.
   */
  lemma {:induction false} OrderExactly(qs: seq<Quantile>, size: nat, count: nat)
    requires 1 <= size <= count
    ensures AllAgree(qs, size, count) <==> BoundsInOrder(qs, size, count)
  {
    hide QueryBound, AnswersAgree, Witness, SampleOf;
    if BoundsInOrder(qs, size, count) {
      forall s, q, q' | |s| == size && SampleOf(s, count) && 0.0 <= q <= q' <= 1.0
        ensures AnswersAgree(qs, s, count, q, q')
      {
        SampleIsNotEmpty(s, count);
        BoundsMakeOrder(qs, s, count, q, q');
      }
    } else {
      var d: nat, d': nat, w: int :|
        && d <= d' <= count && Threshold(size, count, w)
        && QueryBound(qs, d', size) < w as real <= QueryBound(qs, d, size);
      WitnessIsSample(size, count, w);
      WitnessDisagrees(qs, size, count, d, d', w);
    }
  }

  lemma {:induction false} SampleIsNotEmpty(s: seq<Item>, count: nat)
    requires SampleOf(s, count)
    ensures s != []
  {
  }

  /**
    On every run: the answers that the sample found by the next query has for any two quantiles
    agree, if the bounds are in order for it.
   */
  lemma {:induction false} EveryRunAnswersInOrder(qs: seq<Quantile>, ops: seq<Op>, q: real, q': real)
    requires ValidQuantiles(qs) && 0.0 <= q <= q' <= 1.0
    requires var st := Settle(qs, Run(qs, ops)); st.sample != [] && BoundsInOrder(qs, |st.sample|, st.count)
    ensures var st := Settle(qs, Run(qs, ops)); Answer(qs, st, q).value <= Answer(qs, st, q').value
  {
    hide QueryBound, Desired, RanksSound, ErrorBounded, BoundsInOrder;
    var st := Settle(qs, Run(qs, ops));
    SettledRun(qs, ops);
    BoundsMakeOrder(qs, st.sample, st.count, q, q');
  }

  // ----- tolerances with which the bounds are in order

  /** A target whose tolerance does not reach beyond the largest rank. */
  ghost predicate Gentle(q: Quantile) {
    q.Valid() && q.quantile < 1.0 && q.error <= 1.0 - q.quantile
  }

  lemma {:induction false} SlopeAtMostTwo(p: real, e: real, u: real)
    requires p < 1.0 && e <= 1.0 - p && u * (1.0 - p) == 2.0 * e
    ensures u <= 2.0
  {
    DivideOut(u, 2.0, 1.0 - p);
  }

  lemma {:induction false} GentleSlope(q: Quantile)
    requires Gentle(q)
    ensures 0.0 <= q.u.value <= 2.0
  {
    SlopeAtMostTwo(q.quantile, q.error, q.u.value);
  }

  lemma {:induction false} FallingLineLoses(u: real, n: real, d: real, d': real)
    requires 0.0 <= u <= 2.0 && d <= d'
    ensures d + u * (n - d) / 2.0 <= d' + u * (n - d') / 2.0
  {
    ScaleDown(u, 2.0, d' - d);
    assert u * (n - d) - u * (n - d') == u * (d' - d);
  }

  lemma {:induction false} TargetBoundMonotone(q: Quantile, d: nat, d': nat, n: nat)
    requires Gentle(q) && d <= d'
    requires TargetError(q, d', n).Some?
    ensures TargetError(q, d, n).Some?
    ensures d as real + TargetError(q, d, n).value / 2.0 <= d' as real + TargetError(q, d', n).value / 2.0
  {
    GentleSlope(q);
    FallingLineLoses(q.u.value, n as real, d as real, d' as real);
    if q.quantile == 0.0 {
    } else {
      TargetErrorIsLargerLine(q, d, n);
      TargetErrorIsLargerLine(q, d', n);
      ScaleMonotone(q.v.value, d as real, d' as real);
    }
  }

  lemma {:induction false} QueryBoundMonotone(qs: seq<Quantile>, d: nat, d': nat, n: nat)
    requires forall q :: q in qs ==> Gentle(q)
    requires d <= d'
    ensures QueryBound(qs, d, n) <= QueryBound(qs, d', n)
    decreases |qs|
  {
    if qs != [] {
      var init, q := qs[..|qs| - 1], qs[|qs| - 1];
      QueryBoundMonotone(init, d, d', n);
      if TargetError(q, d', n).Some? {
        TargetBoundMonotone(q, d, d', n);
      }
    }
  }

  lemma {:induction false} GentleBoundsInOrder(qs: seq<Quantile>, size: nat, count: nat)
    requires forall q :: q in qs ==> Gentle(q)
    ensures BoundsInOrder(qs, size, count)
  {
    hide QueryBound, Gentle;
    forall d: nat, d': nat, w: int |
      d <= d' <= count && Threshold(size, count, w) && w as real <= QueryBound(qs, d, size)
      ensures w as real <= QueryBound(qs, d', size)
    {
      QueryBoundMonotone(qs, d, d', size);
    }
  }

  /** On any one sample a larger quantile never gets a smaller answer, when every configured tolerance is gentle. */
  lemma {:induction false} AnswersInOrder(qs: seq<Quantile>, st: State, q: real, q': real)
    requires forall t :: t in qs ==> Gentle(t)
    requires Ordered(st.sample) && st.sample != [] && 0.0 <= q <= q' <= 1.0
    ensures Answer(qs, st, q).value <= Answer(qs, st, q').value
  {
    hide AllowableError, Desired;
    var s, n := st.sample, st.count;
    DesiredMonotone(q, q', n);
    DesiredRange(q, n);
    var d, d' := Desired(q, n), Desired(q', n);
    QueryBoundMonotone(qs, d, d', |s|);
    ScanMonotone(s, 0, QueryBound(qs, d, |s|), QueryBound(qs, d', |s|));
  }

  /**
    So they do on every run when every configured tolerance is gentle: one query or the other, not
    one behind the other.
   */
  lemma {:induction false} GentleRunsInOrder(qs: seq<Quantile>, ops: seq<Op>, q: real, q': real)
    requires ValidQuantiles(qs) && (forall t :: t in qs ==> Gentle(t)) && 0.0 <= q <= q' <= 1.0
    requires Settle(qs, Run(qs, ops)).sample != []
    ensures var st := Settle(qs, Run(qs, ops)); Answer(qs, st, q).value <= Answer(qs, st, q').value
  {
    hide Settle, BoundsInOrder, Gentle, Answer;
    var st := Settle(qs, Run(qs, ops));
    GentleBoundsInOrder(qs, |st.sample|, st.count);
    EveryRunAnswersInOrder(qs, ops, q, q');
  }
}
