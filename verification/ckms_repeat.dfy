/**
  Queries in a row. Each of them compresses the sample again before it scans it, so that two of them
  may find different samples: when they do not, and what then is known of their answers.
 */
module CkmsRepeat {
  import opened Options
  import opened ErrorFunction
  import opened CkmsSample
  import opened CkmsAccuracy
  import opened CkmsSpace
  import opened CkmsOrder
  import opened CkmsStops

  /** A settled state that another query leaves as it is: all neighbours in its sample fail the merge test. */
  ghost predicate AtRest(qs: seq<Quantile>, st: State) {
    st.buffer == [] && Apart(qs, st.sample, |st.sample|)
  }

  lemma {:induction false} NothingToFlush(qs: seq<Quantile>, st: State)
    requires st.buffer == []
    ensures Settle(qs, st) == st.(sample := Compress(qs, st.sample))
  {
    hide Compress;
  }

  /**
    With nothing buffered a query leaves the state alone if and only if it is at rest; otherwise the
    sample gets shorter.
   */
  lemma {:induction false} RestExactly(qs: seq<Quantile>, st: State)
    requires st.buffer == []
    ensures Settle(qs, st) == st <==> AtRest(qs, st)
    ensures !AtRest(qs, st) ==> |Settle(qs, st).sample| < |st.sample|
  {
    hide Compress, Apart;
    NothingToFlush(qs, st);
    FixedExactly(qs, st.sample);
  }

  /** The state after so many queries. */
  function Settles(qs: seq<Quantile>, st: State, n: nat): State {
    if n == 0 then st else Settle(qs, Settles(qs, st, n - 1))
  }

  lemma {:induction false} SettleEmptiesBuffer(qs: seq<Quantile>, st: State)
    ensures Settle(qs, st).buffer == []
  {
  }

  lemma {:induction false} RestStays(qs: seq<Quantile>, st: State, n: nat)
    requires AtRest(qs, st)
    ensures Settles(qs, st, n) == st
    decreases n
  {
    hide Settle, Apart;
    if 0 < n {
      RestStays(qs, st, n - 1);
      RestExactly(qs, st);
    }
  }

  lemma {:induction false} RestOrShorter(qs: seq<Quantile>, st: State, n: nat)
    requires st.buffer == []
    ensures var t := Settles(qs, st, n); t.buffer == [] && (AtRest(qs, t) || |t.sample| + n <= |st.sample|)
    decreases n
  {
    hide Settle, Apart;
    if 0 < n {
      var t := Settles(qs, st, n - 1);
      RestOrShorter(qs, st, n - 1);
      RestExactly(qs, t);
      SettleEmptiesBuffer(qs, t);
    }
  }

  /** After as many queries as the sample has items the state is at rest, and stays so. */
  lemma {:induction false} RestIsReached(qs: seq<Quantile>, st: State, n: nat)
    requires st.buffer == [] && |st.sample| <= n
    ensures AtRest(qs, Settles(qs, st, n))
  {
    hide Settle;
    RestOrShorter(qs, st, n);
  }

  // ----- a row of queries on a run

  function Queries(quantiles: seq<real>): seq<Op> {
    seq(|quantiles|, i requires 0 <= i < |quantiles| => Query(quantiles[i]))
  }

  lemma {:induction false} RunQueries(qs: seq<Quantile>, ops: seq<Op>, quantiles: seq<real>)
    ensures Run(qs, ops + Queries(quantiles)) == Settles(qs, Run(qs, ops), |quantiles|)
    decreases |quantiles|
  {
    hide Settle;
    var all := ops + Queries(quantiles);
    if quantiles == [] {
      assert all == ops;
    } else {
      var init := quantiles[..|quantiles| - 1];
      assert all[..|all| - 1] == ops + Queries(init);
      RunQueries(qs, ops, init);
    }
  }

  /** The answer to the i-th of the queries that follow a run. */
  function RowAnswer(qs: seq<Quantile>, ops: seq<Op>, quantiles: seq<real>, i: nat): Option<real>
    requires i < |quantiles|
  {
    Answer(qs, Settle(qs, Run(qs, ops + Queries(quantiles[..i]))), quantiles[i])
  }

  /** All queries of a row on a state at rest find the sample the first of them found. */
  lemma {:induction false} RowAtRest(qs: seq<Quantile>, ops: seq<Op>, quantiles: seq<real>, i: nat)
    requires i < |quantiles| && AtRest(qs, Settle(qs, Run(qs, ops)))
    ensures RowAnswer(qs, ops, quantiles, i) == Answer(qs, Settle(qs, Run(qs, ops)), quantiles[i])
  {
    hide Settle, Run, Answer, AtRest;
    RunQueries(qs, ops, quantiles[..i]);
    SettlesShift(qs, Run(qs, ops), i);
    RestStays(qs, Settle(qs, Run(qs, ops)), i);
  }

  lemma {:induction false} SettlesShift(qs: seq<Quantile>, st: State, n: nat)
    ensures Settle(qs, Settles(qs, st, n)) == Settles(qs, Settle(qs, st), n)
    decreases n
  {
    hide Settle;
    if 0 < n { SettlesShift(qs, st, n - 1); }
  }

  /**
    Then, if the bounds are in order for it, the answers are in the order of the quantiles, whichever of
    two queries came first; in particular one quantile asked for twice gets one answer.
   */
  lemma {:induction false} RowInOrder(qs: seq<Quantile>, ops: seq<Op>, quantiles: seq<real>, i: nat, j: nat)
    requires ValidQuantiles(qs) && i < |quantiles| && j < |quantiles| && 0.0 <= quantiles[i] <= quantiles[j] <= 1.0
    requires var st := Settle(qs, Run(qs, ops));
             AtRest(qs, st) && st.sample != [] && StopsInOrder(qs, |st.sample|, st.count)
    ensures var a, b := RowAnswer(qs, ops, quantiles, i), RowAnswer(qs, ops, quantiles, j);
            a.Some? && b.Some? && a.value <= b.value
  {
    hide Settle, Run, AtRest, RowAnswer, StopsInOrder, QueryBound, Desired;
    RowAtRest(qs, ops, quantiles, i);
    RowAtRest(qs, ops, quantiles, j);
    EveryRunStopsInOrder(qs, ops, quantiles[i], quantiles[j]);
  }

  /**
    On every run with gentle tolerances: behind as many queries as the sample has items, whatever they
    ask for, the answers of a row are in the order of the quantiles.
   */
  lemma {:induction false} LaterRowsInOrder(
    qs: seq<Quantile>, ops: seq<Op>, first: seq<real>, quantiles: seq<real>, i: nat, j: nat)
    requires ValidQuantiles(qs) && (forall t :: t in qs ==> Gentle(t))
    requires i < |quantiles| && j < |quantiles| && 0.0 <= quantiles[i] <= quantiles[j] <= 1.0
    requires |Settle(qs, Run(qs, ops)).sample| <= |first| && Observed(ops) != []
    ensures var later := ops + Queries(first);
            var a, b := RowAnswer(qs, later, quantiles, i), RowAnswer(qs, later, quantiles, j);
            a.Some? && b.Some? && a.value <= b.value
  {
    hide Settle, Run, AtRest, RowAnswer, BoundsInOrder, StopsInOrder, Gentle, Observed;
    var st := Settle(qs, Run(qs, ops));
    SettleEmptiesBuffer(qs, Run(qs, ops));
    RestIsReached(qs, st, |first|);
    RunQueries(qs, ops, first);
    SettlesShift(qs, Run(qs, ops), |first|);
    var after := Settle(qs, Run(qs, ops + Queries(first)));
    ObservedQueries(ops, first);
    NotEmpty(qs, ops + Queries(first));
    GentleBoundsInOrder(qs, |after.sample|, after.count);
    BoundsInOrderSuffice(qs, |after.sample|, after.count);
    RowInOrder(qs, ops + Queries(first), quantiles, i, j);
  }

  lemma {:induction false} ObservedQueries(ops: seq<Op>, quantiles: seq<real>)
    ensures Observed(ops + Queries(quantiles)) == Observed(ops)
    decreases |quantiles|
  {
    var all := ops + Queries(quantiles);
    if quantiles == [] {
      assert all == ops;
    } else {
      var init := quantiles[..|quantiles| - 1];
      assert all[..|all| - 1] == ops + Queries(init);
      ObservedQueries(ops, init);
    }
  }

  lemma {:induction false} NotEmpty(qs: seq<Quantile>, ops: seq<Op>)
    requires ValidQuantiles(qs) && Observed(ops) != []
    ensures Settle(qs, Run(qs, ops)).sample != []
  {
    SettledRun(qs, ops);
  }
}
