/** The summary metric: lifetime totals next to quantiles over a sliding window. */
module SummaryMetric {
  import opened Options
  import opened ErrorFunction
  import opened Observations
  import opened CkmsSample
  import opened CkmsRanks
  import opened CkmsAccuracy
  import opened CkmsUpper
  import opened CkmsOrder
  import opened CkmsRepeat
  import opened TimeWindow
  import W = WindowRing
  import T = TextFormat

  /** Every value observed so far, in order, whatever its age. */
  function Lifetime(ops: seq<W.Op>): seq<real> {
    if ops == [] then []
    else
      var before, op := Lifetime(ops[..|ops| - 1]), ops[|ops| - 1];
      if op.Observe? then before + [op.value] else before
  }

  lemma {:induction false} LifetimeExtend(ops: seq<W.Op>, op: W.Op)
    ensures Lifetime(ops + [op]) == if op.Observe? then Lifetime(ops) + [op.value] else Lifetime(ops)
  {
    assert (ops + [op])[..|ops|] == ops;
  }

  /** What a configured target reports about the observations of a window, and of a guarded bucket. */
  ghost predicate Reports(window: seq<real>, target: Quantile, reported: T.QuantileValue, guarded: bool) {
    && reported.quantile == T.Finite(target.quantile)
    && (reported.value == T.NaN <==> window == [])
    && (reported.value != T.NaN ==> reported.value.Finite? && reported.value.value in window)
    && (reported.value.Finite? && Inner(target) ==>
          var n, value := |window| as real, reported.value.value;
          && (Gradual(target) ==> NotShort(target, n, CountAtMost(window, value) as real))
          && (guarded && FirstInReach(target) ==> NotBeyond(target, n, CountBelow(window, value) as real)))
  }

  lemma {:induction false} MeetingIsReported(
    qs: seq<Quantile>, s: seq<Item>, target: Quantile, window: seq<real>, answer: Option<real>, guarded: bool)
    requires Meets(qs, s, target.quantile, window, answer, guarded) && target in qs
    ensures Reports(window, target, T.QuantileValue(T.Finite(target.quantile), NumberOf(answer)), guarded)
  {
    hide NotShort, NotBeyond, NotShortOfBound, NotBeyondBound, Inner, Gradual, FirstInReach, Count;
  }

  function NumberOf(answer: Option<real>): T.Number {
    match answer
    case None => T.NaN
    case Some(value) => T.Finite(value)
  }

  /** Each value is the answer of one more query; the first one left the state called found. */
  ghost predicate RowOfAnswers(qs: seq<Quantile>, found: State, values: seq<T.QuantileValue>) {
    && |values| <= |qs|
    && forall i :: 0 <= i < |values| ==>
         values[i].value == NumberOf(Answer(qs, Settles(qs, found, i), qs[i].quantile))
  }

  lemma {:induction false} AnswerAppended(
    qs: seq<Quantile>, found: State, values: seq<T.QuantileValue>, value: T.QuantileValue)
    requires |values| < |qs| && (values != [] ==> RowOfAnswers(qs, found, values))
    requires value.value == NumberOf(Answer(qs, Settles(qs, found, |values|), qs[|values|].quantile))
    ensures RowOfAnswers(qs, found, values + [value])
  {
    hide Answer, Settle;
  }

  lemma {:induction false} NothingReported(qs: seq<Quantile>)
    ensures Ordered([]) && RowOfAnswers(qs, EMPTY, [])
  {
  }

  class Summary {
    const quantiles: seq<Quantile>
    const quantileValues: TimeWindowQuantiles
    var count: nat
    var sum: real

    ghost predicate Valid()
      reads this, quantileValues, quantileValues.repr, quantileValues.ckmsQuantiles
    {
      && this !in quantileValues.repr
      && quantileValues.Valid()
      && quantileValues.quantiles == quantiles
      && ValidQuantiles(quantiles)
      && count == |Lifetime(quantileValues.history)|
      && sum == Sum(Lifetime(quantileValues.history))
    }

    constructor (quantiles: seq<Quantile>, maxAge: int, ageBuckets: int, now: int)
      requires ValidQuantiles(quantiles) && 1 <= ageBuckets && 1 <= maxAge / ageBuckets
      ensures Valid() && fresh(quantileValues) && fresh(quantileValues.repr)
      ensures this.quantiles == quantiles && quantileValues.history == []
      ensures quantileValues.Configuration() == W.Config(ageBuckets, maxAge / ageBuckets, now)
    {
      this.quantiles := quantiles;
      var window := new TimeWindowQuantiles(quantiles, maxAge, ageBuckets, now);
      quantileValues := window;
      count, sum := 0, 0.0;
    }

    method Observe(now: int, value: real)
      requires Valid() && W.LastTime(quantileValues.Configuration(), quantileValues.history) <= now
      modifies this, quantileValues, quantileValues.repr
      ensures Valid()
      ensures quantileValues.history == old(quantileValues.history) + [W.Observe(now, value)]
    {
      LifetimeExtend(quantileValues.history, W.Observe(now, value));
      SumExtend(Lifetime(quantileValues.history), value);
      count := count + 1;
      sum := sum + value;
      quantileValues.Insert(now, value);
    }

    /** The state of the bucket that the next call finds, unless a rotation is due. */
    ghost function Current(): State
      requires Valid()
      reads this, quantileValues, quantileValues.repr, quantileValues.ckmsQuantiles
    {
      hide W.Clocked, W.Run, TimeWindowQuantiles.Separate;
      quantileValues.Bucket(quantileValues.currentBucket)
    }

    /** All buckets are guarded, as they are before anything was merged into them. */
    ghost predicate AllGuarded()
      requires Valid()
      reads this, quantileValues, quantileValues.repr, quantileValues.ckmsQuantiles
    {
      hide W.Clocked, W.Run, TimeWindowQuantiles.Separate;
      forall i :: 0 <= i < |quantileValues.ckmsQuantiles| ==> quantileValues.GuardedBucket(i)
    }

    /** One round of the loop that collects: what a configured target reports now. */
    method Report(now: int, target: Quantile) returns (reported: T.QuantileValue)
      requires Valid() && target in quantiles
      requires W.LastTime(quantileValues.Configuration(), quantileValues.history) <= now
      modifies quantileValues, quantileValues.repr
      ensures Valid()
      ensures quantileValues.history == old(quantileValues.history) + [W.Query(now)]
      ensures Lifetime(quantileValues.history) == old(Lifetime(quantileValues.history))
      ensures W.LastTime(quantileValues.Configuration(), quantileValues.history) == now
      ensures forall t :: quantileValues.Window(t) == old(quantileValues.Window(t))
      ensures Reports(quantileValues.Window(now), target, reported, false)
      ensures old(AllGuarded()) ==> AllGuarded() && Reports(quantileValues.Window(now), target, reported, true)
      ensures reported.value == NumberOf(Answer(quantiles, Current(), target.quantile)) && Ordered(Current().sample)
      ensures SameEpoch(now, old(W.LastTime(quantileValues.Configuration(), quantileValues.history))) ==>
                Current() == Settle(quantiles, old(Current()))
    {
      hide TimeWindowQuantiles.Separate, TimeWindowQuantiles.Mirrors, TimeWindowQuantiles.Window;
      hide W.Clocked, W.EpochAt, Settle, Answer, Ordered, Meets, Guarded, Reports;
      LifetimeExtend(quantileValues.history, W.Query(now));
      if SameEpoch(now, W.LastTime(quantileValues.Configuration(), quantileValues.history)) {
        quantileValues.NoRotationDue(now);
      }
      ghost var guarded := AllGuarded();
      var value := quantileValues.Get(now, target.quantile);
      ghost var found := Current().sample;
      MeetingIsReported(quantiles, found, target, quantileValues.Window(now), value, false);
      if guarded {
        MeetingIsReported(quantiles, found, target, quantileValues.Window(now), value, true);
      }
      reported := T.QuantileValue(T.Finite(target.quantile), NumberOf(value));
    }

    ghost predicate SameEpoch(a: int, b: int)
      requires quantileValues.Configuration().Valid()
    {
      W.EpochAt(quantileValues.Configuration(), a) == W.EpochAt(quantileValues.Configuration(), b)
    }

    /** All quantiles are read within one rotation epoch. */
    ghost predicate InOneEpoch(readings: seq<int>)
      requires quantileValues.Configuration().Valid()
    {
      forall i, j :: 0 <= i < |readings| && 0 <= j < |readings| ==> SameEpoch(readings[i], readings[j])
    }

    /**
      Collect the totals and, at one clock reading each, the configured quantiles. If these are read in
      one epoch, each query finds the state that the one before it left.
     */
    method Collect(readings: seq<int>) returns (metric: T.SummaryData, ghost found: State)
      requires Valid() && |readings| == |quantiles|
      requires forall i, j :: 0 <= i < j < |readings| ==> readings[i] <= readings[j]
      requires forall i :: 0 <= i < |readings| ==>
                 W.LastTime(quantileValues.Configuration(), quantileValues.history) <= readings[i]
      modifies quantileValues, quantileValues.repr
      ensures Valid()
      ensures Lifetime(quantileValues.history) == old(Lifetime(quantileValues.history))
      ensures forall t :: quantileValues.Window(t) == old(quantileValues.Window(t))
      ensures metric.sampleCount == |Lifetime(quantileValues.history)|
      ensures metric.sampleSum == T.Finite(Sum(Lifetime(quantileValues.history)))
      ensures |metric.quantile| == |quantiles|
      ensures forall i :: 0 <= i < |quantiles| ==>
                Reports(quantileValues.Window(readings[i]), quantiles[i], metric.quantile[i], false)
      ensures old(AllGuarded()) ==> forall i :: 0 <= i < |quantiles| ==>
                Reports(quantileValues.Window(readings[i]), quantiles[i], metric.quantile[i], true)
      ensures Ordered(found.sample)
      ensures InOneEpoch(readings) ==> RowOfAnswers(quantiles, found, metric.quantile)
    {
      hide TimeWindowQuantiles.Valid, TimeWindowQuantiles.Window, Summary.Current, Summary.AllGuarded, Reports;
      hide Lifetime, W.LastTime;
      hide Settle, Answer, Ordered, Summary.SameEpoch, RowOfAnswers;
      ConfigurationIsValid();
      var reported: seq<T.QuantileValue> := [];
      found := EMPTY;
      NothingReported(quantiles);
      for i := 0 to |quantiles|
        invariant Valid() && |reported| == i && Ordered(found.sample)
        invariant Lifetime(quantileValues.history) == old(Lifetime(quantileValues.history))
        invariant i < |readings| ==> W.LastTime(quantileValues.Configuration(), quantileValues.history) <= readings[i]
        invariant forall t :: quantileValues.Window(t) == old(quantileValues.Window(t))
        invariant forall j :: 0 <= j < i ==>
                    Reports(old(quantileValues.Window(readings[j])), quantiles[j], reported[j], false)
        invariant old(AllGuarded()) ==> AllGuarded() && forall j :: 0 <= j < i ==>
                    Reports(old(quantileValues.Window(readings[j])), quantiles[j], reported[j], true)
        invariant 0 < i ==> W.LastTime(quantileValues.Configuration(), quantileValues.history) == readings[i - 1]
        invariant 0 < i && InOneEpoch(readings) ==> Current() == Settles(quantiles, found, i - 1)
        invariant InOneEpoch(readings) ==> RowOfAnswers(quantiles, found, reported)
      {
        var value := Report(readings[i], quantiles[i]);
        if i == 0 { found := Current(); }
        if InOneEpoch(readings) {
          AnswerAppended(quantiles, found, reported, value);
        }
        reported := reported + [value];
      }
      metric := T.SummaryData(count, T.Finite(sum), reported);
    }

    lemma {:induction false} ConfigurationIsValid()
      requires Valid()
      ensures quantileValues.Configuration().Valid()
    {
    }
  }

  /**
    What is collected in one epoch, if the first query leaves a state at rest and all targets are gentle:
    values in the order of the quantiles, whatever the order in which these are configured.
   */
  lemma {:induction false} CollectedInOrder(
    qs: seq<Quantile>, found: State, values: seq<T.QuantileValue>, i: nat, j: nat)
    requires (forall t :: t in qs ==> Gentle(t)) && Ordered(found.sample) && AtRest(qs, found)
    requires RowOfAnswers(qs, found, values) && i < |values| && j < |values| && qs[i].quantile <= qs[j].quantile
    ensures || (values[i].value == T.NaN && values[j].value == T.NaN)
            || (values[i].value.Finite? && values[j].value.Finite? && values[i].value.value <= values[j].value.value)
  {
    hide Settle, AtRest, Ordered, QueryBound, Desired;
    RestStays(qs, found, i);
    RestStays(qs, found, j);
    assert Gentle(qs[i]) && Gentle(qs[j]);
    if found.sample != [] { AnswersInOrder(qs, found, qs[i].quantile, qs[j].quantile); }
  }

  /** A summary's totals count what its window has dropped: the window holds the newest of all observations. */
  lemma {:induction false} WindowIsRecent(cfg: W.Config, ops: seq<W.Op>, first: int)
    requires cfg.Valid() && W.Clocked(cfg, ops)
    ensures var dropped := |Lifetime(ops)| - |W.Since(cfg, ops, first)|;
            0 <= dropped && W.Since(cfg, ops, first) == Lifetime(ops)[dropped..]
    decreases |ops|
  {
    if ops != [] {
      var init, op := ops[..|ops| - 1], ops[|ops| - 1];
      WindowIsRecent(cfg, init, first);
      if op.Observe? && !W.InWindow(cfg, op, first) {
        NothingSince(cfg, init, first, op.now);
      }
    }
  }

  lemma {:induction false} NothingSince(cfg: W.Config, ops: seq<W.Op>, first: int, now: int)
    requires cfg.Valid() && W.EpochAt(cfg, now) < first && forall i :: 0 <= i < |ops| ==> ops[i].now <= now
    ensures W.Since(cfg, ops, first) == []
    decreases |ops|
  {
    if ops != [] {
      NothingSince(cfg, ops[..|ops| - 1], first, now);
      W.EpochMonotone(cfg, ops[|ops| - 1].now - cfg.start, now - cfg.start);
    }
  }
}
