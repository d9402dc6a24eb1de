/** Gauges, counters, and the histogram that keeps a counter per bucket. */
module Histograms {
  import opened Observations
  import T = TextFormat

  /** A gauge used by one thread at a time; GaugeSteps has the concurrent one. */
  class Gauge {
    var value: real

    constructor (value: real)
      ensures this.value == value
    {
      this.value := value;
    }

    method Change(delta: real)
      modifies this
      ensures value == old(value) + delta
    {
      value := value + delta;
    }

    method Set(value: real)
      modifies this
      ensures this.value == value
    {
      this.value := value;
    }
  }

  /** What a counter makes of an increment: it ignores negative ones. */
  function Counted(value: real, increment: real): real {
    if increment < 0.0 then value else value + increment
  }

  class Counter {
    var value: real

    constructor ()
      ensures value == 0.0
    {
      value := 0.0;
    }

    method Increment(val: real)
      modifies this
      ensures value == Counted(old(value), val) && old(value) <= value
      ensures val < 0.0 ==> value == old(value)
      ensures 0.0 <= val ==> value == old(value) + val
    {
      if val < 0.0 {
        return;
      }
      value := value + val;
    }

    method Reset()
      modifies this
      ensures value == 0.0
    {
      value := 0.0;
    }
  }

  // ----- the histogram as a function of its state

  datatype State = State(counts: seq<real>, sum: real)

  datatype Op = Observe(value: real) | ObserveMultiple(increments: seq<real>, sumOfValues: real) | Reset

  /** The first boundary that is not less than the value; the last bucket has none. */
  function BucketIndex(boundaries: seq<real>, value: real): (i: nat)
    ensures i <= |boundaries|
    ensures forall k :: 0 <= k < i ==> boundaries[k] < value
    ensures i < |boundaries| ==> value <= boundaries[i]
  {
    if boundaries == [] || value <= boundaries[0] then 0 else 1 + BucketIndex(boundaries[1..], value)
  }

  /**
    Whether a value belongs to bucket k: above the boundary in front of it, and up to its own, which
    the last one lacks.
   */
  predicate Between(boundaries: seq<real>, k: nat, value: real)
    requires k <= |boundaries|
  {
    (0 < k ==> boundaries[k - 1] < value) && (k < |boundaries| ==> value <= boundaries[k])
  }

  lemma {:induction false} IndexIsBetween(boundaries: seq<real>, value: real, k: nat)
    requires StrictlySorted(boundaries) && k <= |boundaries|
    ensures Between(boundaries, k, value) <==> k == BucketIndex(boundaries, value)
  {
    var i := BucketIndex(boundaries, value);
    if k < i {
      assert boundaries[k] < value;
    } else if i < k {
      assert boundaries[i] <= boundaries[k - 1];
    }
  }

  function Zeros(n: nat): State {
    State(seq(n, _ => 0.0), 0.0)
  }

  function IncrementAll(counts: seq<real>, increments: seq<real>): (r: seq<real>)
    requires |counts| == |increments|
    ensures |r| == |counts|
  {
    seq(|counts|, i requires 0 <= i < |counts| => Counted(counts[i], increments[i]))
  }

  /** A step; increments of the wrong number are rejected and change nothing. */
  function Step(boundaries: seq<real>, s: State, op: Op): (s': State)
    requires |s.counts| == |boundaries| + 1
    ensures |s'.counts| == |s.counts|
  {
    match op
    case Observe(value) =>
      var i := BucketIndex(boundaries, value);
      State(s.counts[i := s.counts[i] + 1.0], s.sum + value)
    case ObserveMultiple(increments, sumOfValues) =>
      if |increments| != |s.counts| then s
      else State(IncrementAll(s.counts, increments), s.sum + sumOfValues)
    case Reset => Zeros(|s.counts|)
  }

  function Run(boundaries: seq<real>, ops: seq<Op>): (s: State)
    ensures |s.counts| == |boundaries| + 1
  {
    if ops == [] then Zeros(|boundaries| + 1) else Step(boundaries, Run(boundaries, ops[..|ops| - 1]), ops[|ops| - 1])
  }

  /** The running total of the buckets up to i, which the collection truncates to an integer at every step. */
  function Cumulative(counts: seq<real>, i: nat): int
    requires i < |counts|
  {
    ((if i == 0 then 0.0 else Cumulative(counts, i - 1) as real) + counts[i]).Floor
  }

  // ----- the object

  class Histogram {
    const boundaries: seq<real>
    const bucketCounts: seq<Counter>
    const sum: Gauge

    ghost predicate Valid() {
      && StrictlySorted(boundaries)
      && |bucketCounts| == |boundaries| + 1
      && forall i, j :: 0 <= i < j < |bucketCounts| ==> bucketCounts[i] != bucketCounts[j]
    }

    ghost predicate Shows(s: State)
      reads this, bucketCounts, sum
    {
      && |s.counts| == |bucketCounts|
      && (forall i :: 0 <= i < |bucketCounts| ==> bucketCounts[i].value == s.counts[i])
      && sum.value == s.sum
    }

    constructor (boundaries: seq<real>)
      requires StrictlySorted(boundaries)
      ensures Valid() && this.boundaries == boundaries
      ensures Shows(Run(boundaries, []))
      ensures fresh(bucketCounts) && fresh(sum)
    {
      var counters: seq<Counter> := [];
      for i := 0 to |boundaries| + 1
        invariant |counters| == i && fresh(counters)
        invariant forall k :: 0 <= k < i ==> counters[k].value == 0.0
        invariant forall j, k :: 0 <= j < k < i ==> counters[j] != counters[k]
      {
        var counter := new Counter();
        counters := counters + [counter];
      }
      var total := new Gauge(0.0);
      this.boundaries := boundaries;
      bucketCounts := counters;
      sum := total;
    }

    /** The checked construction: boundaries that are not strictly sorted are rejected. */
    static method Create(boundaries: seq<real>) returns (h: Histogram?)
      ensures h != null <==> StrictlySorted(boundaries)
      ensures h != null ==> h.Valid() && h.boundaries == boundaries && h.Shows(Run(boundaries, [])) && fresh(h)
    {
      var i := 1;
      while i < |boundaries|
        invariant 1 <= i
        invariant forall k :: 1 <= k < i && k < |boundaries| ==> boundaries[k - 1] < boundaries[k]
      {
        if boundaries[i - 1] >= boundaries[i] {
          return null;
        }
        i := i + 1;
      }
      AdjacentIsEnough(boundaries);
      h := new Histogram(boundaries);
    }

    method Observe(value: real)
      requires Valid()
      modifies bucketCounts, sum
      ensures forall s :: old(Shows(s)) ==> Shows(Step(boundaries, s, Op.Observe(value)))
      ensures forall k :: 0 <= k < |bucketCounts| ==>
                bucketCounts[k].value == old(bucketCounts[k].value)
                                         + if Between(boundaries, k, value) then 1.0 else 0.0
      ensures sum.value == old(sum.value) + value
    {
      forall k | 0 <= k < |bucketCounts|
        ensures Between(boundaries, k, value) <==> k == BucketIndex(boundaries, value)
      {
        IndexIsBetween(boundaries, value, k);
      }
      var bucketIndex := BucketIndex(boundaries, value);
      sum.Change(value);
      bucketCounts[bucketIndex].Increment(1.0);
    }

    method ObserveMultiple(increments: seq<real>, sumOfValues: real) returns (accepted: bool)
      requires Valid()
      modifies bucketCounts, sum
      ensures accepted <==> |increments| == |bucketCounts|
      ensures forall s :: old(Shows(s)) ==> Shows(Step(boundaries, s, Op.ObserveMultiple(increments, sumOfValues)))
      ensures !accepted ==>
                && sum.value == old(sum.value)
                && forall k :: 0 <= k < |bucketCounts| ==> bucketCounts[k].value == old(bucketCounts[k].value)
      ensures accepted ==>
                && sum.value == old(sum.value) + sumOfValues
                && forall k :: 0 <= k < |bucketCounts| ==>
                     && (increments[k] < 0.0 ==> bucketCounts[k].value == old(bucketCounts[k].value))
                     && (0.0 <= increments[k] ==> bucketCounts[k].value == old(bucketCounts[k].value) + increments[k])
    {
      if |increments| != |bucketCounts| {
        return false;
      }
      sum.Change(sumOfValues);
      for i := 0 to |bucketCounts|
        invariant sum.value == old(sum.value) + sumOfValues
        invariant forall k :: 0 <= k < i ==> bucketCounts[k].value == Counted(old(bucketCounts[k].value), increments[k])
        invariant forall k :: i <= k < |bucketCounts| ==> bucketCounts[k].value == old(bucketCounts[k].value)
      {
        bucketCounts[i].Increment(increments[i]);
      }
      return true;
    }

    method Reset()
      requires Valid()
      modifies bucketCounts, sum
      ensures Shows(Zeros(|bucketCounts|))
      ensures sum.value == 0.0 && forall k :: 0 <= k < |bucketCounts| ==> bucketCounts[k].value == 0.0
    {
      for i := 0 to |bucketCounts|
        invariant forall k :: 0 <= k < i ==> bucketCounts[k].value == 0.0
      {
        bucketCounts[i].Reset();
      }
      sum.Set(0.0);
    }

    /** The cumulative counts, bucket by bucket, with infinity as the boundary of the last. */
    method Collect(ghost s: State) returns (data: T.HistogramData)
      requires Valid() && Shows(s) && Nonnegative(s)
      ensures data == Collected(boundaries, s)
    {
      hide Collected, Nonnegative, StrictlySorted;
      ghost var all := Collected(boundaries, s);
      CollectedTotals(boundaries, s);
      var cumulativeCount: nat := 0;
      var buckets: seq<T.Bucket> := [];
      for i := 0 to |bucketCounts|
        invariant buckets == all.bucket[..i]
        invariant cumulativeCount == if i == 0 then 0 else all.bucket[i - 1].cumulativeCount
      {
        CollectedNext(boundaries, s, i);
        cumulativeCount := (cumulativeCount as real + bucketCounts[i].value).Floor;
        var upperBound := if i == |boundaries| then T.PosInf else T.Finite(boundaries[i]);
        buckets := buckets + [T.Bucket(cumulativeCount, upperBound)];
        assert all.bucket[..i + 1] == all.bucket[..i] + [all.bucket[i]];
      }
      assert all.bucket[..|all.bucket|] == all.bucket;
      data := T.HistogramData(cumulativeCount, T.Finite(sum.value), buckets);
    }
  }

  ghost predicate Nonnegative(s: State) {
    forall i :: 0 <= i < |s.counts| ==> 0.0 <= s.counts[i]
  }

  function CollectedBucket(boundaries: seq<real>, s: State, i: nat): T.Bucket
    requires i < |s.counts| && |s.counts| == |boundaries| + 1 && 0 <= Cumulative(s.counts, i)
  {
    T.Bucket(Cumulative(s.counts, i), if i == |boundaries| then T.PosInf else T.Finite(boundaries[i]))
  }

  lemma {:induction false} CumulativeGrows(counts: seq<real>, i: nat)
    requires i < |counts| && forall k :: 0 <= k < |counts| ==> 0.0 <= counts[k]
    ensures 0 <= Cumulative(counts, i)
    ensures 0 < i ==> Cumulative(counts, i - 1) <= Cumulative(counts, i)
    decreases i
  {
    if 0 < i { CumulativeGrows(counts, i - 1); }
  }

  ghost function Collected(boundaries: seq<real>, s: State): T.HistogramData
    requires |s.counts| == |boundaries| + 1 && Nonnegative(s)
  {
    assert forall i :: 0 <= i < |s.counts| ==> 0 <= Cumulative(s.counts, i) by {
      forall i | 0 <= i < |s.counts| ensures 0 <= Cumulative(s.counts, i) { CumulativeGrows(s.counts, i); }
    }
    T.HistogramData(
      Cumulative(s.counts, |boundaries|), T.Finite(s.sum),
      seq(|s.counts|, i requires 0 <= i < |s.counts| => CollectedBucket(boundaries, s, i)))
  }

  lemma {:induction false} CollectedTotals(boundaries: seq<real>, s: State)
    requires |s.counts| == |boundaries| + 1 && Nonnegative(s)
    ensures var data := Collected(boundaries, s);
            && |data.bucket| == |s.counts|
            && data.sampleCount == data.bucket[|boundaries|].cumulativeCount
            && data.sampleSum == T.Finite(s.sum)
  {
  }

  lemma {:induction false} CollectedNext(boundaries: seq<real>, s: State, i: nat)
    requires |s.counts| == |boundaries| + 1 && Nonnegative(s) && i <= |boundaries|
    ensures var buckets := Collected(boundaries, s).bucket;
            && |buckets| == |s.counts|
            && buckets[i].cumulativeCount
               == ((if i == 0 then 0 else buckets[i - 1].cumulativeCount) as real + s.counts[i]).Floor
            && buckets[i].upperBound == if i == |boundaries| then T.PosInf else T.Finite(boundaries[i])
  {
  }

  /** No counter is ever negative, whatever the increments. */
  lemma {:induction false} RunNonnegative(boundaries: seq<real>, ops: seq<Op>)
    ensures Nonnegative(Run(boundaries, ops))
    decreases |ops|
  {
    if ops != [] { RunNonnegative(boundaries, ops[..|ops| - 1]); }
  }

  // ----- what is collected

  lemma {:induction false} AdjacentIsEnough(xs: seq<real>)
    requires forall k :: 1 <= k < |xs| ==> xs[k - 1] < xs[k]
    ensures StrictlySorted(xs)
  {
    forall i, j | 0 <= i < j < |xs|
      ensures xs[i] < xs[j]
    {
      Increasing(xs, i, j);
    }
  }

  lemma {:induction false} Increasing(xs: seq<real>, i: nat, j: nat)
    requires i < j < |xs| && forall k :: 1 <= k < |xs| ==> xs[k - 1] < xs[k]
    ensures xs[i] < xs[j]
    decreases j
  {
    assert xs[j - 1] < xs[j];
    if i < j - 1 { Increasing(xs, i, j - 1); }
  }

  /** How many of the values fall into a bucket. */
  function InBucket(boundaries: seq<real>, obs: seq<real>, i: nat): nat {
    if obs == [] then 0
    else InBucket(boundaries, obs[..|obs| - 1], i) + if BucketIndex(boundaries, obs[|obs| - 1]) == i then 1 else 0
  }

  /** Each counter holds the number of observations in its bucket. */
  ghost predicate Tallies(boundaries: seq<real>, s: State, obs: seq<real>) {
    && |s.counts| == |boundaries| + 1
    && (forall i :: 0 <= i < |s.counts| ==> s.counts[i] == InBucket(boundaries, obs, i) as real)
    && s.sum == Sum(obs)
  }

  lemma {:induction false} InBucketSnoc(boundaries: seq<real>, obs: seq<real>, x: real, i: nat)
    ensures InBucket(boundaries, obs + [x], i)
            == InBucket(boundaries, obs, i) + if BucketIndex(boundaries, x) == i then 1 else 0
  {
    assert (obs + [x])[..|obs|] == obs;
  }

  lemma {:induction false} ObserveTallies(boundaries: seq<real>, s: State, obs: seq<real>, x: real)
    requires Tallies(boundaries, s, obs)
    ensures Tallies(boundaries, Step(boundaries, s, Observe(x)), obs + [x])
  {
    forall i | 0 <= i < |s.counts|
      ensures Step(boundaries, s, Observe(x)).counts[i] == InBucket(boundaries, obs + [x], i) as real
    {
      InBucketSnoc(boundaries, obs, x, i);
    }
    SumExtend(obs, x);
  }

  // ----- observing many values at once

  function Tally(boundaries: seq<real>, values: seq<real>): seq<real> {
    seq(|boundaries| + 1, i requires 0 <= i => InBucket(boundaries, values, i) as real)
  }

  function ObserveEach(boundaries: seq<real>, s: State, values: seq<real>): (s': State)
    requires |s.counts| == |boundaries| + 1
    ensures |s'.counts| == |s.counts|
  {
    if values == [] then s
    else Step(boundaries, ObserveEach(boundaries, s, values[..|values| - 1]), Observe(values[|values| - 1]))
  }

  /** Increments that count values bucket by bucket do what observing the values one by one does. */
  lemma {:induction false} MultipleIsEach(boundaries: seq<real>, s: State, values: seq<real>)
    requires |s.counts| == |boundaries| + 1
    ensures Step(boundaries, s, ObserveMultiple(Tally(boundaries, values), Sum(values)))
            == ObserveEach(boundaries, s, values)
    decreases |values|
  {
    var whole := Step(boundaries, s, ObserveMultiple(Tally(boundaries, values), Sum(values)));
    if values == [] {
      assert whole.counts == s.counts;
    } else {
      var init, x := values[..|values| - 1], values[|values| - 1];
      MultipleIsEach(boundaries, s, init);
      assert init + [x] == values;
      forall i | 0 <= i < |s.counts|
        ensures whole.counts[i] == ObserveEach(boundaries, s, values).counts[i]
      {
        InBucketSnoc(boundaries, init, x, i);
      }
      SumExtend(init, x);
      assert whole.counts == ObserveEach(boundaries, s, values).counts;
    }
  }

  lemma {:induction false} ObserveEachTallies(boundaries: seq<real>, s: State, obs: seq<real>, values: seq<real>)
    requires Tallies(boundaries, s, obs)
    ensures Tallies(boundaries, ObserveEach(boundaries, s, values), obs + values)
    decreases |values|
  {
    if values == [] {
      assert obs + values == obs;
    } else {
      var init, x := values[..|values| - 1], values[|values| - 1];
      ObserveEachTallies(boundaries, s, obs, init);
      ObserveTallies(boundaries, ObserveEach(boundaries, s, init), obs + init, x);
      assert obs + init + [x] == obs + values;
    }
  }

  // ----- runs of observations, one by one or many at once, and resets

  datatype Event = One(value: real) | Many(values: seq<real>) | Clear

  /** The call that reports an event: many values are reported by how many fall into each bucket, and their sum. */
  function Call(boundaries: seq<real>, event: Event): Op {
    match event
    case One(value) => Observe(value)
    case Many(values) => ObserveMultiple(Tally(boundaries, values), Sum(values))
    case Clear => Reset
  }

  function Calls(boundaries: seq<real>, events: seq<Event>): seq<Op> {
    seq(|events|, i requires 0 <= i < |events| => Call(boundaries, events[i]))
  }

  /** The observations since the last reset. */
  function Observed(events: seq<Event>): seq<real> {
    if events == [] then []
    else
      var before := Observed(events[..|events| - 1]);
      match events[|events| - 1]
      case One(value) => before + [value]
      case Many(values) => before + values
      case Clear => []
  }

  lemma {:induction false} EveryRunTallies(boundaries: seq<real>, events: seq<Event>)
    ensures Tallies(boundaries, Run(boundaries, Calls(boundaries, events)), Observed(events))
    decreases |events|
  {
    hide Tally;
    if events != [] {
      var init := events[..|events| - 1];
      EveryRunTallies(boundaries, init);
      var ops := Calls(boundaries, events);
      assert ops[..|ops| - 1] == Calls(boundaries, init);
      var s := Run(boundaries, Calls(boundaries, init));
      match events[|events| - 1] {
        case One(x) => ObserveTallies(boundaries, s, Observed(init), x);
        case Many(values) =>
          MultipleIsEach(boundaries, s, values);
          ObserveEachTallies(boundaries, s, Observed(init), values);
        case Clear =>
      }
    }
  }

  /** A value is at most a boundary exactly if its bucket is not behind the boundary's. */
  lemma {:induction false} BucketAtMost(boundaries: seq<real>, x: real, i: nat)
    requires StrictlySorted(boundaries) && i < |boundaries|
    ensures BucketIndex(boundaries, x) <= i <==> x <= boundaries[i]
  {
    var k := BucketIndex(boundaries, x);
    if k < i { assert x <= boundaries[k] < boundaries[i]; }
  }

  /** The number of values in the buckets up to i. */
  function UpToBucket(boundaries: seq<real>, obs: seq<real>, i: nat): nat {
    InBucket(boundaries, obs, i) + if i == 0 then 0 else UpToBucket(boundaries, obs, i - 1)
  }

  lemma {:induction false} UpToBucketSnoc(boundaries: seq<real>, obs: seq<real>, x: real, i: nat)
    ensures UpToBucket(boundaries, obs + [x], i)
            == UpToBucket(boundaries, obs, i) + if BucketIndex(boundaries, x) <= i then 1 else 0
    decreases i
  {
    InBucketSnoc(boundaries, obs, x, i);
    if 0 < i { UpToBucketSnoc(boundaries, obs, x, i - 1); }
  }

  lemma {:induction false} UpToBucketNothing(boundaries: seq<real>, i: nat)
    ensures UpToBucket(boundaries, [], i) == 0
    decreases i
  {
    if 0 < i { UpToBucketNothing(boundaries, i - 1); }
  }

  lemma {:induction false} UpToBucketCounts(boundaries: seq<real>, obs: seq<real>, i: nat)
    requires StrictlySorted(boundaries) && i <= |boundaries|
    ensures i < |boundaries| ==> UpToBucket(boundaries, obs, i) == CountAtMost(obs, boundaries[i])
    ensures i == |boundaries| ==> UpToBucket(boundaries, obs, i) == |obs|
    decreases |obs|
  {
    if obs == [] {
      UpToBucketNothing(boundaries, i);
    } else {
      var init, x := obs[..|obs| - 1], obs[|obs| - 1];
      UpToBucketCounts(boundaries, init, i);
      UpToBucketSnoc(boundaries, init, x, i);
      assert init + [x] == obs;
      if i < |boundaries| {
        BucketAtMost(boundaries, x, i);
        CountSnoc(init, x, boundaries[i], false);
      }
    }
  }

  lemma {:induction false} CumulativeTallies(boundaries: seq<real>, s: State, obs: seq<real>, i: nat)
    requires Tallies(boundaries, s, obs) && i <= |boundaries|
    ensures Cumulative(s.counts, i) == UpToBucket(boundaries, obs, i)
    decreases i
  {
    if 0 < i { CumulativeTallies(boundaries, s, obs, i - 1); }
  }

  /**
    After every run of observations, alone or many at once, and resets the collected bucket of a boundary counts the
    observations that are at most the boundary, the last one counts them all, and the totals agree.
   */
  lemma {:induction false} CollectedCounts(boundaries: seq<real>, events: seq<Event>)
    requires StrictlySorted(boundaries)
    ensures Nonnegative(Run(boundaries, Calls(boundaries, events)))
    ensures var obs, data := Observed(events), Collected(boundaries, Run(boundaries, Calls(boundaries, events)));
            && |data.bucket| == |boundaries| + 1
            && (forall i :: 0 <= i < |boundaries| ==>
                  data.bucket[i] == T.Bucket(CountAtMost(obs, boundaries[i]), T.Finite(boundaries[i])))
            && data.bucket[|boundaries|] == T.Bucket(|obs|, T.PosInf)
            && data.sampleCount == |obs|
            && data.sampleSum == T.Finite(Sum(obs))
  {
    var s, obs := Run(boundaries, Calls(boundaries, events)), Observed(events);
    EveryRunTallies(boundaries, events);
    forall i | 0 <= i <= |boundaries|
      ensures i < |boundaries| ==> Cumulative(s.counts, i) == CountAtMost(obs, boundaries[i])
      ensures i == |boundaries| ==> Cumulative(s.counts, i) == |obs|
    {
      CumulativeTallies(boundaries, s, obs, i);
      UpToBucketCounts(boundaries, obs, i);
    }
  }

  /** A collected histogram is printed as it is: its last bucket, and only that one, is the one for infinity. */
  lemma {:induction false} OneInfinityBucket(boundaries: seq<real>, s: State)
    requires |s.counts| == |boundaries| + 1 && Nonnegative(s)
    ensures var data := Collected(boundaries, s);
            var buckets := T.CompleteBuckets(data);
            && buckets == data.bucket
            && (forall i :: 0 <= i < |buckets| ==> (buckets[i].upperBound == T.PosInf <==> i == |buckets| - 1))
            && buckets[|buckets| - 1].cumulativeCount == data.sampleCount
            && (forall i :: 1 <= i < |buckets| ==> buckets[i - 1].cumulativeCount <= buckets[i].cumulativeCount)
  {
    forall i | 1 <= i < |s.counts|
      ensures Cumulative(s.counts, i - 1) <= Cumulative(s.counts, i)
    {
      CumulativeGrows(s.counts, i);
    }
  }
}
