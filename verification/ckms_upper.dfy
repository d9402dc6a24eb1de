/**
  How far the rank of an answer may lie beyond the rank asked for. The upper rank bounds of a sample
  do not survive every insertion: which ones they survive, and what follows for whole runs.
 */
module CkmsUpper {
  import opened Options
  import opened ErrorFunction
  import opened CkmsSample
  import opened CkmsRanks
  import opened CkmsAccuracy
  import opened Observations

  /** Fewer observations are smaller than the target rank plus the tolerated error allows. */
  ghost predicate NotBeyond(q: Quantile, n: real, below: real)
    requires Inner(q)
  {
    below < (q.quantile + q.error) * n + q.u.value / 2.0
  }

  /**
    The falling slope, u, which bounds the share of the first item, is within the target rank and
    the tolerated error.
   */
  ghost predicate FirstInReach(q: Quantile) {
    Inner(q) && 2.0 * q.error <= (q.quantile + q.error) * (1.0 - q.quantile)
  }

  lemma {:induction false} AttainableIsInReach(q: Quantile)
    requires Attainable(q)
    ensures FirstInReach(q)
  {
    ProductNonNegative(q.error, 1.0 - q.quantile);
    assert (q.quantile + q.error) * (1.0 - q.quantile)
        == q.quantile * (1.0 - q.quantile) + q.error * (1.0 - q.quantile);
  }

  // ----- upper rank bounds

  /** Cumulative weight and uncertainty of an item together exceed the number of smaller observations. */
  ghost predicate UpperSound(s: seq<Item>, obs: seq<real>) {
    forall i :: 0 <= i < |s| ==> UpperSoundAt(s, i, obs)
  }

  ghost predicate UpperSoundAt(s: seq<Item>, i: nat, obs: seq<real>)
    requires i < |s|
  {
    CountBelow(obs, s[i].value) < Weight(s[..i + 1]) + s[i].delta
  }

  /** Every item but the first is within the error allowed at its index; the first stands for itself alone. */
  ghost predicate BatchBounded(qs: seq<Quantile>, s: seq<Item>) {
    && (s != [] ==> s[0].g == 1 && s[0].delta == 0)
    && forall i :: 1 <= i < |s| ==> BatchBoundedAt(qs, s, i)
  }

  ghost predicate BatchBoundedAt(qs: seq<Quantile>, s: seq<Item>, i: nat)
    requires i < |s|
  {
    s[i].g + s[i].delta <= AllowableError(qs, i + 1, |s|).Floor + 2
  }

  lemma {:induction false} InsertKeepsBatchBounded(qs: seq<Quantile>, s: seq<Item>, idx: nat, item: Item)
    requires ValidQuantiles(qs) && idx <= |s| && BatchBounded(qs, s)
    requires item.g == 1 && item.delta == InsertDelta(qs, idx, |s|)
    ensures BatchBounded(qs, Splice(s, idx, item))
  {
    var t := Splice(s, idx, item);
    SpliceAt(s, idx, item, 0);
    forall i | 1 <= i < |t|
      ensures BatchBoundedAt(qs, t, i)
    {
      SpliceAt(s, idx, item, i);
      AllowableErrorNonNegative(qs, i + 1, |t|);
      if i < idx {
        assert BatchBoundedAt(qs, s, i);
        AllowableErrorMonotone(qs, i + 1, |s|, i + 1, |t|);
      } else if i == idx {
        if idx < |s| { AllowableErrorMonotone(qs, i + 1, |s|, i + 1, |t|); }
      } else if 1 < i {
        assert BatchBoundedAt(qs, s, i - 1);
        AllowableErrorMonotone(qs, i, |s|, i + 1, |t|);
      }
    }
  }

  /** Insertion cannot spoil the bounds of the items that were there before. */
  lemma {:induction false} OnlyInsertedMatters(s: seq<Item>, idx: nat, item: Item, obs: seq<real>)
    requires idx <= |s| && UpperSound(s, obs) && item.g == 1
    requires forall i :: 0 <= i < idx ==> s[i].value < item.value
    ensures UpperSound(Splice(s, idx, item), obs + [item.value])
            <==> UpperSoundAt(Splice(s, idx, item), idx, obs + [item.value])
  {
    var t, obs' := Splice(s, idx, item), obs + [item.value];
    forall i | 0 <= i < |t| && i != idx
      ensures UpperSoundAt(t, i, obs')
    {
      SpliceAt(s, idx, item, i);
      var j := if i < idx then i else i - 1;
      assert UpperSoundAt(s, j, obs);
      SpliceWeights(s, idx, item, j + 1);
      CountSnoc(obs, item.value, s[j].value, true);
    }
  }

  /**
    When the upper bounds survive an insertion: exactly if the observations smaller than the new one
    are no more than the weight in front of it and its uncertainty.
   */
  lemma {:induction false} InsertExactly(qs: seq<Quantile>, s: seq<Item>, x: real, obs: seq<real>)
    requires ValidQuantiles(qs) && Sound(qs, s, obs) && UpperSound(s, obs)
    ensures UpperSound(InsertItem(qs, s, x), obs + [x])
            <==> var idx := LowerBound(s, x); CountBelow(obs, x) <= Weight(s[..idx]) + InsertDelta(qs, idx, |s|)
  {
    hide AllowableError, InsertDelta, RanksSound, ErrorBounded, UpperSound, Count;
    var idx, item := InsertShape(qs, s, x);
    SpliceAt(s, idx, item, idx);
    SpliceWeights(s, idx, item, idx);
    CountSnoc(obs, x, x, true);
    OnlyInsertedMatters(s, idx, item, obs);
  }

  /**
    In front of the whole sample: exactly if nothing smaller was ever observed. A compressed sample
    no longer knows.
   */
  lemma {:induction false} FrontInsertExactly(qs: seq<Quantile>, s: seq<Item>, x: real, obs: seq<real>)
    requires ValidQuantiles(qs) && Sound(qs, s, obs) && UpperSound(s, obs)
    requires s != [] ==> x <= s[0].value
    ensures UpperSound(InsertItem(qs, s, x), obs + [x]) <==> forall o :: o in obs ==> x <= o
  {
    hide AllowableError, RanksSound, ErrorBounded, UpperSound, Count;
    InsertExactly(qs, s, x, obs);
    assert LowerBound(s, x) == 0 && s[..0] == [];
    NoneBelow(obs, x);
  }

  // ----- the guard: what the sample alone can tell before an insertion

  /** How often the value grows on the way from one item to another. */
  function Jumps(s: seq<Item>, i: nat, j: nat): nat
    requires j < |s|
  {
    if j <= i then 0 else Jumps(s, i, j - 1) + if s[j - 1].value < s[j].value then 1 else 0
  }

  /**
    The upper bound of an item behind the new one leaves no room for more observations below the new
    one than its uncertainty covers: each value in between was observed, and takes one of them.
   */
  ghost predicate CoveredBy(qs: seq<Quantile>, s: seq<Item>, idx: nat, j: nat)
    requires idx <= j < |s|
  {
    Weight(s[..j + 1]) + s[j].delta <= Weight(s[..idx]) + InsertDelta(qs, idx, |s|) + 1 + Jumps(s, idx, j)
  }

  /** Some item behind the new one does so, if there is any. */
  ghost predicate Covered(qs: seq<Quantile>, s: seq<Item>, x: real) {
    var idx := LowerBound(s, x);
    idx < |s| ==> exists j :: idx <= j < |s| && CoveredBy(qs, s, idx, j)
  }

  lemma {:induction false} JumpsAreObserved(s: seq<Item>, obs: seq<real>, x: real, i: nat, j: nat)
    requires i <= j < |s| && Ordered(s) && ValuesObserved(s, obs) && x <= s[i].value
    ensures CountBelow(obs, x) + Jumps(s, i, j) <= CountBelow(obs, s[j].value)
    decreases j
  {
    if i == j {
      CountMonotone(obs, x, s[j].value, true);
    } else {
      JumpsAreObserved(s, obs, x, i, j - 1);
      if s[j - 1].value < s[j].value { OneMoreBelow(obs, s[j - 1].value, s[j].value); }
    }
  }

  lemma {:induction false} OneMoreBelow(obs: seq<real>, v: real, w: real)
    requires v in obs && v < w
    ensures CountBelow(obs, v) + 1 <= CountBelow(obs, w)
    decreases |obs|
  {
    var init, last := obs[..|obs| - 1], obs[|obs| - 1];
    if v in init {
      OneMoreBelow(init, v, w);
    } else {
      assert last == v;
      CountMonotone(init, v, w, true);
    }
  }

  lemma {:induction false} CoveredKeepsUpperSound(qs: seq<Quantile>, s: seq<Item>, x: real, obs: seq<real>)
    requires ValidQuantiles(qs) && Sound(qs, s, obs) && UpperSound(s, obs) && Covered(qs, s, x)
    ensures UpperSound(InsertItem(qs, s, x), obs + [x])
  {
    hide AllowableError, InsertDelta, RanksSound, ErrorBounded, Count, Jumps;
    var idx := LowerBound(s, x);
    InsertExactly(qs, s, x, obs);
    if idx == |s| {
      assert s[..idx] == s;
      InsertDeltaNonNegative(qs, idx, |s|);
      CountMonotone(obs, x, x, true);
    } else {
      var j :| idx <= j < |s| && CoveredBy(qs, s, idx, j);
      assert UpperSoundAt(s, j, obs);
      JumpsAreObserved(s, obs, x, idx, j);
    }
  }

  /** For instance the item right behind the new one, if its weight and uncertainty are small enough. */
  lemma {:induction false} NextCovers(qs: seq<Quantile>, s: seq<Item>, x: real)
    requires var idx := LowerBound(s, x); idx < |s| ==> s[idx].g + s[idx].delta <= InsertDelta(qs, idx, |s|) + 1
    ensures Covered(qs, s, x)
  {
    hide InsertDelta;
    var idx := LowerBound(s, x);
    if idx < |s| {
      WeightOfPrefix(s, idx);
      assert CoveredBy(qs, s, idx, idx);
    }
  }

  lemma {:induction false} BatchIsCovered(qs: seq<Quantile>, s: seq<Item>, x: real)
    requires ValidQuantiles(qs) && BatchBounded(qs, s)
    ensures Covered(qs, s, x)
  {
    var idx := LowerBound(s, x);
    if 0 < idx < |s| { assert BatchBoundedAt(qs, s, idx); }
    NextCovers(qs, s, x);
  }

  lemma {:induction false} InsertKeepsBatch(qs: seq<Quantile>, s: seq<Item>, x: real, obs: seq<real>)
    requires ValidQuantiles(qs) && Sound(qs, s, obs) && BatchBounded(qs, s) && UpperSound(s, obs)
    ensures BatchBounded(qs, InsertItem(qs, s, x))
    ensures UpperSound(InsertItem(qs, s, x), obs + [x])
  {
    hide AllowableError, InsertDelta, RanksSound, ErrorBounded, BatchBounded;
    var idx, item := InsertShape(qs, s, x);
    InsertKeepsBatchBounded(qs, s, idx, item);
    BatchIsCovered(qs, s, x);
    CoveredKeepsUpperSound(qs, s, x, obs);
  }

  lemma {:induction false} EmptyBatch(qs: seq<Quantile>)
    ensures Sound(qs, [], []) && BatchBounded(qs, []) && UpperSound([], [])
  {
  }

  lemma {:induction false} BatchUpperSound(qs: seq<Quantile>, values: seq<real>)
    requires ValidQuantiles(qs)
    ensures Sound(qs, InsertItems(qs, [], values), values)
    ensures BatchBounded(qs, InsertItems(qs, [], values))
    ensures UpperSound(InsertItems(qs, [], values), values)
    decreases |values|
  {
    hide InsertItem, AllowableError, Sound, BatchBounded, UpperSound, ValidQuantiles;
    EmptyBatch(qs);
    InsertItemsKeepsSound(qs, [], values, []);
    assert [] + values == values;
    if values != [] {
      var init, x := values[..|values| - 1], values[|values| - 1];
      BatchUpperSound(qs, init);
      InsertKeepsBatch(qs, InsertItems(qs, [], init), x, init);
      assert init + [x] == values;
    }
  }

  lemma {:induction false} UpperSoundPermutation(s: seq<Item>, a: seq<real>, b: seq<real>)
    requires UpperSound(s, a) && multiset(a) == multiset(b)
    ensures UpperSound(s, b)
  {
    forall i | 0 <= i < |s|
      ensures UpperSoundAt(s, i, b)
    {
      assert UpperSoundAt(s, i, a);
      CountPermutation(a, b, s[i].value, true);
    }
  }

  lemma {:induction false} CompressKeepsUpperSound(qs: seq<Quantile>, s: seq<Item>, obs: seq<real>)
    requires UpperSound(s, obs)
    ensures UpperSound(Compress(qs, s), obs)
  {
    var t := Compress(qs, s);
    var at := CompressSurvivors(qs, s);
    forall k | 0 <= k < |t|
      ensures UpperSoundAt(t, k, obs)
    {
      assert SameRank(t, k, s, at[k]);
      assert UpperSoundAt(s, at[k], obs);
    }
  }

  /** The first item stands for itself alone, or was merged within the error allowed at index 1. */
  ghost predicate FirstBounded(qs: seq<Quantile>, s: seq<Item>, n: nat) {
    s != [] ==> (s[0].g == 1 && s[0].delta == 0) || (s[0].g + s[0].delta) as real <= AllowableError(qs, 1, n)
  }

  lemma {:induction false} CompressFromFirstBounded(qs: seq<Quantile>, kept: seq<Item>, rest: seq<Item>, n: nat)
    requires ValidQuantiles(qs) && kept != [] && FirstBounded(qs, kept, n) && |kept| + |rest| <= n
    ensures FirstBounded(qs, CompressFrom(qs, kept, rest), n)
    decreases |rest|
  {
    if rest != [] {
      var kept' := Keep(qs, kept, rest[0], |rest| - 1);
      if |kept| == 1 {
        AllowableErrorMonotone(qs, 1, |kept| + |rest|, 1, n);
      }
      CompressFromFirstBounded(qs, kept', rest[1..], n);
    }
  }

  lemma {:induction false} CompressFirstBounded(qs: seq<Quantile>, s: seq<Item>, n: nat)
    requires ValidQuantiles(qs) && FirstBounded(qs, s, n) && |s| <= n
    ensures FirstBounded(qs, Compress(qs, s), n)
  {
    if 2 <= |s| {
      CompressFromFirstBounded(qs, s[..1], s[1..], n);
    }
  }

  // ----- whole runs under the guard

  /** Every value of a batch is covered when it is inserted. */
  ghost predicate AllCovered(qs: seq<Quantile>, s: seq<Item>, values: seq<real>) {
    values == []
    || (AllCovered(qs, s, values[..|values| - 1])
        && Covered(qs, InsertItems(qs, s, values[..|values| - 1]), values[|values| - 1]))
  }

  ghost predicate CoveredFlush(qs: seq<Quantile>, st: State) {
    AllCovered(qs, st.sample, Sorted(st.buffer))
  }

  /** Every flush of the run is covered: those of full buffers and those of queries. */
  ghost predicate CoveredRun(qs: seq<Quantile>, ops: seq<Op>) {
    EveryFlush(qs, ops, st => CoveredFlush(qs, st))
  }

  /** Both rank bounds of every item are sound, and the first item is no heavier than the first index allows. */
  ghost predicate TwoSided(qs: seq<Quantile>, s: seq<Item>, obs: seq<real>) {
    Sound(qs, s, obs) && UpperSound(s, obs) && FirstBounded(qs, s, |obs|)
  }

  lemma {:induction false} NothingIsTwoSided(qs: seq<Quantile>)
    ensures TwoSided(qs, [], [])
  {
  }

  lemma {:induction false} InsertFirstBounded(qs: seq<Quantile>, s: seq<Item>, x: real, n: nat)
    requires ValidQuantiles(qs) && FirstBounded(qs, s, n) && 1 <= n
    ensures FirstBounded(qs, InsertItem(qs, s, x), n + 1)
  {
    AllowableErrorMonotone(qs, 1, n, 1, n + 1);
  }

  lemma {:induction false} CoveredKeepsTwoSided(qs: seq<Quantile>, s: seq<Item>, x: real, obs: seq<real>)
    requires ValidQuantiles(qs) && TwoSided(qs, s, obs) && Covered(qs, s, x)
    ensures TwoSided(qs, InsertItem(qs, s, x), obs + [x])
  {
    hide AllowableError, InsertDelta, RanksSound, ErrorBounded, UpperSound, Covered;
    InsertKeepsSound(qs, s, x, obs);
    CoveredKeepsUpperSound(qs, s, x, obs);
    if obs != [] { InsertFirstBounded(qs, s, x, |obs|); }
  }

  lemma {:induction false} BatchKeepsTwoSided(qs: seq<Quantile>, s: seq<Item>, values: seq<real>, obs: seq<real>)
    requires ValidQuantiles(qs) && TwoSided(qs, s, obs) && AllCovered(qs, s, values)
    ensures TwoSided(qs, InsertItems(qs, s, values), obs + values)
    decreases |values|
  {
    hide TwoSided, Covered, InsertItem, ValidQuantiles;
    if values == [] {
      assert obs + values == obs;
    } else {
      var init, x := values[..|values| - 1], values[|values| - 1];
      BatchKeepsTwoSided(qs, s, init, obs);
      CoveredKeepsTwoSided(qs, InsertItems(qs, s, init), x, obs + init);
      assert obs + init + [x] == obs + values;
    }
  }

  lemma {:induction false} TwoSidedPermutation(qs: seq<Quantile>, s: seq<Item>, a: seq<real>, b: seq<real>)
    requires TwoSided(qs, s, a) && multiset(a) == multiset(b)
    ensures TwoSided(qs, s, b)
  {
    hide Sound, UpperSound, AllowableError;
    SoundPermutation(qs, s, a, b);
    UpperSoundPermutation(s, a, b);
    assert |a| == |multiset(a)| == |multiset(b)| == |b|;
  }

  lemma {:induction false} CompressKeepsTwoSided(qs: seq<Quantile>, s: seq<Item>, obs: seq<real>)
    requires ValidQuantiles(qs) && TwoSided(qs, s, obs)
    ensures TwoSided(qs, Compress(qs, s), obs)
  {
    hide AllowableError, RanksSound, ErrorBounded, UpperSound, Compress;
    WeightAtLeastLength(s);
    CompressKeepsSound(qs, s, obs);
    CompressKeepsUpperSound(qs, s, obs);
    CompressFirstBounded(qs, s, |obs|);
  }

  /** The state describes the observations, and its sample is sound on both sides for those merged into it. */
  ghost predicate TwoSidedState(qs: seq<Quantile>, st: State, obs: seq<real>) {
    st.count <= |obs| && st.buffer == obs[st.count..] && TwoSided(qs, st.sample, obs[..st.count])
  }

  lemma {:induction false} SettleTwoSided(qs: seq<Quantile>, st: State, obs: seq<real>)
    requires ValidQuantiles(qs) && TwoSidedState(qs, st, obs) && CoveredFlush(qs, st)
    ensures TwoSidedState(qs, Settle(qs, st), obs)
    ensures Settle(qs, st).count == |obs| && TwoSided(qs, Settle(qs, st).sample, obs)
  {
    hide ValidQuantiles, TwoSided, AllCovered, InsertItems, Compress, Sorted;
    var merged, sorted := obs[..st.count], Sorted(st.buffer);
    BatchKeepsTwoSided(qs, st.sample, sorted, merged);
    SortedKeeps(st.buffer);
    assert merged + st.buffer == obs;
    assert multiset(merged + sorted) == multiset(merged) + multiset(sorted)
        == multiset(merged) + multiset(st.buffer) == multiset(merged + st.buffer);
    TwoSidedPermutation(qs, InsertItems(qs, st.sample, sorted), merged + sorted, obs);
    CompressKeepsTwoSided(qs, InsertItems(qs, st.sample, sorted), obs);
    assert obs[..|obs|] == obs;
  }

  lemma {:induction false} CoveredRunIsTwoSided(qs: seq<Quantile>, ops: seq<Op>)
    requires ValidQuantiles(qs) && CoveredRun(qs, ops)
    ensures TwoSidedState(qs, Run(qs, ops), Observed(ops))
    decreases |ops|
  {
    hide ValidQuantiles, CoveredFlush, TwoSided, Settle;
    NothingIsTwoSided(qs);
    if ops != [] {
      var init, op := ops[..|ops| - 1], ops[|ops| - 1];
      if !op.Reset? { CoveredRunIsTwoSided(qs, init); }
      var st, obs := Run(qs, init), Observed(init);
      match op {
        case Observe(x) =>
          var st' := st.(buffer := st.buffer + [x]);
          assert (obs + [x])[..st.count] == obs[..st.count] && (obs + [x])[st.count..] == obs[st.count..] + [x];
          assert TwoSidedState(qs, st', obs + [x]);
          if |st'.buffer| == BUFFER_SIZE { SettleTwoSided(qs, st', obs + [x]); }
        case Query(_) => SettleTwoSided(qs, st, obs);
        case Reset =>
      }
    }
  }

  // ----- answers and their bounds

  lemma {:induction false} TwiceTolerance(phi: real, e: real, u: real, v: real, n: real, d: real, size: real, f: real)
    requires 0.0 <= u && 0.0 <= v && u * (1.0 - phi) == 2.0 * e && v * phi == 2.0 * e
    requires phi * n - 1.0 < d <= phi * n && size <= n
    requires f <= u * (size - d) || f <= v * d
    ensures f <= 2.0 * e * n + u
  {
    if f <= u * (size - d) {
      ScaleMonotone(u, size - d, (1.0 - phi) * n + 1.0);
      assert u * ((1.0 - phi) * n + 1.0) == u * ((1.0 - phi) * n) + u;
      Associate(u, 1.0 - phi, n);
    } else {
      ScaleMonotone(v, d, phi * n);
      Associate(v, phi, n);
    }
  }

  lemma {:induction false} BelowBoundNotBeyond(qs: seq<Quantile>, q: Quantile, n: nat, size: nat, below: real)
    requires q in qs && Inner(q) && size <= n && below < QueryBound(qs, Desired(q.quantile, n), size)
    ensures NotBeyond(q, n as real, below)
  {
    hide AllowableError;
    var phi, N, D := q.quantile, n as real, Desired(q.quantile, n);
    DesiredRange(phi, n);
    AllowableErrorOnLines(qs, q, D, size);
    TwiceTolerance(
      phi, q.error, q.u.value, q.v.value, N, D as real, size as real, AllowableError(qs, D, size));
    WithinReach(phi, q.error, q.u.value, N, D as real, AllowableError(qs, D, size), below);
  }

  lemma {:induction false} WithinReach(phi: real, e: real, u: real, n: real, d: real, f: real, below: real)
    requires below < d + f / 2.0 && d <= phi * n && f <= 2.0 * e * n + u
    ensures below < (phi + e) * n + u / 2.0
  {
    assert 2.0 * e * n == 2.0 * (e * n);
    assert (phi + e) * n == phi * n + e * n;
  }

  lemma {:induction false} SingleNotBeyond(q: Quantile, n: real)
    requires Inner(q) && 1.0 <= n
    ensures NotBeyond(q, n, 0.0)
  {
    ScaleStrictly(0.0, q.quantile + q.error, n);
  }

  lemma {:induction false} SlopesInReach(p: real, e: real, u: real, v: real)
    requires 0.0 < p < 1.0 && 2.0 * e <= (p + e) * (1.0 - p)
    requires 0.0 <= e && u * (1.0 - p) == 2.0 * e && v * p == 2.0 * e
    ensures u <= p + e && v < 2.0
  {
    DivideOut(u, p + e, 1.0 - p);
    ProductNonNegative(e, p);
    ScaleStrictly(0.0, p, p);
    assert (p + e) * (1.0 - p) == p + e - p * p - e * p;
    DivideStrictly(v, 2.0, p);
  }

  lemma {:induction false} MergedFirstBelowTarget(reach: real, u: real, n: real, weight: real)
    requires 0.0 <= u <= reach && 1.0 <= n && weight <= u * (n - 1.0)
    ensures weight <= reach * n + u / 2.0
  {
    ScaleDown(u, reach, n - 1.0);
    ScaleMonotone(reach, n - 1.0, n);
  }

  lemma {:induction false} FirstNotBeyond(qs: seq<Quantile>, q: Quantile, n: nat, below: nat)
    requires q in qs && FirstInReach(q) && 1 <= n
    requires below == 0 || (below + 1) as real <= AllowableError(qs, 1, n)
    ensures NotBeyond(q, n as real, below as real)
  {
    hide AllowableError;
    SlopesInReach(q.quantile, q.error, q.u.value, q.v.value);
    SingleNotBeyond(q, n as real);
    AllowableErrorOnLines(qs, q, 1, n);
    if 0 < below {
      MergedFirstBelowTarget(q.quantile + q.error, q.u.value, n as real, AllowableError(qs, 1, n));
    }
  }

  /**
    What a query for any quantile promises from above: fewer of the n observations are smaller than its
    answer than its bound says; if the answer is the first item, none or fewer than are allowed there.
   */
  ghost predicate NotBeyondBound(qs: seq<Quantile>, s: seq<Item>, q: real, n: nat, below: nat)
    requires s != []
  {
    var bound := QueryBound(qs, Desired(q, n), |s|);
    if Scan(s, 0, bound) == 0 then below == 0 || (below + 1) as real <= AllowableError(qs, 1, n)
    else below as real < bound
  }

  lemma {:induction false} QueryNotBeyondBound(qs: seq<Quantile>, s: seq<Item>, q: real, obs: seq<real>)
    requires TwoSided(qs, s, obs) && s != []
    ensures var answer := s[Scan(s, 0, QueryBound(qs, Desired(q, |obs|), |s|))].value;
            NotBeyondBound(qs, s, q, |obs|, CountBelow(obs, answer))
  {
    hide AllowableError, QueryBound, Desired, RanksSound, ErrorBounded;
    var bound := QueryBound(qs, Desired(q, |obs|), |s|);
    var r := Scan(s, 0, bound);
    ScanStops(s, 0, bound);
    assert UpperSoundAt(s, r, obs);
    if r == 0 {
      assert s[..1] == [s[0]];
      WeightOne(s[0]);
    } else {
      WeightOfPrefix(s, r);
    }
  }

  /** For a configured target the bound of the query is a share of n. */
  lemma {:induction false} BoundNotBeyond(qs: seq<Quantile>, target: Quantile, s: seq<Item>, n: nat, below: nat)
    requires target in qs && FirstInReach(target) && s != [] && |s| <= n
    requires NotBeyondBound(qs, s, target.quantile, n, below)
    ensures NotBeyond(target, n as real, below as real)
  {
    hide AllowableError, NotBeyond, FirstInReach, QueryBound, Desired;
    if Scan(s, 0, QueryBound(qs, Desired(target.quantile, n), |s|)) == 0 {
      FirstNotBeyond(qs, target, n, below);
    } else {
      ReachIsInner(target);
      BelowBoundNotBeyond(qs, target, n, |s|, below as real);
    }
  }

  lemma {:induction false} ReachIsInner(q: Quantile)
    requires FirstInReach(q)
    ensures Inner(q)
  {
  }

  // ----- states whose next flush is covered

  /** Nothing was merged yet, or the sample is sound on both sides and what is buffered will keep it so. */
  ghost predicate Guarded(qs: seq<Quantile>, st: State, obs: seq<real>) {
    st.sample == [] || (TwoSidedState(qs, st, obs) && CoveredFlush(qs, st))
  }

  lemma {:induction false} NothingToCover(qs: seq<Quantile>, s: seq<Item>)
    ensures AllCovered(qs, s, Sorted([]))
  {
  }

  lemma {:induction false} FirstBatchCovered(qs: seq<Quantile>, values: seq<real>)
    requires ValidQuantiles(qs)
    ensures AllCovered(qs, [], values)
    decreases |values|
  {
    hide ValidQuantiles, Covered, InsertItems, BatchBounded;
    if values != [] {
      var init := values[..|values| - 1];
      FirstBatchCovered(qs, init);
      BatchUpperSound(qs, init);
      BatchIsCovered(qs, InsertItems(qs, [], init), values[|values| - 1]);
    }
  }

  lemma {:induction false} NothingMergedIsGuarded(qs: seq<Quantile>, st: State, obs: seq<real>)
    requires ValidQuantiles(qs) && Describes(qs, st, obs) && st.sample == []
    ensures TwoSidedState(qs, st, obs) && CoveredFlush(qs, st)
  {
    hide ErrorBounded, RanksSound, AllCovered;
    assert obs[..0] == [];
    NothingIsTwoSided(qs);
    FirstBatchCovered(qs, Sorted(st.buffer));
  }

  /** A query of a guarded state leaves another one. */
  lemma {:induction false} SettleStaysGuarded(qs: seq<Quantile>, st: State, obs: seq<real>)
    requires ValidQuantiles(qs) && Describes(qs, st, obs) && Guarded(qs, st, obs)
    ensures Guarded(qs, Settle(qs, st), obs) && TwoSided(qs, Settle(qs, st).sample, obs)
    ensures Settle(qs, st).count == |obs|
  {
    hide ValidQuantiles, Describes, TwoSided, AllCovered, InsertItems, Compress, Sorted;
    if st.sample == [] { NothingMergedIsGuarded(qs, st, obs); }
    SettleTwoSided(qs, st, obs);
    NothingToCover(qs, Settle(qs, st).sample);
  }

  // ----- the upper guarantee

  /** From a guarded state every query, for whatever quantile, answers within its bound from above. */
  lemma {:induction false} GuardedQueryGuarantee(qs: seq<Quantile>, st: State, obs: seq<real>, q: real)
    requires ValidQuantiles(qs) && Describes(qs, st, obs) && Guarded(qs, st, obs) && obs != []
    ensures var t := Settle(qs, st);
            var answer := Answer(qs, t, q);
            && answer.Some? && |t.sample| <= |obs|
            && NotBeyondBound(qs, t.sample, q, |obs|, CountBelow(obs, answer.value))
  {
    hide AllowableError, Guarded, Describes, Settle, Desired, NotBeyondBound, RanksSound, ErrorBounded, UpperSound;
    SettleStaysGuarded(qs, st, obs);
    SizeAtMostCount(qs, Settle(qs, st).sample, obs);
    QueryNotBeyondBound(qs, Settle(qs, st).sample, q, obs);
  }

  /**
    What the answer to a query is known to be, on a settled sample: nothing exactly when nothing was
    observed, otherwise an observation that is not short of the bound of the query and, from a guarded
    state, not beyond it; so it is for the targets configured for its quantile.
   */
  ghost predicate Meets(
    qs: seq<Quantile>, s: seq<Item>, q: real, obs: seq<real>, answer: Option<real>, guarded: bool)
  {
    && (answer.None? <==> obs == []) && (s == [] <==> obs == [])
    && (answer.Some? ==>
          var atMost, below := CountAtMost(obs, answer.value), CountBelow(obs, answer.value);
          && answer.value in obs
          && NotShortOfBound(qs, s, q, |obs|, atMost)
          && (guarded ==> NotBeyondBound(qs, s, q, |obs|, below))
          && MeetsTargets(qs, q, |obs|, atMost, below, guarded))
  }

  ghost predicate MeetsTargets(qs: seq<Quantile>, q: real, n: nat, atMost: nat, below: nat, guarded: bool) {
    forall target :: target in qs && target.quantile == q && Inner(target) ==>
      && (Gradual(target) ==> NotShort(target, n as real, atMost as real))
      && (guarded && FirstInReach(target) ==> NotBeyond(target, n as real, below as real))
  }

  lemma {:induction false} SettledMeetsTargets(qs: seq<Quantile>, s: seq<Item>, q: real, obs: seq<real>, guarded: bool)
    requires ValidQuantiles(qs) && Sound(qs, s, obs) && s != []
    requires var answer := s[Scan(s, 0, QueryBound(qs, Desired(q, |obs|), |s|))].value;
             guarded ==> NotBeyondBound(qs, s, q, |obs|, CountBelow(obs, answer))
    ensures var answer := s[Scan(s, 0, QueryBound(qs, Desired(q, |obs|), |s|))].value;
            MeetsTargets(qs, q, |obs|, CountAtMost(obs, answer), CountBelow(obs, answer), guarded)
  {
    hide NotShort, NotShortBy, NotBeyond, NotBeyondBound, Gradual, FirstInReach, HalfAllowance, QueryBound, Desired;
    hide Sound;
    var answer := s[Scan(s, 0, QueryBound(qs, Desired(q, |obs|), |s|))].value;
    SizeAtMostCount(qs, s, obs);
    forall target | target in qs && target.quantile == q && Inner(target)
      ensures Gradual(target) ==> NotShort(target, |obs| as real, CountAtMost(obs, answer) as real)
      ensures guarded && FirstInReach(target) ==> NotBeyond(target, |obs| as real, CountBelow(obs, answer) as real)
    {
      if Gradual(target) {
        QueryBoundReaches(qs, target, |obs|, |s|);
        QueryNotShort(qs, target, s, obs);
        SharperIsNotShort(
          target, |obs| as real, CountAtMost(obs, answer) as real, HalfAllowance(qs, target, |obs|, |s|));
      }
      if guarded && FirstInReach(target) {
        BoundNotBeyond(qs, target, s, |obs|, CountBelow(obs, answer));
      }
    }
  }

  lemma {:induction false} SettledMeets(qs: seq<Quantile>, st: State, obs: seq<real>, q: real)
    requires ValidQuantiles(qs) && Describes(qs, st, obs) && 0.0 <= q <= 1.0
    ensures Meets(qs, Settle(qs, st).sample, q, obs, Answer(qs, Settle(qs, st), q), Guarded(qs, st, obs))
  {
    hide AllowableError, Guarded, Settle, NotShortOfBound, NotBeyondBound, MeetsTargets, RanksSound, ErrorBounded;
    SettleKeepsDescribes(qs, st, obs);
    var t := Settle(qs, st);
    assert obs[..|obs|] == obs;
    if obs != [] {
      if Guarded(qs, st, obs) { GuardedQueryGuarantee(qs, st, obs, q); }
      QueryNotShortOfBound(qs, t.sample, q, obs);
      SettledMeetsTargets(qs, t.sample, q, obs, Guarded(qs, st, obs));
    }
  }

  /**
    On every run whose flushes are covered, and for every quantile: an observation that is not beyond
    the bound of the query, nor short of it.
   */
  lemma {:induction false} EveryCoveredQueryGuarantee(qs: seq<Quantile>, ops: seq<Op>, q: real)
    requires ValidQuantiles(qs) && 0.0 <= q <= 1.0 && CoveredRun(qs, ops + [Query(q)])
    ensures var st, obs := Settle(qs, Run(qs, ops)), Observed(ops);
            var answer := Answer(qs, st, q);
            && (answer.None? <==> obs == []) && (st.sample == [] <==> obs == []) && |st.sample| <= |obs|
            && (answer.Some? ==>
                  && answer.value in obs
                  && NotBeyondBound(qs, st.sample, q, |obs|, CountBelow(obs, answer.value))
                  && NotShortOfBound(qs, st.sample, q, |obs|, CountAtMost(obs, answer.value)))
  {
    hide AllowableError, CoveredFlush, TwoSidedState, Describes, NotBeyondBound, NotShortOfBound;
    assert (ops + [Query(q)])[..|ops|] == ops;
    EveryQueryGuarantee(qs, ops, q);
    if Observed(ops) != [] {
      EveryRunDescribes(qs, ops);
      CoveredRunIsTwoSided(qs, ops);
      GuardedQueryGuarantee(qs, Run(qs, ops), Observed(ops), q);
    }
  }

  /**
    On every run whose flushes are covered, the answer for a configured target has fewer smaller
    observations than the target rank plus the tolerated error, and its rank is not short of the
    target either.
   */
  lemma {:induction false} GuardedGuarantee(qs: seq<Quantile>, ops: seq<Op>, q: Quantile)
    requires ValidQuantiles(qs) && q in qs && Inner(q) && CoveredRun(qs, ops + [Query(q.quantile)])
    ensures var obs, answer := Observed(ops), Answer(qs, Settle(qs, Run(qs, ops)), q.quantile);
            && (answer.None? <==> obs == [])
            && (answer.Some? ==>
                  && answer.value in obs
                  && (FirstInReach(q) ==> NotBeyond(q, |obs| as real, CountBelow(obs, answer.value) as real))
                  && (Gradual(q) ==> NotShort(q, |obs| as real, CountAtMost(obs, answer.value) as real)))
  {
    hide AllowableError, CoveredRun, NotBeyond, NotShort, Gradual, FirstInReach, NotBeyondBound, NotShortOfBound;
    var st, obs := Settle(qs, Run(qs, ops)), Observed(ops);
    EveryCoveredQueryGuarantee(qs, ops, q.quantile);
    if Gradual(q) { LowerRankGuarantee(qs, ops, q); }
    if st.sample != [] && FirstInReach(q) {
      BoundNotBeyond(qs, q, st.sample, |obs|, CountBelow(obs, Answer(qs, st, q.quantile).value));
    }
  }

  // ----- runs of a single batch are covered

  /** At most one buffer of observations, followed by any number of queries. */
  ghost predicate SingleBatch(ops: seq<Op>, n: nat) {
    && n <= |ops| && n <= 500
    && (forall i :: 0 <= i < n ==> ops[i].Observe?)
    && (forall i :: n <= i < |ops| ==> ops[i].Query?)
  }

  /**
    What a query for a target that is in reach answers before anything was merged: an observation not
    beyond its rank.
   */
  lemma {:induction false} FirstAnswerNotBeyond(qs: seq<Quantile>, st: State, obs: seq<real>, q: Quantile)
    requires ValidQuantiles(qs) && q in qs && FirstInReach(q) && Describes(qs, st, obs)
    requires st.sample == [] && obs != []
    ensures var answer := Answer(qs, Settle(qs, st), q.quantile);
            answer.Some? && NotBeyond(q, |obs| as real, CountBelow(obs, answer.value) as real)
  {
    hide AllowableError, NotBeyond, NotBeyondBound, FirstInReach, Settle, Describes, TwoSidedState;
    GuardedQueryGuarantee(qs, st, obs, q.quantile);
    var t := Settle(qs, st);
    BoundNotBeyond(qs, q, t.sample, |obs|, CountBelow(obs, Answer(qs, t, q.quantile).value));
  }

  lemma {:induction false} SingleBatchCovered(qs: seq<Quantile>, ops: seq<Op>, n: nat)
    requires ValidQuantiles(qs) && SingleBatch(ops, n)
    ensures CoveredRun(qs, ops) && |Observed(ops)| == n
    ensures var st := Run(qs, ops); st.buffer == [] || (st.sample == [] && |st.buffer| == n)
    ensures |ops| == n < BUFFER_SIZE ==> Run(qs, ops) == State([], 0, Observed(ops))
    decreases |ops|
  {
    hide ValidQuantiles, AllCovered, InsertItems, Compress, Sorted;
    if ops != [] {
      var init := ops[..|ops| - 1];
      SingleBatchCovered(qs, init, if |ops| == n then n - 1 else n);
      var st := Run(qs, init);
      if |ops| == n {
        FirstBatchCovered(qs, Sorted(st.buffer + [ops[|ops| - 1].value]));
      } else if st.buffer == [] {
        NothingToCover(qs, st.sample);
      } else {
        FirstBatchCovered(qs, Sorted(st.buffer));
      }
    }
  }

  /** So every query of them is within its bound on both sides: up to 500 observations, followed by queries. */
  lemma {:induction false} SingleBatchGuarantee(qs: seq<Quantile>, ops: seq<Op>, n: nat, q: real)
    requires ValidQuantiles(qs) && 0.0 <= q <= 1.0 && SingleBatch(ops, n) && 0 < n
    ensures var st, obs := Settle(qs, Run(qs, ops)), Observed(ops);
            var answer := Answer(qs, st, q);
            && |obs| == n && st.sample != [] && answer.Some? && answer.value in obs
            && NotBeyondBound(qs, st.sample, q, n, CountBelow(obs, answer.value))
            && NotShortOfBound(qs, st.sample, q, n, CountAtMost(obs, answer.value))
  {
    hide ValidQuantiles, NotBeyondBound, NotShortOfBound, CoveredRun;
    SingleBatchCovered(qs, ops, n);
    SingleBatchCovered(qs, ops + [Query(q)], n);
    EveryCoveredQueryGuarantee(qs, ops, q);
  }

  /** And for configured targets both guarantees hold. */
  lemma {:induction false} TwoSidedGuarantee(qs: seq<Quantile>, ops: seq<Op>, n: nat, q: Quantile)
    requires ValidQuantiles(qs) && q in qs && Inner(q) && SingleBatch(ops, n) && 0 < n
    ensures var obs, answer := Observed(ops), Answer(qs, Settle(qs, Run(qs, ops)), q.quantile);
            && |obs| == n && answer.Some? && answer.value in obs
            && (FirstInReach(q) ==> NotBeyond(q, n as real, CountBelow(obs, answer.value) as real))
            && (Gradual(q) ==> NotShort(q, n as real, CountAtMost(obs, answer.value) as real))
  {
    hide ValidQuantiles, NotBeyond, NotShort, Gradual, FirstInReach, CoveredRun;
    SingleBatchCovered(qs, ops, n);
    SingleBatchCovered(qs, ops + [Query(q.quantile)], n);
    GuardedGuarantee(qs, ops, q);
  }
}
