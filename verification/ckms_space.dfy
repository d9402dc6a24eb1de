/**
  What compression achieves: how few items it leaves, and when a second one changes nothing.
 */
module CkmsSpace {
  import opened ErrorFunction
  import opened CkmsSample
  import opened CkmsRanks
  import opened Observations

  // ----- what is left cannot be merged

  ghost predicate Certain(s: seq<Item>) {
    forall i :: 0 <= i < |s| ==> s[i].delta == 0
  }

  /** Neighbours fail the merge test at the index of the first of them, in a sample of the given size. */
  ghost predicate Apart(qs: seq<Quantile>, s: seq<Item>, size: nat) {
    forall k :: 1 <= k < |s| ==> ApartAt(qs, s, k, size)
  }

  ghost predicate ApartAt(qs: seq<Quantile>, s: seq<Item>, k: nat, size: nat)
    requires 1 <= k < |s|
  {
    (s[k - 1].g + s[k].g + s[k].delta) as real > AllowableError(qs, k, size)
  }

  lemma {:induction false} KeepApart(qs: seq<Quantile>, kept: seq<Item>, item: Item, later: nat)
    requires ValidQuantiles(qs) && kept != [] && Certain(kept) && item.delta == 0 && 0 <= item.g
    requires 0 <= kept[|kept| - 1].g
    requires Apart(qs, kept, |kept| + 1 + later)
    ensures Apart(qs, Keep(qs, kept, item, later), |Keep(qs, kept, item, later)| + later)
  {
    hide AllowableError;
    var t, size := Keep(qs, kept, item, later), |kept| + 1 + later;
    var size' := |t| + later;
    forall k | 1 <= k < |t|
      ensures ApartAt(qs, t, k, size')
    {
      AllowableErrorMonotone(qs, k, size', k, size);
      if k < |kept| {
        assert ApartAt(qs, kept, k, size);
      }
    }
  }

  lemma {:induction false} CompressFromApart(qs: seq<Quantile>, kept: seq<Item>, rest: seq<Item>)
    requires ValidQuantiles(qs) && kept != [] && PositiveWeights(kept) && PositiveWeights(rest)
    requires Certain(kept) && Certain(rest)
    requires Apart(qs, kept, |kept| + |rest|)
    ensures var t := CompressFrom(qs, kept, rest); Apart(qs, t, |t|)
    decreases |rest|
  {
    if rest != [] {
      KeepApart(qs, kept, rest[0], |rest| - 1);
      CompressFromApart(qs, Keep(qs, kept, rest[0], |rest| - 1), rest[1..]);
    }
  }

  /** After compressing a sample without uncertainty no two neighbours pass the merge test any more. */
  lemma {:induction false} CompressApart(qs: seq<Quantile>, s: seq<Item>)
    requires ValidQuantiles(qs) && PositiveWeights(s) && Certain(s)
    ensures var t := Compress(qs, s); Apart(qs, t, |t|)
  {
    if 2 <= |s| {
      CompressFromApart(qs, s[..1], s[1..]);
    }
  }

  lemma {:induction false} CompressCertain(qs: seq<Quantile>, s: seq<Item>)
    requires Certain(s)
    ensures Certain(Compress(qs, s))
  {
    var t := Compress(qs, s);
    var at := CompressSurvivors(qs, s);
    forall i | 0 <= i < |t|
      ensures t[i].delta == 0
    {
      assert SameRank(t, i, s, at[i]);
    }
  }

  /** What the merge test says of an item behind the first i, in the order of compression. */
  lemma {:induction false} KeepsOrMerges(qs: seq<Quantile>, t: seq<Item>, i: nat)
    requires 1 <= i < |t|
    ensures var kept := Keep(qs, t[..i], t[i], |t| - i - 1);
            if ApartAt(qs, t, i, |t|) then kept == t[..i + 1] else |kept| == i
  {
    hide AllowableError;
    assert t[..i][i - 1] == t[i - 1];
    assert t[..i] + [t[i]] == t[..i + 1];
  }

  lemma {:induction false} ApartIsFixed(qs: seq<Quantile>, t: seq<Item>, i: nat)
    requires 1 <= i <= |t| && Apart(qs, t, |t|)
    ensures CompressFrom(qs, t[..i], t[i..]) == t
    decreases |t| - i
  {
    hide ApartAt, Keep;
    if i == |t| {
      assert t[..i] == t;
    } else {
      hide CompressFrom;
      CompressFromNext(qs, t, i, t[..i]);
      KeepsOrMerges(qs, t, i);
      ApartIsFixed(qs, t, i + 1);
    }
  }

  lemma {:induction false} CompressFromLength(qs: seq<Quantile>, kept: seq<Item>, rest: seq<Item>)
    requires kept != []
    ensures |CompressFrom(qs, kept, rest)| <= |kept| + |rest|
    decreases |rest|
  {
    if rest != [] { CompressFromLength(qs, Keep(qs, kept, rest[0], |rest| - 1), rest[1..]); }
  }

  lemma {:induction false} NotApartShrinks(qs: seq<Quantile>, t: seq<Item>, i: nat, k: nat)
    requires 1 <= i <= k < |t| && !ApartAt(qs, t, k, |t|)
    ensures |CompressFrom(qs, t[..i], t[i..])| < |t|
    decreases |t| - i
  {
    hide ApartAt, Keep, CompressFrom;
    CompressFromNext(qs, t, i, t[..i]);
    KeepsOrMerges(qs, t, i);
    if ApartAt(qs, t, i, |t|) {
      NotApartShrinks(qs, t, i + 1, k);
    } else {
      CompressFromLength(qs, Keep(qs, t[..i], t[i], |t| - i - 1), t[i + 1..]);
    }
  }

  /** Compression leaves a sample as it is exactly if all neighbours fail the merge test; any other becomes shorter. */
  lemma {:induction false} FixedExactly(qs: seq<Quantile>, t: seq<Item>)
    ensures Compress(qs, t) == t <==> Apart(qs, t, |t|)
    ensures !Apart(qs, t, |t|) ==> |Compress(qs, t)| < |t|
  {
    if Apart(qs, t, |t|) {
      if 2 <= |t| { ApartIsFixed(qs, t, 1); }
    } else {
      var k :| 1 <= k < |t| && !ApartAt(qs, t, k, |t|);
      NotApartShrinks(qs, t, 1, k);
    }
  }

  /** Compressing a second time changes nothing: later queries see the sample the first one left. */
  lemma {:induction false} CompressTwice(qs: seq<Quantile>, s: seq<Item>)
    requires ValidQuantiles(qs) && PositiveWeights(s) && Certain(s)
    ensures Compress(qs, Compress(qs, s)) == Compress(qs, s)
  {
    var t := Compress(qs, s);
    CompressApart(qs, s);
    FixedExactly(qs, t);
  }

  // ----- the size of what is left

  lemma {:induction false} ApartWeight(qs: seq<Quantile>, t: seq<Item>, j: nat, e: real)
    requires ValidQuantiles(qs) && PositiveWeights(t) && Certain(t) && Apart(qs, t, |t|) && j < |t|
    requires 0.0 <= e <= 0.5 && forall q :: q in qs ==> e <= q.error
    ensures 2.0 * e * |t| as real * j as real <= (2 * Weight(t[..j + 1]) - t[0].g - t[j].g) as real
  {
    hide AllowableError;
    WeightOfPrefix(t, j);
    if j == 0 {
      assert t[..0] == [];
    } else {
      ApartWeight(qs, t, j - 1, e);
      assert ApartAt(qs, t, j, |t|);
      AllowableErrorFloor(qs, j, |t|, e);
      OneMore(2.0 * e * |t| as real, j);
    }
  }

  lemma {:induction false} OneMore(c: real, j: nat)
    requires 0 < j
    ensures c * j as real == c * (j - 1) as real + c
  {
  }

  /** The number of items is at most about the square root of n/e. */
  ghost predicate FewItems(e: real, m: nat, n: int) {
    2 <= m ==> e * m as real * (m - 1) as real < n as real
  }

  lemma {:induction false} FewItemsFromPairs(e: real, m: nat, n: int, ends: int)
    requires 2 <= m && 2 <= ends && 2.0 * e * m as real * (m - 1) as real <= (2 * n - ends) as real
    ensures FewItems(e, m, n)
  {
    HalveProduct(e, m as real, (m - 1) as real);
  }

  lemma {:induction false} OneItemIsFew(e: real, m: nat, n: int)
    requires m < 2
    ensures FewItems(e, m, n)
  {
  }

  /** A compressed sample without uncertainty has at most about the square root of n/e items. */
  lemma {:induction false} CompressedSize(qs: seq<Quantile>, s: seq<Item>, e: real)
    requires ValidQuantiles(qs) && PositiveWeights(s) && Certain(s)
    requires 0.0 <= e <= 0.5 && forall q :: q in qs ==> e <= q.error
    ensures FewItems(e, |Compress(qs, s)|, Weight(s))
  {
    hide AllowableError, FewItems;
    var t := Compress(qs, s);
    var at := CompressSurvivors(qs, s);
    SurvivorsPositive(s, |s|, t, at);
    assert s[..|s|] == s;
    CompressApart(qs, s);
    CompressCertain(qs, s);
    if 2 <= |t| {
      var m := |t|;
      ApartWeight(qs, t, m - 1, e);
      assert t[..m] == t;
      FewItemsFromPairs(e, m, Weight(t), t[0].g + t[m - 1].g);
    } else {
      OneItemIsFew(e, |t|, Weight(t));
    }
  }

  lemma {:induction false} HalveProduct(e: real, a: real, b: real)
    ensures 2.0 * e * a * b == 2.0 * (e * a * b)
  {
    assert 2.0 * e * a == 2.0 * (e * a);
  }

  // ----- rising batches

  ghost predicate Under(s: seq<Item>, x: real) {
    forall i :: 0 <= i < |s| ==> s[i].value < x
  }

  lemma {:induction false} LowerBoundAtEnd(s: seq<Item>, x: real)
    requires Under(s, x)
    ensures LowerBound(s, x) == |s|
  {
  }

  lemma {:induction false} InsertItemsUnder(qs: seq<Quantile>, s: seq<Item>, values: seq<real>, x: real)
    requires Under(s, x) && forall j :: 0 <= j < |values| ==> values[j] < x
    ensures Under(InsertItems(qs, s, values), x)
    decreases |values|
  {
    if values != [] {
      InsertItemsUnder(qs, s, values[..|values| - 1], x);
    }
  }

  lemma {:induction false} InsertItemsAscending(qs: seq<Quantile>, s: seq<Item>, values: seq<real>)
    requires Certain(s) && StrictlySorted(values)
    requires forall j :: 0 <= j < |values| ==> Under(s, values[j])
    ensures Certain(InsertItems(qs, s, values))
    decreases |values|
  {
    if values != [] {
      var init, x := values[..|values| - 1], values[|values| - 1];
      InsertItemsAscending(qs, s, init);
      InsertItemsUnder(qs, s, init, x);
      LowerBoundAtEnd(InsertItems(qs, s, init), x);
    }
  }

  /** Every buffered value is new and larger than all that the sample holds. */
  ghost predicate Rising(st: State) {
    && StrictlySorted(Sorted(st.buffer))
    && forall j :: 0 <= j < |st.buffer| ==> Under(st.sample, st.buffer[j])
  }

  /** Every flush of the run is rising: a batch may come in any order, and a reset may start all over. */
  ghost predicate RisingRun(qs: seq<Quantile>, ops: seq<Op>) {
    EveryFlush(qs, ops, st => Rising(st))
  }

  lemma {:induction false} SettleRising(qs: seq<Quantile>, st: State)
    requires Certain(st.sample) && Rising(st)
    ensures Certain(Flush(qs, st).sample) && Certain(Settle(qs, st).sample)
  {
    var sorted := Sorted(st.buffer);
    SortedKeeps(st.buffer);
    forall j | 0 <= j < |sorted|
      ensures Under(st.sample, sorted[j])
    {
      assert sorted[j] in multiset(sorted);
      assert sorted[j] in st.buffer;
    }
    InsertItemsAscending(qs, st.sample, sorted);
    CompressCertain(qs, Flush(qs, st).sample);
  }

  lemma {:induction false} RisingIsCertain(qs: seq<Quantile>, ops: seq<Op>)
    requires RisingRun(qs, ops)
    ensures Certain(Run(qs, ops).sample)
    decreases |ops|
  {
    hide Rising, Settle, Certain;
    if ops == [] {
      NothingIsCertain();
    } else {
      var init, op := ops[..|ops| - 1], ops[|ops| - 1];
      var st := Run(qs, init);
      if !op.Reset? { RisingIsCertain(qs, init); }
      match op {
        case Observe(x) =>
          if |st.buffer| + 1 == BUFFER_SIZE { SettleRising(qs, st.(buffer := st.buffer + [x])); }
        case Query(_) => SettleRising(qs, st);
        case Reset => NothingIsCertain();
      }
    }
  }

  lemma {:induction false} NothingIsCertain()
    ensures Certain([])
  {
  }

  /**
    On every run whose batches are rising, with queries and resets in between: a query leaves at most
    about the square root of n/e items, and repeating it leaves the estimator as it is.
   */
  lemma {:induction false} RisingSpace(qs: seq<Quantile>, ops: seq<Op>, e: real)
    requires ValidQuantiles(qs) && RisingRun(qs, ops + [Query(0.0)])
    requires 0.0 <= e <= 0.5 && forall q :: q in qs ==> e <= q.error
    ensures var st, n := Settle(qs, Run(qs, ops)), |Observed(ops)|;
            FewItems(e, |st.sample|, n) && Settle(qs, st) == st
  {
    hide AllowableError, FewItems, Rising;
    var st, obs := Run(qs, ops), Observed(ops);
    assert (ops + [Query(0.0)])[..|ops|] == ops;
    RisingIsCertain(qs, ops);
    EveryRunDescribes(qs, ops);
    SettleRising(qs, st);
    FlushKeepsDescribes(qs, st, obs);
    CompressedSize(qs, Flush(qs, st).sample, e);
    CompressTwice(qs, Flush(qs, st).sample);
  }

  /** Both of a state: few items, and among them no neighbours that could still be merged. */
  ghost predicate Tight(qs: seq<Quantile>, st: State, e: real) {
    FewItems(e, |st.sample|, st.count) && Compress(qs, st.sample) == st.sample
  }

  lemma {:induction false} EmptyIsTight(qs: seq<Quantile>, e: real)
    ensures Tight(qs, EMPTY, e)
  {
  }

  lemma {:induction false} SettleIsTight(qs: seq<Quantile>, st: State, obs: seq<real>, e: real)
    requires ValidQuantiles(qs) && Certain(st.sample) && Rising(st)
    requires st.count <= |obs| && st.buffer == obs[st.count..] && Sound(qs, st.sample, obs[..st.count])
    requires 0.0 <= e <= 0.5 && forall q :: q in qs ==> e <= q.error
    ensures Tight(qs, Settle(qs, st), e)
  {
    hide AllowableError, FewItems, Rising, RanksSound, ErrorBounded, Compress;
    SettleRising(qs, st);
    FlushKeepsDescribes(qs, st, obs);
    assert obs[..|obs|] == obs;
    CompressedSize(qs, Flush(qs, st).sample, e);
    CompressTwice(qs, Flush(qs, st).sample);
  }

  /**
    What such a run leaves, with no query behind it: every full buffer is compressed as well as merged,
    so that the bound holds at all times for the observations merged so far, and a query that finds
    nothing buffered changes nothing.
   */
  lemma {:induction false} RisingRunSpace(qs: seq<Quantile>, ops: seq<Op>, e: real)
    requires ValidQuantiles(qs) && RisingRun(qs, ops)
    requires 0.0 <= e <= 0.5 && forall q :: q in qs ==> e <= q.error
    ensures var st := Run(qs, ops);
            && FewItems(e, |st.sample|, st.count)
            && (st.buffer == [] ==> Settle(qs, st) == st)
  {
    hide FewItems, Compress, Run;
    RisingRunIsTight(qs, ops, e);
  }

  lemma {:induction false} RisingRunIsTight(qs: seq<Quantile>, ops: seq<Op>, e: real)
    requires ValidQuantiles(qs) && RisingRun(qs, ops)
    requires 0.0 <= e <= 0.5 && forall q :: q in qs ==> e <= q.error
    ensures Tight(qs, Run(qs, ops), e)
    decreases |ops|
  {
    hide Rising, Settle, Certain, Tight, Sound, ValidQuantiles;
    EmptyIsTight(qs, e);
    if ops != [] {
      var init, op := ops[..|ops| - 1], ops[|ops| - 1];
      var st, obs := Run(qs, init), Observed(init);
      if !op.Reset? {
        RisingRunIsTight(qs, init, e);
        RisingIsCertain(qs, init);
        EveryRunDescribes(qs, init);
      }
      match op {
        case Observe(x) =>
          var st', obs' := st.(buffer := st.buffer + [x]), obs + [x];
          SameItems(qs, st, st', e);
          if |st.buffer| + 1 == BUFFER_SIZE {
            assert obs'[..st.count] == obs[..st.count] && st'.buffer == obs'[st.count..];
            SettleIsTight(qs, st', obs', e);
          }
        case Query(_) => SettleIsTight(qs, st, obs, e);
        case Reset =>
      }
    }
  }

  lemma {:induction false} SameItems(qs: seq<Quantile>, st: State, st': State, e: real)
    requires st.sample == st'.sample && st.count == st'.count
    ensures Tight(qs, st, e) <==> Tight(qs, st', e)
  {
    hide FewItems, Compress;
  }

  ghost predicate NoReset(ops: seq<Op>) {
    forall i :: 0 <= i < |ops| ==> !ops[i].Reset?
  }

  lemma {:induction false} AscendingIsRising(qs: seq<Quantile>, st: State, obs: seq<real>)
    requires StrictlySorted(obs) && st.count <= |obs| && st.buffer == obs[st.count..]
    requires ValuesObserved(st.sample, obs[..st.count])
    ensures Rising(st)
  {
    AscendsIsSorted(st.buffer);
    forall j | 0 <= j < |st.buffer|
      ensures Under(st.sample, st.buffer[j])
    {
      forall i | 0 <= i < |st.sample|
        ensures st.sample[i].value < st.buffer[j]
      {
        var k :| 0 <= k < st.count && obs[k] == st.sample[i].value;
        assert st.buffer[j] == obs[st.count + j];
      }
    }
  }

  lemma {:induction false} AscendingRun(qs: seq<Quantile>, ops: seq<Op>)
    requires ValidQuantiles(qs) && NoReset(ops) && StrictlySorted(Observed(ops))
    ensures RisingRun(qs, ops)
    decreases |ops|
  {
    if ops != [] {
      hide Rising, Settle, RanksSound, ErrorBounded, AllowableError;
      var init := ops[..|ops| - 1];
      var st, obs := Run(qs, init), Observed(init);
      assert obs == Observed(ops)[..|obs|];
      AscendingRun(qs, init);
      EveryRunDescribes(qs, init);
      match ops[|ops| - 1] {
        case Observe(x) =>
          var st', obs' := st.(buffer := st.buffer + [x]), obs + [x];
          assert obs'[..st.count] == obs[..st.count];
          assert st'.buffer == obs'[st.count..];
          AscendingIsRising(qs, st', obs');
        case Query(_) => AscendingIsRising(qs, st, obs);
      }
    }
  }

  /** Runs of strictly ascending observations are such runs. */
  lemma {:induction false} AscendingSpace(qs: seq<Quantile>, ops: seq<Op>, e: real)
    requires ValidQuantiles(qs) && NoReset(ops) && StrictlySorted(Observed(ops))
    requires 0.0 <= e <= 0.5 && forall q :: q in qs ==> e <= q.error
    ensures var st, n := Settle(qs, Run(qs, ops)), |Observed(ops)|;
            FewItems(e, |st.sample|, n) && Settle(qs, st) == st
  {
    hide FewItems, ValidQuantiles;
    assert (ops + [Query(0.0)])[..|ops|] == ops;
    AscendingRun(qs, ops + [Query(0.0)]);
    RisingSpace(qs, ops, e);
  }

  /** And they leave such a state without a query. */
  lemma {:induction false} AscendingRunSpace(qs: seq<Quantile>, ops: seq<Op>, e: real)
    requires ValidQuantiles(qs) && NoReset(ops) && StrictlySorted(Observed(ops))
    requires 0.0 <= e <= 0.5 && forall q :: q in qs ==> e <= q.error
    ensures var st := Run(qs, ops);
            && FewItems(e, |st.sample|, st.count)
            && (st.buffer == [] ==> Settle(qs, st) == st)
  {
    hide FewItems, ValidQuantiles;
    AscendingRun(qs, ops);
    RisingRunSpace(qs, ops, e);
  }

  // ----- when the buffer is merged

  ghost predicate OnlyObserves(ops: seq<Op>) {
    forall i :: 0 <= i < |ops| ==> ops[i].Observe?
  }

  /** The buffer is merged after every 500 observations, and not before. */
  lemma {:induction false} MergedByBatches(qs: seq<Quantile>, ops: seq<Op>)
    requires OnlyObserves(ops)
    ensures var st := Run(qs, ops); |st.buffer| == |ops| % 500 && st.count == |ops| - |ops| % 500
    decreases |ops|
  {
    hide Compress, InsertItems, Sorted;
    if ops != [] {
      MergedByBatches(qs, ops[..|ops| - 1]);
    }
  }
}
