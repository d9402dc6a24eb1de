/** Runs on which the estimator fails: answers out of order, in one sample and in two, and an answer beyond its rank. */
module CkmsExamples {
  import opened Options
  import opened ErrorFunction
  import opened CkmsSample
  import opened CkmsRanks
  import opened CkmsAccuracy
  import opened CkmsUpper
  import opened CkmsOrder
  import opened CkmsRepeat
  import opened Observations

  // ----- following a run

  function Observes(values: seq<real>): seq<Op> {
    if values == [] then [] else Observes(values[..|values| - 1]) + [Observe(values[|values| - 1])]
  }

  lemma {:induction false} RunSnoc(qs: seq<Quantile>, ops: seq<Op>, op: Op)
    ensures Run(qs, ops + [op]) == Step(qs, Run(qs, ops), op)
    ensures op.Observe? ==> Observed(ops + [op]) == Observed(ops) + [op.value]
    ensures op.Query? ==> Observed(ops + [op]) == Observed(ops)
  {
    assert (ops + [op])[..|ops|] == ops;
  }

  lemma {:induction false} RunBatch(qs: seq<Quantile>, ops: seq<Op>, values: seq<real>)
    requires Run(qs, ops).buffer == [] && |values| < BUFFER_SIZE
    ensures Run(qs, ops + Observes(values)) == Run(qs, ops).(buffer := values)
    ensures Observed(ops + Observes(values)) == Observed(ops) + values
    decreases |values|
  {
    hide Run, Observed, Settle;
    if values == [] {
      assert ops + Observes(values) == ops;
    } else {
      var init, x := values[..|values| - 1], values[|values| - 1];
      RunBatch(qs, ops, init);
      RunSnoc(qs, ops + Observes(init), Observe(x));
      assert ops + Observes(values) == ops + Observes(init) + [Observe(x)];
      assert init + [x] == values;
    }
  }

  /** A batch and a query, by what they do to the sample. */
  lemma {:induction false} RunBatchAndQuery(qs: seq<Quantile>, ops: seq<Op>, values: seq<real>, q: real, s: seq<Item>)
    requires Run(qs, ops).buffer == [] && |values| < BUFFER_SIZE && Ascends(values)
    requires s == Compress(qs, InsertItems(qs, Run(qs, ops).sample, values))
    ensures Run(qs, ops + Observes(values) + [Query(q)]) == State(s, Run(qs, ops).count + |values|, [])
    ensures Settle(qs, Run(qs, ops + Observes(values))) == State(s, Run(qs, ops).count + |values|, [])
    ensures Observed(ops + Observes(values) + [Query(q)]) == Observed(ops) + values
  {
    hide Run, Observed, Compress, InsertItems;
    RunBatch(qs, ops, values);
    RunSnoc(qs, ops + Observes(values), Query(q));
    AscendsIsSorted(values);
  }

  // ----- following an insertion

  function Singles(values: seq<real>): seq<Item> {
    seq(|values|, i requires 0 <= i < |values| => Item(values[i], 1, 0))
  }

  lemma {:induction false} InsertAscending(qs: seq<Quantile>, values: seq<real>)
    requires StrictlySorted(values)
    ensures InsertItems(qs, [], values) == Singles(values)
    decreases |values|
  {
    if values != [] {
      var init, x := values[..|values| - 1], values[|values| - 1];
      InsertAscending(qs, init);
      var s := Singles(init);
      assert LowerBound(s, x) == |s|;
      assert Singles(values) == s + [Item(x, 1, 0)];
    }
  }

  lemma {:induction false} InsertFront(qs: seq<Quantile>, s: seq<Item>, x: real)
    requires s != [] ==> x <= s[0].value
    ensures InsertItem(qs, s, x) == [Item(x, 1, 0)] + s
  {
    assert s[..0] + [Item(x, 1, 0)] + s[0..] == [Item(x, 1, 0)] + s;
  }

  lemma {:induction false} InsertOneMore(qs: seq<Quantile>, s: seq<Item>, values: seq<real>, x: real)
    ensures InsertItems(qs, s, values + [x]) == InsertItem(qs, InsertItems(qs, s, values), x)
    ensures InsertItems(qs, s, []) == s
  {
    assert (values + [x])[..|values|] == values;
  }

  lemma {:induction false} RepeatOnce<T>(x: T, n: nat, s: seq<T>)
    requires 0 < n
    ensures Repeat(x, n) == Repeat(x, n - 1) + [x]
    ensures Repeat(x, n) + s == [x] + (Repeat(x, n - 1) + s)
  {
  }

  lemma {:induction false} InsertRepeat(qs: seq<Quantile>, s: seq<Item>, x: real, n: nat)
    requires s != [] ==> x <= s[0].value
    ensures InsertItems(qs, s, Repeat(x, n)) == Repeat(Item(x, 1, 0), n) + s
    decreases n
  {
    hide InsertItems, InsertItem, AllowableError;
    var item := Item(x, 1, 0);
    if n == 0 {
      InsertOneMore(qs, s, [], x);
      assert Repeat(x, 0) == [] && Repeat(item, 0) + s == s;
    } else {
      InsertRepeat(qs, s, x, n - 1);
      RepeatOnce(x, n, []);
      RepeatOnce(item, n, s);
      InsertOneMore(qs, s, Repeat(x, n - 1), x);
      StartsWith(item, n - 1, s);
      InsertFront(qs, Repeat(item, n - 1) + s, x);
    }
  }

  lemma {:induction false} StartsWith(item: Item, n: nat, s: seq<Item>)
    requires s != [] ==> item.value <= s[0].value
    ensures Repeat(item, n) + s != [] ==> item.value <= (Repeat(item, n) + s)[0].value
  {
  }

  // ----- following a compression: the items kept, the one that may still grow, and those to come

  lemma {:induction false} Begin(qs: seq<Quantile>, a: Item, rest: seq<Item>)
    requires rest != []
    ensures Compress(qs, [a] + rest) == CompressFrom(qs, [] + [a], rest)
  {
    assert ([a] + rest)[..1] == [] + [a] && ([a] + rest)[1..] == rest;
  }

  lemma {:induction false} Merge(qs: seq<Quantile>, kept: seq<Item>, a: Item, b: Item, rest: seq<Item>)
    requires (a.g + b.g + b.delta) as real <= AllowableError(qs, |kept| + 1, |kept| + 2 + |rest|)
    ensures CompressFrom(qs, kept + [a], [b] + rest) == CompressFrom(qs, kept + [b.(g := a.g + b.g)], rest)
  {
    hide AllowableError;
    assert ([b] + rest)[1..] == rest && (kept + [a])[..|kept|] == kept;
  }

  lemma {:induction false} Leave(qs: seq<Quantile>, kept: seq<Item>, a: Item, b: Item, rest: seq<Item>)
    requires (a.g + b.g + b.delta) as real > AllowableError(qs, |kept| + 1, |kept| + 2 + |rest|)
    ensures CompressFrom(qs, kept + [a], [b] + rest) == CompressFrom(qs, kept + [a] + [b], rest)
  {
    hide AllowableError;
    assert ([b] + rest)[1..] == rest;
  }

  lemma {:induction false} Finish(qs: seq<Quantile>, kept: seq<Item>)
    requires kept != []
    ensures CompressFrom(qs, kept, []) == kept
  {
  }

  // ----- following a scan

  lemma {:induction false} ScanPasses(s: seq<Item>, k: nat, weight: int, bound: real)
    requires k + 1 < |s| && Weight(s[..k + 1]) == weight && (weight + s[k + 1].g + s[k + 1].delta) as real <= bound
    ensures Scan(s, k, bound) == Scan(s, k + 1, bound) && Weight(s[..k + 2]) == weight + s[k + 1].g
  {
    WeightOfPrefix(s, k + 1);
  }

  lemma {:induction false} FirstWeight(s: seq<Item>)
    requires s != []
    ensures Weight(s[..1]) == s[0].g
  {
    WeightOfPrefix(s, 0);
    assert s[..0] == [];
  }

  lemma {:induction false} OneTarget(q: Quantile, rank: int, size: nat)
    ensures AllowableError([q], rank, size) == Smaller(TargetError(q, rank, size), (size + 1) as real)
  {
    assert [q][..0] == [];
  }

  lemma {:induction false} InsertBetween(qs: seq<Quantile>, before: seq<Item>, behind: seq<Item>, x: real)
    requires (forall i :: 0 <= i < |before| ==> before[i].value < x) && (behind != [] ==> x <= behind[0].value)
    ensures InsertItem(qs, before + behind, x)
            == before + [Item(x, 1, InsertDelta(qs, |before|, |before| + |behind|))] + behind
  {
    hide InsertDelta;
    LowerBoundBetween(before, behind, x);
    assert (before + behind)[..|before|] == before && (before + behind)[|before|..] == behind;
  }

  lemma {:induction false} LowerBoundBetween(before: seq<Item>, behind: seq<Item>, x: real)
    requires (forall i :: 0 <= i < |before| ==> before[i].value < x) && (behind != [] ==> x <= behind[0].value)
    ensures LowerBound(before + behind, x) == |before|
    decreases |before|
  {
    if before == [] {
      assert before + behind == behind;
    } else {
      assert (before + behind)[1..] == before[1..] + behind;
      LowerBoundBetween(before[1..], behind, x);
    }
  }

  // ----- answers out of order

  /** Its error exceeds 1 - quantile: not a gentle target. */
  const STEEP := Target(0.9, 0.3)

  lemma {:induction false} SteepErrors()
    ensures AllowableError([STEEP], 1, 2) == 3.0 && AllowableError([STEEP], 2, 3) == 4.0
    ensures AllowableError([STEEP], 1, 4) == 5.0 && AllowableError([STEEP], 2, 4) == 5.0
    ensures AllowableError([STEEP], 3, 4) == 5.0
    ensures forall r :: 1 <= r <= 4 ==> AllowableError([STEEP], r, 5) == 6.0
    ensures AllowableError([STEEP], 1, 6) == 7.0
    ensures AllowableError([STEEP], 5, 5) < 4.0
  {
    assert STEEP.u == Some(6.0) && 9.0 * STEEP.v.value == 6.0;
    forall r, n
      ensures AllowableError([STEEP], r, n) == Smaller(TargetError(STEEP, r, n), (n + 1) as real)
    {
      OneTarget(STEEP, r, n);
    }
  }

  lemma {:induction false} SteepDeltas()
    ensures InsertDelta([STEEP], 1, 2) == 2 && InsertDelta([STEEP], 2, 3) == 3 && InsertDelta([STEEP], 3, 4) == 3
    ensures InsertDelta([STEEP], 1, 3) == 5 && InsertDelta([STEEP], 2, 4) == 6
  {
    assert STEEP.u == Some(6.0) && 9.0 * STEEP.v.value == 6.0;
    OneTarget(STEEP, 2, 2);
    OneTarget(STEEP, 3, 3);
    OneTarget(STEEP, 4, 4);
    SteepErrors();
  }

  const FIRST: seq<Item> := [Item(6.0, 2, 0)]
  const SECOND: seq<Item> := [Item(5.0, 3, 3), Item(7.0, 4, 0)]
  const THIRD: seq<Item> := [Item(1.0, 1, 0), Item(2.0, 1, 5), Item(3.0, 1, 6), Item(5.0, 3, 3), Item(7.0, 4, 0)]

  lemma {:induction false} SteepFirst()
    ensures Compress([STEEP], InsertItems([STEEP], [], [5.0, 6.0])) == FIRST
  {
    hide AllowableError, Compress, CompressFrom, InsertItems;
    SteepErrors();
    InsertAscending([STEEP], [5.0, 6.0]);
    var a, b := Item(5.0, 1, 0), Item(6.0, 1, 0);
    assert Singles([5.0, 6.0]) == [a] + ([b] + []);
    Begin([STEEP], a, [b] + []);
    Merge([STEEP], [], a, b, []);
    Finish([STEEP], [] + FIRST);
  }

  lemma {:induction false} SteepSecondInserts()
    ensures InsertItems([STEEP], FIRST, [3.0, 4.0, 5.0, 6.0, 7.0])
            == [Item(3.0, 1, 0), Item(4.0, 1, 2), Item(5.0, 1, 3), Item(6.0, 1, 3), Item(6.0, 2, 0), Item(7.0, 1, 0)]
  {
    hide AllowableError, InsertItems, InsertItem, InsertDelta;
    var qs := [STEEP];
    SteepDeltas();
    InsertOneMore(qs, FIRST, [], 3.0);
    InsertOneMore(qs, FIRST, [3.0], 4.0);
    InsertOneMore(qs, FIRST, [3.0, 4.0], 5.0);
    InsertOneMore(qs, FIRST, [3.0, 4.0, 5.0], 6.0);
    InsertOneMore(qs, FIRST, [3.0, 4.0, 5.0, 6.0], 7.0);
    var a, b, c, d := Item(3.0, 1, 0), Item(4.0, 1, 2), Item(5.0, 1, 3), Item(6.0, 1, 3);
    InsertFront(qs, FIRST, 3.0);
    InsertBetween(qs, [a], FIRST, 4.0);
    InsertBetween(qs, [a] + [b], FIRST, 5.0);
    InsertBetween(qs, [a] + [b] + [c], FIRST, 6.0);
    AtTheEnd(qs, 6.0, [a] + [b] + [c] + [d] + FIRST, 7.0);
    assert [3.0, 4.0] == [3.0] + [4.0] && [3.0, 4.0, 5.0] == [3.0, 4.0] + [5.0];
    assert [3.0, 4.0, 5.0, 6.0] == [3.0, 4.0, 5.0] + [6.0];
    assert [3.0, 4.0, 5.0, 6.0, 7.0] == [3.0, 4.0, 5.0, 6.0] + [7.0] && [3.0] == [] + [3.0];
  }

  lemma {:induction false} AtTheEnd(qs: seq<Quantile>, last: real, s: seq<Item>, x: real)
    requires forall i :: 0 <= i < |s| ==> s[i].value <= last < x
    ensures InsertItem(qs, s, x) == s + [Item(x, 1, 0)]
  {
    hide AllowableError;
    InsertBetween(qs, s, [], x);
    assert s + [] == s;
  }

  lemma {:induction false} SteepSecond()
    ensures Compress([STEEP], InsertItems([STEEP], FIRST, [3.0, 4.0, 5.0, 6.0, 7.0])) == SECOND
  {
    hide AllowableError, Compress, CompressFrom, InsertItems;
    var qs := [STEEP];
    SteepErrors();
    SteepSecondInserts();
    var a, b, c := Item(3.0, 1, 0), Item(4.0, 1, 2), Item(5.0, 1, 3);
    var d, e, f := Item(6.0, 1, 3), Item(6.0, 2, 0), Item(7.0, 1, 0);
    var r1 := [f] + [];
    var r2 := [e] + r1;
    var r3 := [d] + r2;
    var r4 := [c] + r3;
    assert [a, b, c, d, e, f] == [a] + ([b] + r4);
    Begin(qs, a, [b] + r4);
    Merge(qs, [], a, b, r4);
    Merge(qs, [], Item(4.0, 2, 2), c, r3);
    var g := Item(5.0, 3, 3);
    Leave(qs, [], g, d, r2);
    Merge(qs, [] + [g], d, e, r1);
    Merge(qs, [] + [g], Item(6.0, 3, 0), f, []);
    Finish(qs, [] + [g] + [Item(7.0, 4, 0)]);
  }

  lemma {:induction false} SteepThirdInserts()
    ensures InsertItems([STEEP], SECOND, [1.0, 2.0, 3.0]) == THIRD
  {
    hide AllowableError, InsertItems, InsertItem, InsertDelta;
    var qs := [STEEP];
    SteepDeltas();
    InsertOneMore(qs, SECOND, [], 1.0);
    InsertOneMore(qs, SECOND, [1.0], 2.0);
    InsertOneMore(qs, SECOND, [1.0, 2.0], 3.0);
    var a, b := Item(1.0, 1, 0), Item(2.0, 1, 5);
    InsertFront(qs, SECOND, 1.0);
    InsertBetween(qs, [a], SECOND, 2.0);
    InsertBetween(qs, [a] + [b], SECOND, 3.0);
    assert [1.0] == [] + [1.0] && [1.0, 2.0] == [1.0] + [2.0] && [1.0, 2.0, 3.0] == [1.0, 2.0] + [3.0];
  }

  lemma {:induction false} SteepThird()
    ensures Compress([STEEP], THIRD) == THIRD
  {
    hide AllowableError, Compress, CompressFrom;
    var qs := [STEEP];
    SteepErrors();
    var a, b, c, d, e := THIRD[0], THIRD[1], THIRD[2], THIRD[3], THIRD[4];
    var r1 := [e] + [];
    var r2 := [d] + r1;
    var r3 := [c] + r2;
    assert THIRD == [a] + ([b] + r3);
    Begin(qs, a, [b] + r3);
    Leave(qs, [], a, b, r3);
    Leave(qs, [] + [a], b, c, r2);
    Leave(qs, [] + [a] + [b], c, d, r1);
    Leave(qs, [] + [a] + [b] + [c], d, e, []);
    Finish(qs, [] + [a] + [b] + [c] + [d] + [e]);
  }

  lemma {:induction false} SteepScan(bound: real)
    ensures bound == 7.0 ==> Scan(THIRD, 0, bound) == 1
    ensures bound < 7.0 ==> Scan(THIRD, 0, bound) == 0
  {
    FirstWeight(THIRD);
    if bound == 7.0 { ScanPasses(THIRD, 0, 1, bound); }
  }

  lemma {:induction false} Nothing(qs: seq<Quantile>)
    ensures Run(qs, []) == EMPTY && Observed([]) == []
  {
  }

  /** Ten observations in three batches, with a query behind each of the first two. */
  const STEEP_RUN: seq<Op> :=
    Observes([5.0, 6.0]) + [Query(0.5)] + Observes([3.0, 4.0, 5.0, 6.0, 7.0]) + [Query(0.5)] + Observes([1.0, 2.0, 3.0])

  lemma {:induction false} SteepRun()
    ensures var qs := [STEEP];
            && Settle(qs, Run(qs, STEEP_RUN)) == State(THIRD, 10, [])
            && Run(qs, STEEP_RUN + [Query(0.4)]) == State(THIRD, 10, [])
  {
    hide AllowableError, Run, Observed, Settle, Observes, Compress, InsertItems;
    var qs, first, second, third := [STEEP], [5.0, 6.0], [3.0, 4.0, 5.0, 6.0, 7.0], [1.0, 2.0, 3.0];
    SteepFirst();
    SteepSecond();
    SteepThirdInserts();
    SteepThird();
    Nothing(qs);
    assert [] + Observes(first) == Observes(first);
    RunBatchAndQuery(qs, [], first, 0.5, FIRST);
    var ops := Observes(first) + [Query(0.5)];
    RunBatchAndQuery(qs, ops, second, 0.5, SECOND);
    RunBatchAndQuery(qs, ops + Observes(second) + [Query(0.5)], third, 0.4, THIRD);
  }

  lemma {:induction false} SettleThird()
    ensures Settle([STEEP], State(THIRD, 10, [])) == State(THIRD, 10, [])
  {
    hide AllowableError, Compress;
    SteepThird();
    assert Sorted([]) == [] && InsertItems([STEEP], THIRD, []) == THIRD;
  }

  /** Then a query for the quantile 0.4 answers 2, and one for 0.5, asked instead or right behind it, answers 1. */
  lemma {:induction false} AnswersOutOfOrder()
    ensures var qs := [STEEP];
            && ValidQuantiles(qs)
            && Answer(qs, Settle(qs, Run(qs, STEEP_RUN)), 0.4) == Some(2.0)
            && Answer(qs, Settle(qs, Run(qs, STEEP_RUN)), 0.5) == Some(1.0)
            && Answer(qs, Settle(qs, Run(qs, STEEP_RUN + [Query(0.4)])), 0.5) == Some(1.0)
            && !BoundsInOrder(qs, 5, 10)
  {
    hide AllowableError, Run, Settle, Scan;
    var qs := [STEEP];
    SteepRun();
    SettleThird();
    SteepErrors();
    SteepScan(7.0);
    SteepScan(QueryBound(qs, 5, 5));
    assert Desired(0.4, 10) == 4 && Desired(0.5, 10) == 5;
    if BoundsInOrder(qs, 5, 10) {
      EveryRunAnswersInOrder(qs, STEEP_RUN, 0.4, 0.5);
    }
  }

  // ----- a second query that finds another sample

  const MILD := Target(0.2, 0.075)

  lemma {:induction false} MildErrors()
    ensures forall r: nat, n: nat :: r <= n + 1 && 2 <= n ==>
              AllowableError([MILD], r, n) == if 5 * r <= n then 0.1875 * (n - r) as real else 0.75 * r as real
  {
    assert MILD.u == Some(0.1875) && MILD.v == Some(0.75);
    forall r: nat, n: nat | r <= n + 1 && 2 <= n
      ensures AllowableError([MILD], r, n) == if 5 * r <= n then 0.1875 * (n - r) as real else 0.75 * r as real
    {
      OneTarget(MILD, r, n);
    }
  }

  const SEVEN_VALUES: seq<real> := [1.0, 1.0, 1.0, 1.0, 2.0, 3.0, 3.0]
  const ONE := Item(1.0, 1, 0)
  const TWO := Item(2.0, 1, 0)
  const FOUND_FIRST: seq<Item> := [ONE, ONE, Item(1.0, 2, 0), TWO, Item(3.0, 2, 0)]
  const FOUND_NEXT: seq<Item> := [ONE, ONE, Item(1.0, 2, 0), Item(3.0, 3, 0)]

  lemma {:induction false} MildInserts()
    ensures InsertItems([MILD], [], SEVEN_VALUES) == [ONE, ONE, ONE, ONE, TWO, Item(3.0, 1, 5), Item(3.0, 1, 0)]
  {
    hide AllowableError, InsertItems, InsertItem;
    var qs, ones := [MILD], Repeat(1.0, 4);
    InsertRepeat(qs, [], 1.0, 4);
    assert Repeat(ONE, 4) + [] == [ONE, ONE, ONE, ONE];
    assert SEVEN_VALUES == ones + [2.0] + [3.0] + [3.0];
    InsertOneMore(qs, [], ones, 2.0);
    InsertOneMore(qs, [], ones + [2.0], 3.0);
    InsertOneMore(qs, [], ones + [2.0] + [3.0], 3.0);
    AtTheEnd(qs, 1.0, [ONE, ONE, ONE, ONE], 2.0);
    AtTheEnd(qs, 2.0, [ONE, ONE, ONE, ONE] + [TWO], 3.0);
    InsertBetween(qs, [ONE, ONE, ONE, ONE] + [TWO], [Item(3.0, 1, 0)], 3.0);
    MildErrors();
    assert InsertDelta(qs, 5, 6) == 5;
  }

  lemma {:induction false} MildFirst()
    ensures Compress([MILD], InsertItems([MILD], [], SEVEN_VALUES)) == FOUND_FIRST
  {
    hide AllowableError, Compress, CompressFrom, InsertItems;
    var qs := [MILD];
    MildInserts();
    MildErrors();
    var x, y, z := Item(1.0, 2, 0), Item(3.0, 1, 5), Item(3.0, 1, 0);
    var r1 := [z] + [];
    var r2 := [y] + r1;
    var r3 := [TWO] + r2;
    var r4 := [ONE] + r3;
    var r5 := [ONE] + r4;
    assert [ONE, ONE, ONE, ONE, TWO, y, z] == [ONE] + ([ONE] + r5);
    Begin(qs, ONE, [ONE] + r5);
    Leave(qs, [], ONE, ONE, r5);
    Leave(qs, [] + [ONE], ONE, ONE, r4);
    Merge(qs, [] + [ONE] + [ONE], ONE, ONE, r3);
    Leave(qs, [] + [ONE] + [ONE], x, TWO, r2);
    Leave(qs, [] + [ONE] + [ONE] + [x], TWO, y, r1);
    Merge(qs, [] + [ONE] + [ONE] + [x] + [TWO], y, z, []);
    Finish(qs, [] + [ONE] + [ONE] + [x] + [TWO] + [Item(3.0, 2, 0)]);
  }

  lemma {:induction false} MildNext()
    ensures Compress([MILD], FOUND_FIRST) == FOUND_NEXT
  {
    hide AllowableError, Compress, CompressFrom;
    var qs := [MILD];
    MildErrors();
    var x, y := Item(1.0, 2, 0), Item(3.0, 2, 0);
    var r1 := [y] + [];
    var r2 := [TWO] + r1;
    var r3 := [x] + r2;
    assert FOUND_FIRST == [ONE] + ([ONE] + r3);
    Begin(qs, ONE, [ONE] + r3);
    Leave(qs, [], ONE, ONE, r3);
    Leave(qs, [] + [ONE], ONE, x, r2);
    Leave(qs, [] + [ONE] + [ONE], x, TWO, r1);
    Merge(qs, [] + [ONE] + [ONE] + [x], TWO, y, []);
    Finish(qs, [] + [ONE] + [ONE] + [x] + [Item(3.0, 3, 0)]);
  }

  lemma {:induction false} MildScans(bound: real)
    requires 5.0 < bound < 7.0
    ensures Scan(FOUND_FIRST, 0, bound) == 3 && Scan(FOUND_NEXT, 0, bound) == 2
  {
    FirstWeight(FOUND_FIRST);
    ScanPasses(FOUND_FIRST, 0, 1, bound);
    ScanPasses(FOUND_FIRST, 1, 2, bound);
    ScanPasses(FOUND_FIRST, 2, 4, bound);
    FirstWeight(FOUND_NEXT);
    ScanPasses(FOUND_NEXT, 0, 1, bound);
    ScanPasses(FOUND_NEXT, 1, 2, bound);
  }

  lemma {:induction false} MildBounds()
    ensures 5.0 < QueryBound([MILD], 4, 5) < 7.0 && 5.0 < QueryBound([MILD], 4, 4) < 7.0
    ensures 5.0 < QueryBound([MILD], 5, 4) < 7.0
    ensures Desired(0.6, 7) == 4 && Desired(0.72, 7) == 5
  {
    hide AllowableError;
    MildErrors();
  }

  lemma {:induction false} MildRun(q: real)
    ensures Settle([MILD], Run([MILD], Observes(SEVEN_VALUES))) == State(FOUND_FIRST, 7, [])
    ensures Settle([MILD], Run([MILD], Observes(SEVEN_VALUES) + [Query(q)])) == State(FOUND_NEXT, 7, [])
  {
    hide AllowableError, Run, Observed, Settle, Observes, Compress, InsertItems;
    var qs := [MILD];
    MildFirst();
    MildNext();
    Nothing(qs);
    assert [] + Observes(SEVEN_VALUES) == Observes(SEVEN_VALUES);
    RunBatchAndQuery(qs, [], SEVEN_VALUES, q, FOUND_FIRST);
    NothingToFlush(qs, State(FOUND_FIRST, 7, []));
  }

  /**
    The only target is attainable, and gentle. After seven observations a query for 0.6 answers 2, and
    the next one answers 1, be it for 0.6 again or for the larger 0.72.
   */
  lemma {:induction false} SecondQueryFalls()
    ensures var qs, ops := [MILD], Observes([1.0, 1.0, 1.0, 1.0, 2.0, 3.0, 3.0]);
            && ValidQuantiles(qs) && Attainable(MILD) && Gentle(MILD)
            && RowAnswer(qs, ops, [0.6, 0.72], 0) == Some(2.0) && RowAnswer(qs, ops, [0.6, 0.72], 1) == Some(1.0)
            && RowAnswer(qs, ops, [0.6, 0.6], 0) == Some(2.0) && RowAnswer(qs, ops, [0.6, 0.6], 1) == Some(1.0)
  {
    hide AllowableError, Run, Observes, Settle, Scan, QueryBound, Desired;
    var qs, ops := [MILD], Observes(SEVEN_VALUES);
    MildRun(0.6);
    MildBounds();
    MildScans(QueryBound(qs, 4, 5));
    MildScans(QueryBound(qs, 4, 4));
    MildScans(QueryBound(qs, 5, 4));
    assert ops + Queries([0.6, 0.72][..0]) == ops && ops + Queries([0.6, 0.6][..0]) == ops;
    assert Queries([0.6, 0.72][..1]) == [Query(0.6)] && Queries([0.6, 0.6][..1]) == [Query(0.6)];
  }

  // ----- an answer beyond its rank

  const EVEN := Target(0.5, 0.11)

  lemma {:induction false} EvenError(rank: nat, size: nat)
    requires rank <= size
    ensures AllowableError([EVEN], rank, size)
            == if 2 * rank <= size then 0.44 * (size - rank) as real else 0.44 * rank as real
  {
    OneTarget(EVEN, rank, size);
    assert EVEN.u == Some(0.44) && EVEN.v == Some(0.44);
  }

  const ONE_TO_NINE: seq<real> := [1.0, 2.0, 3.0, 4.0, 5.0, 6.0, 7.0, 8.0, 9.0]
  const MERGED: seq<Item> := [Item(3.0, 3, 0), Item(5.0, 2, 0), Item(6.0, 1, 0), Item(7.0, 1, 0), Item(9.0, 2, 0)]
  const ZERO := Item(0.0, 1, 0)

  lemma {:induction false} EvenFirst()
    ensures Compress([EVEN], InsertItems([EVEN], [], ONE_TO_NINE)) == MERGED
  {
    hide AllowableError, Compress, CompressFrom, InsertItems;
    var qs := [EVEN];
    InsertAscending(qs, ONE_TO_NINE);
    EvenErrors();
    var a, b, c, d, e := Item(3.0, 3, 0), Item(5.0, 2, 0), Item(6.0, 1, 0), Item(7.0, 1, 0), Item(9.0, 2, 0);
    var r9 := [Item(9.0, 1, 0)] + [];
    var r8 := [Item(8.0, 1, 0)] + r9;
    var r7 := [Item(7.0, 1, 0)] + r8;
    var r6 := [Item(6.0, 1, 0)] + r7;
    var r5 := [Item(5.0, 1, 0)] + r6;
    var r4 := [Item(4.0, 1, 0)] + r5;
    var r3 := [Item(3.0, 1, 0)] + r4;
    var r2 := [Item(2.0, 1, 0)] + r3;
    assert Singles(ONE_TO_NINE) == [Item(1.0, 1, 0)] + r2;
    Begin(qs, Item(1.0, 1, 0), r2);
    Merge(qs, [], Item(1.0, 1, 0), Item(2.0, 1, 0), r3);
    Merge(qs, [], Item(2.0, 2, 0), Item(3.0, 1, 0), r4);
    Leave(qs, [], a, Item(4.0, 1, 0), r5);
    Merge(qs, [] + [a], Item(4.0, 1, 0), Item(5.0, 1, 0), r6);
    Leave(qs, [] + [a], b, c, r7);
    Leave(qs, [] + [a] + [b], c, d, r8);
    Leave(qs, [] + [a] + [b] + [c], d, Item(8.0, 1, 0), r9);
    Merge(qs, [] + [a] + [b] + [c] + [d], Item(8.0, 1, 0), Item(9.0, 1, 0), []);
    Finish(qs, [] + [a] + [b] + [c] + [d] + [e]);
  }

  lemma {:induction false} EvenErrors()
    ensures forall r: nat, n: nat :: r <= n ==>
              AllowableError([EVEN], r, n) == if 2 * r <= n then 0.44 * (n - r) as real else 0.44 * r as real
  {
    forall r: nat, n: nat | r <= n
      ensures AllowableError([EVEN], r, n) == if 2 * r <= n then 0.44 * (n - r) as real else 0.44 * r as real
    {
      EvenError(r, n);
    }
  }

  const FRONT := Item(2.5, 1, 0)

  lemma {:induction false} EvenSecond()
    ensures InsertItems([EVEN], MERGED, [2.5]) == [FRONT] + MERGED
    ensures Compress([EVEN], [FRONT] + MERGED) == [FRONT] + MERGED
  {
    hide AllowableError, Compress, CompressFrom, InsertItems;
    var qs := [EVEN];
    InsertOneMore(qs, MERGED, [], 2.5);
    assert [] + [2.5] == [2.5];
    InsertFront(qs, MERGED, 2.5);
    EvenErrors();
    var a, b, c, d, e := MERGED[0], MERGED[1], MERGED[2], MERGED[3], MERGED[4];
    var r1 := [e] + [];
    var r2 := [d] + r1;
    var r3 := [c] + r2;
    var r4 := [b] + r3;
    assert MERGED == [a] + r4;
    Begin(qs, FRONT, [a] + r4);
    Leave(qs, [], FRONT, a, r4);
    Leave(qs, [] + [FRONT], a, b, r3);
    Leave(qs, [] + [FRONT] + [a], b, c, r2);
    Leave(qs, [] + [FRONT] + [a] + [b], c, d, r1);
    Leave(qs, [] + [FRONT] + [a] + [b] + [c], d, e, []);
    Finish(qs, [] + [FRONT] + [a] + [b] + [c] + [d] + [e]);
  }

  /** The i-th of n zeros can be merged into the item behind those kept, which weighed g before the first. */
  ghost predicate ZeroMerges(kept: nat, g: int, n: nat, behind: nat, i: nat)
    requires i <= n
  {
    (g + i) as real <= AllowableError([EVEN], kept + 1, kept + 2 + (n - i) + behind)
  }

  lemma {:induction false} MergeZeros(kept: seq<Item>, g: int, n: nat, rest: seq<Item>)
    requires forall i :: 1 <= i <= n ==> ZeroMerges(|kept|, g, n, |rest|, i)
    ensures CompressFrom([EVEN], kept + [Item(0.0, g, 0)], Repeat(ZERO, n) + rest)
            == CompressFrom([EVEN], kept + [Item(0.0, g + n, 0)], rest)
    decreases n
  {
    hide AllowableError, CompressFrom;
    if n == 0 {
      assert Repeat(ZERO, n) + rest == rest;
    } else {
      RepeatOnce(ZERO, n, rest);
      assert ZeroMerges(|kept|, g, n, |rest|, 1);
      Merge([EVEN], kept, Item(0.0, g, 0), ZERO, Repeat(ZERO, n - 1) + rest);
      var g', n' := g + 1, n - 1;
      forall i | 1 <= i <= n'
        ensures ZeroMerges(|kept|, g', n', |rest|, i)
      {
        var j := i + 1;
        assert ZeroMerges(|kept|, g, n, |rest|, j);
      }
      MergeZeros(kept, g', n', rest);
    }
  }

  const LAST: seq<Item> :=
    [Item(0.0, 5, 0), Item(0.0, 4, 0), Item(0.0, 3, 0), Item(2.5, 1, 0),
     Item(3.0, 3, 0), Item(5.0, 2, 0), Item(7.0, 2, 0), Item(9.0, 2, 0)]

  lemma {:induction false} EvenThird()
    ensures Compress([EVEN], Repeat(ZERO, 12) + ([FRONT] + MERGED)) == LAST
  {
    hide AllowableError, Compress, CompressFrom;
    var qs := [EVEN];
    EvenErrors();
    var a, b, c, d, e := MERGED[0], MERGED[1], MERGED[2], MERGED[3], MERGED[4];
    var r1 := [e] + [];
    var r2 := [d] + r1;
    var r3 := [c] + r2;
    var r4 := [b] + r3;
    var r5 := [a] + r4;
    var r6 := [FRONT] + r5;
    assert MERGED == r5;
    var x, y, z := Item(0.0, 5, 0), Item(0.0, 4, 0), Item(0.0, 3, 0);
    var s2 := [ZERO] + (Repeat(ZERO, 2) + r6);
    var s1 := [ZERO] + (Repeat(ZERO, 3) + s2);
    assert Repeat(ZERO, 12) + r6 == [ZERO] + (Repeat(ZERO, 4) + s1);
    Begin(qs, ZERO, Repeat(ZERO, 4) + s1);
    MergeZeros([], 1, 4, s1);
    Leave(qs, [], x, ZERO, Repeat(ZERO, 3) + s2);
    MergeZeros([] + [x], 1, 3, s2);
    Leave(qs, [] + [x], y, ZERO, Repeat(ZERO, 2) + r6);
    MergeZeros([] + [x] + [y], 1, 2, r6);
    var k := [] + [x] + [y];
    Leave(qs, k, z, FRONT, r5);
    Leave(qs, k + [z], FRONT, a, r4);
    Leave(qs, k + [z] + [FRONT], a, b, r3);
    Leave(qs, k + [z] + [FRONT] + [a], b, c, r2);
    Merge(qs, k + [z] + [FRONT] + [a] + [b], c, d, r1);
    Leave(qs, k + [z] + [FRONT] + [a] + [b], Item(7.0, 2, 0), e, []);
    Finish(qs, k + [z] + [FRONT] + [a] + [b] + [Item(7.0, 2, 0)] + [e]);
  }

  lemma {:induction false} EvenScan(bound: real)
    requires 13.0 < bound < 14.0
    ensures Scan(LAST, 0, bound) == 3
  {
    FirstWeight(LAST);
    ScanPasses(LAST, 0, 5, bound);
    ScanPasses(LAST, 1, 9, bound);
    ScanPasses(LAST, 2, 12, bound);
  }

  /** The numbers 1 to 9, a query, the number 2.5, another query, and twelve zeros. */
  const EVEN_RUN: seq<Op> :=
    Observes(ONE_TO_NINE) + [Query(0.5)] + Observes([2.5]) + [Query(0.5)] + Observes(Repeat(0.0, 12))

  lemma {:induction false} EvenRun()
    ensures Settle([EVEN], Run([EVEN], EVEN_RUN)) == State(LAST, 22, [])
    ensures Observed(EVEN_RUN) == ONE_TO_NINE + [2.5] + Repeat(0.0, 12)
  {
    hide AllowableError, Run, Observed, Settle, Observes, Compress, InsertItems;
    var qs, zeros := [EVEN], Repeat(0.0, 12);
    EvenFirst();
    EvenSecond();
    EvenThird();
    InsertRepeat(qs, [FRONT] + MERGED, 0.0, 12);
    Nothing(qs);
    assert [] + Observes(ONE_TO_NINE) == Observes(ONE_TO_NINE);
    RunBatchAndQuery(qs, [], ONE_TO_NINE, 0.5, MERGED);
    var ops := Observes(ONE_TO_NINE) + [Query(0.5)];
    RunBatchAndQuery(qs, ops, [2.5], 0.5, [FRONT] + MERGED);
    RunBatchAndQuery(qs, ops + Observes([2.5]) + [Query(0.5)], zeros, 0.5, LAST);
    RunBatch(qs, ops + Observes([2.5]) + [Query(0.5)], zeros);
    assert [] + ONE_TO_NINE == ONE_TO_NINE;
  }

  lemma {:induction false} CountRepeat(x: real, n: nat, v: real)
    requires x < v
    ensures CountBelow(Repeat(x, n), v) == n
    decreases n
  {
    if 0 < n {
      CountRepeat(x, n - 1, v);
      RepeatOnce(x, n, []);
      CountSnoc(Repeat(x, n - 1), x, v, true);
    }
  }

  lemma {:induction false} FourteenBelow()
    ensures CountBelow(ONE_TO_NINE + [2.5] + Repeat(0.0, 12), 2.5) == 14
    ensures CountBelow(ONE_TO_NINE, 2.5) == 2
  {
    var low, high := [1.0, 2.0], [3.0, 4.0, 5.0, 6.0, 7.0, 8.0, 9.0];
    assert ONE_TO_NINE == low + high;
    CountAppend(low, high, 2.5, true);
    CountSnoc([1.0], 2.0, 2.5, true);
    CountSnoc([], 1.0, 2.5, true);
    assert [] + [1.0] == [1.0] && [1.0] + [2.0] == low;
    NoneBelow(high, 2.5);
    CountSnoc(ONE_TO_NINE, 2.5, 2.5, true);
    CountAppend(ONE_TO_NINE + [2.5], Repeat(0.0, 12), 2.5, true);
    CountRepeat(0.0, 12, 2.5);
  }

  /**
    The median of these 22 observations is asked for with a tolerance of 0.11. At most 13 observations
    may be smaller than the answer, but 14 are: the item for 2.5 was inserted in front of one that
    stands for 1, 2 and 3, and got no uncertainty.
   */
  lemma {:induction false} AnswerBeyondRank()
    ensures var qs, obs := [EVEN], Observed(EVEN_RUN);
            && ValidQuantiles(qs) && Attainable(EVEN) && |obs| == 22
            && Answer(qs, Settle(qs, Run(qs, EVEN_RUN)), 0.5) == Some(2.5)
            && CountBelow(obs, 2.5) == 14 && !NotBeyond(EVEN, 22.0, 14.0)
  {
    hide AllowableError, Run, Observed, Settle, Scan, Count;
    EvenRun();
    FourteenBelow();
    assert Desired(0.5, 22) == 11;
    OneTarget(EVEN, 11, 8);
    assert EVEN.v == Some(0.44);
    EvenScan(QueryBound([EVEN], 11, 8));
  }

  /** The flush at which the upper rank bounds end: two observations are smaller than 2.5, and its item says none is. */
  lemma {:induction false} UpperSoundEndsWithBatch()
    ensures var qs, ops := [EVEN], Observes(ONE_TO_NINE) + [Query(0.5)] + Observes([2.5]);
            && UpperSound(Run(qs, Observes(ONE_TO_NINE) + [Query(0.5)]).sample, ONE_TO_NINE)
            && !UpperSound(Flush(qs, Run(qs, ops)).sample, Observed(ops))
            && !CoveredFlush(qs, Run(qs, ops))
  {
    hide AllowableError, Run, Observed, Settle, Observes, Compress, InsertItems, Count, UpperSound;
    var qs, first := [EVEN], Observes(ONE_TO_NINE) + [Query(0.5)];
    EvenFirst();
    EvenSecond();
    Nothing(qs);
    assert [] + Observes(ONE_TO_NINE) == Observes(ONE_TO_NINE) && [] + ONE_TO_NINE == ONE_TO_NINE;
    RunBatchAndQuery(qs, [], ONE_TO_NINE, 0.5, MERGED);
    RunBatch(qs, first, [2.5]);
    AscendsIsSorted([2.5]);
    BatchUpperSound(qs, ONE_TO_NINE);
    CompressKeepsUpperSound(qs, InsertItems(qs, [], ONE_TO_NINE), ONE_TO_NINE);
    FourteenBelow();
    CountSnoc(ONE_TO_NINE, 2.5, 2.5, true);
    FrontNotUpperSound([FRONT] + MERGED, ONE_TO_NINE + [2.5]);
    NotCovered();
  }

  lemma {:induction false} FrontNotUpperSound(s: seq<Item>, obs: seq<real>)
    requires s != [] && s[0] == FRONT && 1 <= CountBelow(obs, 2.5)
    ensures !UpperSound(s, obs)
  {
    FirstWeight(s);
    assert !UpperSoundAt(s, 0, obs);
  }

  lemma {:induction false} NotCovered()
    ensures !AllCovered([EVEN], MERGED, [2.5])
  {
    hide AllowableError;
    assert [2.5][..0] == [] && InsertItems([EVEN], MERGED, []) == MERGED;
    assert LowerBound(MERGED, 2.5) == 0;
    forall j | 0 <= j < |MERGED|
      ensures !CoveredBy([EVEN], MERGED, 0, j)
    {
      HeavierThanJumps(j);
    }
    assert !Covered([EVEN], MERGED, 2.5);
  }

  lemma {:induction false} HeavierThanJumps(j: nat)
    requires j < |MERGED|
    ensures Weight(MERGED[..j + 1]) >= Jumps(MERGED, 0, j) + 3 && Weight(MERGED[..0]) == 0
    decreases j
  {
    WeightOfPrefix(MERGED, j);
    assert MERGED[..0] == [];
    if 0 < j { HeavierThanJumps(j - 1); }
  }
}
