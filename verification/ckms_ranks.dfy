/**
  What a CKMS sample says about the observations it stands for, on every run:
  the lower rank bounds are sound and every item stays within the error allowed
  at its true rank.
 */
module CkmsRanks {
  import opened ErrorFunction
  import opened CkmsSample
  import opened Observations

  // ----- sorting keeps the observations

  lemma {:induction false} InsertSortedKeeps(xs: seq<real>, x: real)
    ensures multiset(InsertSorted(xs, x)) == multiset(xs) + multiset{x}
    ensures |InsertSorted(xs, x)| == |xs| + 1
  {
    if xs != [] && xs[0] < x {
      InsertSortedKeeps(xs[1..], x);
      assert xs == [xs[0]] + xs[1..];
    }
  }

  lemma {:induction false} SortedKeeps(xs: seq<real>)
    ensures multiset(Sorted(xs)) == multiset(xs)
    ensures |Sorted(xs)| == |xs|
  {
    hide InsertSorted;
    if xs != [] {
      SortedKeeps(xs[1..]);
      InsertSortedKeeps(Sorted(xs[1..]), xs[0]);
      assert xs == [xs[0]] + xs[1..];
    }
  }

  lemma {:induction false} InsertSortedAscends(xs: seq<real>, x: real)
    requires Ascends(xs)
    ensures Ascends(InsertSorted(xs, x))
  {
    if xs != [] && xs[0] < x {
      var ys := InsertSorted(xs[1..], x);
      InsertSortedAscends(xs[1..], x);
      InsertSortedKeeps(xs[1..], x);
      forall k | 0 <= k < |ys|
        ensures xs[0] <= ys[k]
      {
        assert ys[k] in multiset(ys);
        assert ys[k] == x || ys[k] in xs[1..];
      }
      assert InsertSorted(xs, x) == [xs[0]] + ys;
    }
  }

  /** What sorting promises: the same values, in ascending order. */
  lemma {:induction false} SortedAscends(xs: seq<real>)
    ensures Ascends(Sorted(xs)) && multiset(Sorted(xs)) == multiset(xs)
  {
    hide Ascends, InsertSorted;
    SortedKeeps(xs);
    if xs == [] {
      NothingAscends();
    } else {
      SortedAscends(xs[1..]);
      InsertSortedAscends(Sorted(xs[1..]), xs[0]);
    }
  }

  lemma {:induction false} NothingAscends()
    ensures Ascends([])
  {
  }

  lemma {:induction false} AscendsIsSorted(xs: seq<real>)
    requires Ascends(xs)
    ensures Sorted(xs) == xs
    decreases |xs|
  {
    if xs != [] {
      AscendsIsSorted(xs[1..]);
      assert xs == [xs[0]] + xs[1..];
    }
  }

  // ----- the invariant of a sample

  ghost predicate Ordered(s: seq<Item>) {
    forall i, j :: 0 <= i < j < |s| ==> s[i].value <= s[j].value
  }

  /** The cumulative weight of an item is a lower bound of the rank of its value. */
  ghost predicate RanksSound(s: seq<Item>, obs: seq<real>) {
    forall i :: 0 <= i < |s| ==> Weight(s[..i + 1]) <= CountAtMost(obs, s[i].value)
  }

  ghost predicate ValuesObserved(s: seq<Item>, obs: seq<real>) {
    forall i :: 0 <= i < |s| ==> s[i].value in obs
  }

  ghost predicate LastIsMaximum(s: seq<Item>, obs: seq<real>) {
    && (s == [] <==> obs == [])
    && (s != [] ==> s[|s| - 1].delta == 0 && forall x :: x in obs ==> x <= s[|s| - 1].value)
  }

  /** Weight and uncertainty of an item stay within the error allowed at its rank among n observations. */
  ghost predicate ErrorBounded(qs: seq<Quantile>, s: seq<Item>, n: nat) {
    forall i :: 0 <= i < |s| ==> WithinError(qs, s, i, n)
  }

  ghost predicate WithinError(qs: seq<Quantile>, s: seq<Item>, i: nat, n: nat)
    requires i < |s|
  {
    (s[i].g + s[i].delta) as real <= AllowableError(qs, Weight(s[..i + 1]), n + 1) + 2.0
  }

  ghost predicate Sound(qs: seq<Quantile>, s: seq<Item>, obs: seq<real>) {
    && PositiveWeights(s)
    && Ordered(s)
    && Weight(s) == |obs|
    && RanksSound(s, obs)
    && ValuesObserved(s, obs)
    && LastIsMaximum(s, obs)
    && ErrorBounded(qs, s, |obs|)
  }

  /** The state describes the observations: the oldest are in the sample, the rest still in the buffer. */
  ghost predicate Describes(qs: seq<Quantile>, st: State, obs: seq<real>) {
    && st.count <= |obs|
    && st.buffer == obs[st.count..]
    && |st.buffer| < BUFFER_SIZE
    && Sound(qs, st.sample, obs[..st.count])
  }

  // ----- inserting one item

  function Splice(s: seq<Item>, idx: nat, item: Item): seq<Item>
    requires idx <= |s|
  {
    s[..idx] + [item] + s[idx..]
  }

  lemma {:induction false} SpliceWeights(s: seq<Item>, idx: nat, item: Item, k: nat)
    requires idx <= |s| && k <= |s|
    ensures k <= idx ==> Weight(Splice(s, idx, item)[..k]) == Weight(s[..k])
    ensures idx <= k ==> Weight(Splice(s, idx, item)[..k + 1]) == Weight(s[..k]) + item.g
  {
    var t := Splice(s, idx, item);
    if k <= idx {
      assert t[..k] == s[..k];
    }
    if idx <= k {
      assert t[..k + 1] == s[..idx] + [item] + s[idx..k];
      assert s[..k] == s[..idx] + s[idx..k];
      WeightWith(s[..idx], item, s[idx..k]);
      WeightAppend(s[..idx], s[idx..k]);
    }
  }

  lemma {:induction false} SpliceTotalWeight(s: seq<Item>, idx: nat, item: Item)
    requires idx <= |s|
    ensures Weight(Splice(s, idx, item)) == Weight(s) + item.g
  {
    WeightWith(s[..idx], item, s[idx..]);
    WeightSplit(s, idx);
  }

  lemma {:induction false} InsertDeltaNonNegative(qs: seq<Quantile>, idx: nat, size: nat)
    requires ValidQuantiles(qs)
    ensures 0 <= InsertDelta(qs, idx, size)
  {
    AllowableErrorNonNegative(qs, idx + 1, size);
  }

  lemma {:induction false} SpliceAt(s: seq<Item>, idx: nat, item: Item, i: nat)
    requires idx <= |s| && i <= |s|
    ensures Splice(s, idx, item)[i] == if i < idx then s[i] else if i == idx then item else s[i - 1]
  {
  }

  lemma {:induction false} SplicePositive(s: seq<Item>, idx: nat, item: Item)
    requires idx <= |s| && PositiveWeights(s) && 1 <= item.g && 0 <= item.delta
    ensures PositiveWeights(Splice(s, idx, item))
  {
    var t := Splice(s, idx, item);
    forall i | 0 <= i < |t|
      ensures 1 <= t[i].g && 0 <= t[i].delta
    {
      SpliceAt(s, idx, item, i);
    }
  }

  lemma {:induction false} SpliceOrdered(s: seq<Item>, idx: nat, item: Item)
    requires idx <= |s| && Ordered(s)
    requires forall i :: 0 <= i < idx ==> s[i].value < item.value
    requires idx < |s| ==> item.value <= s[idx].value
    ensures Ordered(Splice(s, idx, item))
  {
    var t := Splice(s, idx, item);
    forall i, j | 0 <= i < j < |t|
      ensures t[i].value <= t[j].value
    {
      SpliceAt(s, idx, item, i);
      SpliceAt(s, idx, item, j);
    }
  }

  lemma {:induction false} InsertShape(qs: seq<Quantile>, s: seq<Item>, x: real) returns (idx: nat, item: Item)
    requires ValidQuantiles(qs) && PositiveWeights(s) && Ordered(s)
    ensures idx == LowerBound(s, x) && item == Item(x, 1, InsertDelta(qs, idx, |s|))
    ensures InsertItem(qs, s, x) == Splice(s, idx, item)
    ensures PositiveWeights(Splice(s, idx, item)) && Ordered(Splice(s, idx, item))
    ensures forall i :: idx <= i < |s| ==> x <= s[i].value
  {
    idx := LowerBound(s, x);
    item := Item(x, 1, InsertDelta(qs, idx, |s|));
    InsertDeltaNonNegative(qs, idx, |s|);
    SplicePositive(s, idx, item);
    SpliceOrdered(s, idx, item);
  }

  lemma {:induction false} InsertRanksSound(s: seq<Item>, idx: nat, item: Item, obs: seq<real>)
    requires idx <= |s| && item.g == 1 && RanksSound(s, obs)
    requires forall i :: 0 <= i < idx ==> s[i].value < item.value
    requires forall i :: idx <= i < |s| ==> item.value <= s[i].value
    ensures RanksSound(Splice(s, idx, item), obs + [item.value])
  {
    var t := Splice(s, idx, item);
    forall i | 0 <= i < |t|
      ensures Weight(t[..i + 1]) <= CountAtMost(obs + [item.value], t[i].value)
    {
      CountSnoc(obs, item.value, t[i].value, false);
      if i < idx {
        SpliceWeights(s, idx, item, i + 1);
      } else {
        SpliceWeights(s, idx, item, i);
        if i == idx && 0 < idx {
          CountMonotone(obs, s[idx - 1].value, item.value, false);
          assert Weight(s[..idx - 1 + 1]) <= CountAtMost(obs, s[idx - 1].value);
        } else if i > idx {
          assert t[i] == s[i - 1];
          assert Weight(s[..i - 1 + 1]) <= CountAtMost(obs, s[i - 1].value);
        }
      }
    }
  }

  lemma {:induction false} InsertErrorBoundedBefore(
    qs: seq<Quantile>, s: seq<Item>, idx: nat, item: Item, n: nat, i: nat)
    requires ValidQuantiles(qs) && PositiveWeights(s) && Weight(s) == n && i < idx <= |s| && WithinError(qs, s, i, n)
    ensures WithinError(qs, Splice(s, idx, item), i, n + 1)
  {
    SpliceAt(s, idx, item, i);
    SpliceWeights(s, idx, item, i + 1);
    WeightMonotone(s, 0, i + 1);
    AllowableErrorMonotone(qs, Weight(s[..i + 1]), n + 1, Weight(s[..i + 1]), n + 2);
  }

  lemma {:induction false} InsertErrorBoundedAfter(
    qs: seq<Quantile>, s: seq<Item>, idx: nat, item: Item, n: nat, i: nat)
    requires ValidQuantiles(qs) && PositiveWeights(s) && Weight(s) == n && item.g == 1
    requires idx <= i < |s| && WithinError(qs, s, i, n)
    ensures WithinError(qs, Splice(s, idx, item), i + 1, n + 1)
  {
    SpliceAt(s, idx, item, i + 1);
    SpliceWeights(s, idx, item, i + 1);
    WeightMonotone(s, 0, i + 1);
    AllowableErrorMonotone(qs, Weight(s[..i + 1]), n + 1, Weight(s[..i + 1]) + 1, n + 2);
  }

  lemma {:induction false} InsertErrorBoundedAt(qs: seq<Quantile>, s: seq<Item>, idx: nat, item: Item, n: nat)
    requires ValidQuantiles(qs) && PositiveWeights(s) && Weight(s) == n
    requires idx <= |s| && item.g == 1 && item.delta == InsertDelta(qs, idx, |s|)
    ensures WithinError(qs, Splice(s, idx, item), idx, n + 1)
  {
    SpliceAt(s, idx, item, idx);
    SpliceWeights(s, idx, item, idx);
    WeightMonotone(s, 0, idx);
    var rank := Weight(s[..idx]) + 1;
    if 0 < idx < |s| {
      AllowableErrorMonotone(qs, idx + 1, |s|, rank, n + 2);
    } else {
      AllowableErrorNonNegative(qs, rank, n + 2);
    }
  }

  /**
    An insertion moves no other item closer to either end, and the new item was granted its
    uncertainty at a smaller rank.
   */
  lemma {:induction false} InsertErrorBounded(qs: seq<Quantile>, s: seq<Item>, idx: nat, item: Item, n: nat)
    requires ValidQuantiles(qs) && PositiveWeights(s) && Weight(s) == n && ErrorBounded(qs, s, n)
    requires idx <= |s| && item.g == 1 && item.delta == InsertDelta(qs, idx, |s|)
    ensures ErrorBounded(qs, Splice(s, idx, item), n + 1)
  {
    var t, n' := Splice(s, idx, item), n + 1;
    forall i | 0 <= i < |t|
      ensures WithinError(qs, t, i, n')
    {
      if i < idx {
        InsertErrorBoundedBefore(qs, s, idx, item, n, i);
      } else if i == idx {
        InsertErrorBoundedAt(qs, s, idx, item, n);
      } else {
        assert WithinError(qs, s, i - 1, n);
        InsertErrorBoundedAfter(qs, s, idx, item, n, i - 1);
      }
    }
  }

  lemma {:induction false} InsertLastIsMaximum(s: seq<Item>, idx: nat, item: Item, obs: seq<real>)
    requires idx <= |s| && LastIsMaximum(s, obs) && (idx == |s| ==> item.delta == 0)
    requires idx < |s| ==> item.value <= s[|s| - 1].value
    requires 0 < idx == |s| ==> s[idx - 1].value < item.value
    ensures LastIsMaximum(Splice(s, idx, item), obs + [item.value])
  {
    var t := Splice(s, idx, item);
    assert t[|t| - 1] == if idx == |s| then item else s[|s| - 1];
  }

  lemma {:induction false} InsertValuesObserved(s: seq<Item>, idx: nat, item: Item, obs: seq<real>)
    requires idx <= |s| && ValuesObserved(s, obs)
    ensures ValuesObserved(Splice(s, idx, item), obs + [item.value])
  {
    var t := Splice(s, idx, item);
    forall i | 0 <= i < |t|
      ensures t[i].value in obs + [item.value]
    {
      assert t[i] == if i < idx then s[i] else if i == idx then item else s[i - 1];
    }
  }

  lemma {:induction false} InsertKeepsSound(qs: seq<Quantile>, s: seq<Item>, x: real, obs: seq<real>)
    requires ValidQuantiles(qs) && Sound(qs, s, obs)
    ensures Sound(qs, InsertItem(qs, s, x), obs + [x])
  {
    var idx, item := InsertShape(qs, s, x);
    SpliceTotalWeight(s, idx, item);
    InsertRanksSound(s, idx, item, obs);
    InsertErrorBounded(qs, s, idx, item, |obs|);
    InsertLastIsMaximum(s, idx, item, obs);
    InsertValuesObserved(s, idx, item, obs);
  }

  lemma {:induction false} InsertItemsKeepsSound(qs: seq<Quantile>, s: seq<Item>, values: seq<real>, obs: seq<real>)
    requires ValidQuantiles(qs) && Sound(qs, s, obs)
    ensures Sound(qs, InsertItems(qs, s, values), obs + values)
    decreases |values|
  {
    if values == [] {
      assert obs + values == obs;
    } else {
      var init, x := values[..|values| - 1], values[|values| - 1];
      InsertItemsKeepsSound(qs, s, init, obs);
      InsertKeepsSound(qs, InsertItems(qs, s, init), x, obs + init);
      assert obs + init + [x] == obs + values;
    }
  }

  lemma {:induction false} SoundPermutation(qs: seq<Quantile>, s: seq<Item>, a: seq<real>, b: seq<real>)
    requires Sound(qs, s, a) && multiset(a) == multiset(b)
    ensures Sound(qs, s, b)
  {
    assert |a| == |multiset(a)| == |multiset(b)| == |b|;
    forall i | 0 <= i < |s|
      ensures CountAtMost(a, s[i].value) == CountAtMost(b, s[i].value)
      ensures s[i].value in b
    {
      CountPermutation(a, b, s[i].value, false);
      assert s[i].value in multiset(a);
    }
    forall x | x in b
      ensures x in a
    {
      assert x in multiset(b);
    }
  }

  lemma {:induction false} FlushKeepsDescribes(qs: seq<Quantile>, st: State, obs: seq<real>)
    requires ValidQuantiles(qs) && st.count <= |obs| && st.buffer == obs[st.count..]
    requires Sound(qs, st.sample, obs[..st.count])
    ensures Flush(qs, st).count == |obs| && Sound(qs, Flush(qs, st).sample, obs)
  {
    var done, sorted := obs[..st.count], Sorted(st.buffer);
    InsertItemsKeepsSound(qs, st.sample, sorted, done);
    SortedKeeps(st.buffer);
    assert obs == done + st.buffer;
    assert multiset(done + sorted) == multiset(obs);
    SoundPermutation(qs, Flush(qs, st).sample, done + sorted, obs);
  }

  // ----- compress keeps ranks

  /**
    The items of t are the items of s at the positions `at`, in order and up to position n - 1;
    each keeps its value, its uncertainty and its cumulative weight.
   */
  ghost predicate SurvivorsUpTo(s: seq<Item>, n: nat, t: seq<Item>, at: seq<nat>)
    requires n <= |s|
  {
    && |at| == |t|
    && (n == 0 <==> t == [])
    && (t != [] ==> at[|t| - 1] == n - 1)
    && (forall j, k :: 0 <= j < k < |t| ==> at[j] < at[k])
    && forall k :: 0 <= k < |t| ==> at[k] < n && SameRank(t, k, s, at[k])
  }

  ghost predicate SameRank(t: seq<Item>, k: nat, s: seq<Item>, i: nat)
    requires k < |t| && i < |s|
  {
    t[k].value == s[i].value && t[k].delta == s[i].delta && Weight(t[..k + 1]) == Weight(s[..i + 1])
  }

  ghost predicate Survivors(s: seq<Item>, t: seq<Item>, at: seq<nat>) {
    SurvivorsUpTo(s, |s|, t, at)
  }

  /** All but the last item of t are kept as they were; the last is the item, possibly with more weight. */
  ghost predicate Extends(kept: seq<Item>, item: Item, t: seq<Item>) {
    && 0 < |t| && |kept| <= |t| <= |kept| + 1
    && (forall k :: 0 <= k < |t| - 1 ==> t[k] == kept[k])
    && Weight(t) == Weight(kept) + item.g
    && t[|t| - 1].value == item.value && t[|t| - 1].delta == item.delta
  }

  lemma {:induction false} KeepExtends(qs: seq<Quantile>, kept: seq<Item>, item: Item, later: nat)
    requires kept != []
    ensures Extends(kept, item, Keep(qs, kept, item, later))
  {
    var t := Keep(qs, kept, item, later);
    assert t[..|t| - 1] == kept[..|t| - 1];
    assert kept[..|kept|] == kept;
  }

  lemma {:induction false} ExtendSurvivors(s: seq<Item>, i: nat, kept: seq<Item>, at: seq<nat>, t: seq<Item>)
    requires i < |s| && SurvivorsUpTo(s, i, kept, at) && Weight(kept) == Weight(s[..i]) && Extends(kept, s[i], t)
    ensures SurvivorsUpTo(s, i + 1, t, at[..|t| - 1] + [i])
    ensures Weight(t) == Weight(s[..i + 1])
  {
    var last, at' := |t| - 1, at[..|t| - 1] + [i];
    WeightOfPrefix(s, i);
    assert t[..last + 1] == t;
    forall k | 0 <= k < last
      ensures SameRank(t, k, s, at'[k])
    {
      assert t[..k + 1] == kept[..k + 1];
      assert SameRank(kept, k, s, at[k]);
    }
    assert SameRank(t, last, s, i);
  }

  lemma {:induction false} KeepSurvivors(
    qs: seq<Quantile>, s: seq<Item>, i: nat, kept: seq<Item>, at: seq<nat>, later: nat) returns (at': seq<nat>)
    requires 0 < i < |s| && SurvivorsUpTo(s, i, kept, at) && Weight(kept) == Weight(s[..i])
    ensures SurvivorsUpTo(s, i + 1, Keep(qs, kept, s[i], later), at')
    ensures Weight(Keep(qs, kept, s[i], later)) == Weight(s[..i + 1])
  {
    var t := Keep(qs, kept, s[i], later);
    KeepExtends(qs, kept, s[i], later);
    ExtendSurvivors(s, i, kept, at, t);
    at' := at[..|t| - 1] + [i];
  }

  lemma {:induction false} CompressFromNext(qs: seq<Quantile>, s: seq<Item>, i: nat, kept: seq<Item>)
    requires i < |s| && kept != []
    ensures CompressFrom(qs, kept, s[i..]) == CompressFrom(qs, Keep(qs, kept, s[i], |s| - i - 1), s[i + 1..])
  {
    assert s[i..][1..] == s[i + 1..] && s[i..][0] == s[i];
  }

  lemma {:induction false} CompressFromSurvivors(
    qs: seq<Quantile>, s: seq<Item>, i: nat, kept: seq<Item>, at: seq<nat>) returns (at': seq<nat>)
    requires 0 < i <= |s| && SurvivorsUpTo(s, i, kept, at) && Weight(kept) == Weight(s[..i])
    ensures Survivors(s, CompressFrom(qs, kept, s[i..]), at')
    decreases |s| - i
  {
    if i == |s| {
      at' := at;
    } else {
      at' := KeepSurvivors(qs, s, i, kept, at, |s| - i - 1);
      CompressFromNext(qs, s, i, kept);
      at' := CompressFromSurvivors(qs, s, i + 1, Keep(qs, kept, s[i], |s| - i - 1), at');
    }
  }

  lemma {:induction false} FirstSurvives(s: seq<Item>)
    requires s != []
    ensures SurvivorsUpTo(s, 1, s[..1], [0])
  {
    assert s[..1][..1] == s[..1];
    assert SameRank(s[..1], 0, s, 0);
  }

  /** Compression only drops items: what remains carries the rank information it carried before. */
  lemma {:induction false} CompressSurvivors(qs: seq<Quantile>, s: seq<Item>) returns (at: seq<nat>)
    ensures Survivors(s, Compress(qs, s), at)
  {
    if s == [] {
      at := [];
    } else {
      FirstSurvives(s);
      if |s| == 1 {
        assert s[..1] == s;
        at := [0];
      } else {
        at := CompressFromSurvivors(qs, s, 1, s[..1], [0]);
      }
    }
  }

  lemma {:induction false} SurvivorsPositive(s: seq<Item>, n: nat, t: seq<Item>, at: seq<nat>)
    requires n <= |s| && PositiveWeights(s) && SurvivorsUpTo(s, n, t, at)
    ensures PositiveWeights(t)
    ensures Weight(t) == Weight(s[..n])
  {
    forall k | 0 <= k < |t|
      ensures 1 <= t[k].g && 0 <= t[k].delta
    {
      assert SameRank(t, k, s, at[k]);
      WeightOfPrefix(t, k);
      if k == 0 {
        WeightMonotone(s, 0, at[0] + 1);
      } else {
        assert SameRank(t, k - 1, s, at[k - 1]);
        WeightMonotone(s, at[k - 1] + 1, at[k] + 1);
      }
    }
    assert t[..|t|] == t;
    if t != [] { assert SameRank(t, |t| - 1, s, n - 1); }
  }

  // ----- compress keeps the error bound

  /** A merge is granted at an index no larger than the true rank and a size that leaves no more room behind. */
  lemma {:induction false} MergeErrorBounded(
    qs: seq<Quantile>, kept: seq<Item>, item: Item, later: nat, rank: nat, n: nat)
    requires ValidQuantiles(qs) && kept != [] && Mergeable(qs, kept, item, later)
    requires |kept| <= rank && rank + later <= n
    ensures (kept[|kept| - 1].g + item.g + item.delta) as real <= AllowableError(qs, rank, n + 1)
  {
    AllowableErrorMonotone(qs, |kept|, |kept| + 1 + later, rank, n + 1);
  }

  lemma {:induction false} ExtendErrorBounded(qs: seq<Quantile>, kept: seq<Item>, item: Item, t: seq<Item>, n: nat)
    requires ErrorBounded(qs, kept, n) && Extends(kept, item, t) && WithinError(qs, t, |t| - 1, n)
    ensures ErrorBounded(qs, t, n)
  {
    var last := |t| - 1;
    forall k | 0 <= k < last
      ensures WithinError(qs, t, k, n)
    {
      assert t[..k + 1] == kept[..k + 1];
      assert WithinError(qs, kept, k, n);
    }
  }

  lemma {:induction false} ItemBounded(qs: seq<Quantile>, s: seq<Item>, i: nat, n: nat)
    requires ErrorBounded(qs, s, n) && i < |s|
    ensures WithinError(qs, s, i, n)
  {
  }

  lemma {:induction false} KeepErrorBounded(qs: seq<Quantile>, s: seq<Item>, i: nat, kept: seq<Item>, n: nat)
    requires ValidQuantiles(qs) && PositiveWeights(s) && Weight(s) == n && ErrorBounded(qs, s, n)
    requires 0 < i < |s| && kept != [] && PositiveWeights(kept) && Weight(kept) == Weight(s[..i])
    requires ErrorBounded(qs, kept, n)
    ensures ErrorBounded(qs, Keep(qs, kept, s[i], |s| - i - 1), n)
  {
    hide AllowableError, ValidQuantiles, ErrorBounded;
    var later := |s| - i - 1;
    var t := Keep(qs, kept, s[i], later);
    KeepExtends(qs, kept, s[i], later);
    WeightOfPrefix(s, i);
    WeightAtLeastLength(kept);
    WeightMonotone(s, i, i + 1);
    assert t[..|t|] == t;
    ItemBounded(qs, s, i, n);
    if Mergeable(qs, kept, s[i], later) {
      MergeErrorBounded(qs, kept, s[i], later, Weight(t), n);
    }
    ExtendErrorBounded(qs, kept, s[i], t, n);
  }

  lemma {:induction false} CompressFromErrorBounded(
    qs: seq<Quantile>, s: seq<Item>, i: nat, kept: seq<Item>, at: seq<nat>, n: nat)
    requires ValidQuantiles(qs) && PositiveWeights(s) && Weight(s) == n && ErrorBounded(qs, s, n)
    requires 0 < i <= |s| && SurvivorsUpTo(s, i, kept, at) && ErrorBounded(qs, kept, n)
    ensures ErrorBounded(qs, CompressFrom(qs, kept, s[i..]), n)
    decreases |s| - i
  {
    if i < |s| {
      SurvivorsPositive(s, i, kept, at);
      var at' := KeepSurvivors(qs, s, i, kept, at, |s| - i - 1);
      KeepErrorBounded(qs, s, i, kept, n);
      CompressFromNext(qs, s, i, kept);
      CompressFromErrorBounded(qs, s, i + 1, Keep(qs, kept, s[i], |s| - i - 1), at', n);
    }
  }

  lemma {:induction false} CompressErrorBounded(qs: seq<Quantile>, s: seq<Item>, n: nat)
    requires ValidQuantiles(qs) && PositiveWeights(s) && Weight(s) == n && ErrorBounded(qs, s, n)
    ensures ErrorBounded(qs, Compress(qs, s), n)
  {
    if 2 <= |s| {
      FirstSurvives(s);
      assert s[..1][..1] == s[..1];
      assert WithinError(qs, s, 0, n);
      assert WithinError(qs, s[..1], 0, n);
      CompressFromErrorBounded(qs, s, 1, s[..1], [0], n);
    }
  }

  lemma {:induction false} SurvivorsKeepRanksSound(s: seq<Item>, t: seq<Item>, at: seq<nat>, obs: seq<real>)
    requires Survivors(s, t, at) && RanksSound(s, obs) && ValuesObserved(s, obs) && Ordered(s)
    ensures RanksSound(t, obs) && ValuesObserved(t, obs) && Ordered(t)
  {
    forall k | 0 <= k < |t|
      ensures Weight(t[..k + 1]) <= CountAtMost(obs, t[k].value) && t[k].value in obs
    {
      assert SameRank(t, k, s, at[k]);
    }
    forall j, k | 0 <= j < k < |t|
      ensures t[j].value <= t[k].value
    {
      assert SameRank(t, j, s, at[j]) && SameRank(t, k, s, at[k]);
    }
  }

  lemma {:induction false} CompressKeepsSound(qs: seq<Quantile>, s: seq<Item>, obs: seq<real>)
    requires ValidQuantiles(qs) && Sound(qs, s, obs)
    ensures Sound(qs, Compress(qs, s), obs)
  {
    var t := Compress(qs, s);
    var at := CompressSurvivors(qs, s);
    SurvivorsPositive(s, |s|, t, at);
    SurvivorsKeepRanksSound(s, t, at, obs);
    CompressErrorBounded(qs, s, |obs|);
    assert s[..|s|] == s;
    if t != [] { assert SameRank(t, |t| - 1, s, |s| - 1); }
  }

  lemma {:induction false} SettleKeepsDescribes(qs: seq<Quantile>, st: State, obs: seq<real>)
    requires ValidQuantiles(qs) && st.count <= |obs| && st.buffer == obs[st.count..]
    requires Sound(qs, st.sample, obs[..st.count])
    ensures Describes(qs, Settle(qs, st), obs)
    ensures Settle(qs, st).count == |obs|
  {
    FlushKeepsDescribes(qs, st, obs);
    CompressKeepsSound(qs, Flush(qs, st).sample, obs);
    assert obs[..|obs|] == obs;
  }

  // ----- every run

  lemma {:induction false} InsertKeepsDescribes(qs: seq<Quantile>, st: State, obs: seq<real>, x: real)
    requires ValidQuantiles(qs) && Describes(qs, st, obs)
    ensures Describes(qs, Insert(qs, st, x), obs + [x])
  {
    var st' := st.(buffer := st.buffer + [x]);
    assert (obs + [x])[..st.count] == obs[..st.count];
    assert st'.buffer == (obs + [x])[st.count..];
    if |st'.buffer| == BUFFER_SIZE {
      SettleKeepsDescribes(qs, st', obs + [x]);
    }
  }

  /**
    On every run of observations, queries and resets the sample is sorted, its weights add up
    to the observations merged since the last reset, cumulative weights are lower bounds of true
    ranks, values are observed ones, the last is the maximum, and every item is within the error
    allowed at its true rank.
   */
  lemma {:induction false} EveryRunDescribes(qs: seq<Quantile>, ops: seq<Op>)
    requires ValidQuantiles(qs)
    ensures Describes(qs, Run(qs, ops), Observed(ops))
    decreases |ops|
  {
    if ops != [] {
      var init := ops[..|ops| - 1];
      EveryRunDescribes(qs, init);
      var st, obs := Run(qs, init), Observed(init);
      match ops[|ops| - 1] {
        case Observe(x) => InsertKeepsDescribes(qs, st, obs, x);
        case Query(_) => SettleKeepsDescribes(qs, st, obs);
        case Reset =>
      }
    }
  }
}
