/**
  The ranks at which a query can have to stop in a sample that is as sound as those of a run are, and
  with them the exact condition for answers in order on such samples.
 */
module CkmsStops {
  import opened ErrorFunction
  import opened CkmsSample
  import opened CkmsRanks
  import opened CkmsAccuracy
  import opened CkmsGuard
  import opened CkmsOrder
  import opened Observations

  // ----- ranks and the items between them

  /** One item without uncertainty may reach from one rank to a later one. */
  ghost predicate OneItem(qs: seq<Quantile>, n: nat, r: int, r': int) {
    r < r' && (r' - r) as real <= AllowableError(qs, r', n + 1) + 2.0
  }

  /** So may k of them. */
  ghost predicate Items(qs: seq<Quantile>, n: nat, k: nat, r: int, r': int)
    decreases k
  {
    if k == 0 then r == r'
    else
      var init := k - 1;
      exists last: int :: Items(qs, n, init, r, last) && OneItem(qs, n, last, r')
  }

  /** An item of some weight and uncertainty may follow k others, so that just as many are left as the size asks for. */
  ghost predicate StopAt(qs: seq<Quantile>, size: nat, n: nat, k: nat, p: int, g: nat, delta: nat) {
    && 1 <= k < size && 1 <= g && (k == size - 1 ==> delta == 0)
    && (g + delta) as real <= AllowableError(qs, p + g, n + 1) + 2.0
    && Items(qs, n, k, 0, p)
    && Items(qs, n, size - k - 1, p + g, n)
  }

  /** A rank at which the scan of a sound sample of this size and count may have to stop. */
  ghost predicate Stop(qs: seq<Quantile>, size: nat, n: nat, w: int) {
    exists k: nat, p: int, g: nat, delta: nat :: StopAt(qs, size, n, k, p, g, delta) && w == p + g + delta
  }

  /** No such rank lies within the bound for a smaller rank asked for and beyond the bound for a larger one. */
  ghost predicate StopsInOrder(qs: seq<Quantile>, size: nat, n: nat) {
    forall d: nat, d': nat, w: int ::
      d <= d' <= n && Stop(qs, size, n, w) && w as real <= QueryBound(qs, d, size) ==>
        w as real <= QueryBound(qs, d', size)
  }

  // ----- every sound sample stops at such ranks

  lemma {:induction false} ItemsOf(qs: seq<Quantile>, s: seq<Item>, n: nat, i: nat, k: nat)
    requires PositiveWeights(s) && ErrorBounded(qs, s, n) && i + k <= |s|
    ensures Items(qs, n, k, Weight(s[..i]), Weight(s[..i + k]))
    decreases k
  {
    hide AllowableError, Weight;
    if 0 < k {
      var init := k - 1;
      ItemsOf(qs, s, n, i, init);
      WeightOfPrefix(s, i + init);
      assert WithinError(qs, s, i + init, n);
      assert OneItem(qs, n, Weight(s[..i + init]), Weight(s[..i + k]));
    }
  }

  lemma {:induction false} SoundStops(qs: seq<Quantile>, s: seq<Item>, obs: seq<real>, k: nat)
    requires Sound(qs, s, obs) && 1 <= k < |s|
    ensures Stop(qs, |s|, |obs|, Weight(s[..k]) + s[k].g + s[k].delta)
  {
    hide AllowableError, Weight, RanksSound, Items;
    ItemsOf(qs, s, |obs|, 0, k);
    ItemsOf(qs, s, |obs|, k + 1, |s| - k - 1);
    WeightOfPrefix(s, k);
    EmptyWeight();
    assert s[..0] == [] && s[..|s|] == s;
    assert WithinError(qs, s, k, |obs|);
    assert StopAt(qs, |s|, |obs|, k, Weight(s[..k]), s[k].g, s[k].delta);
  }

  lemma {:induction false} ScanStopsInOrder(s: seq<Item>, k: nat, bound: real, larger: real)
    requires k < |s|
    requires forall i :: k < i < |s| ==> var w := Weight(s[..i]) + s[i].g + s[i].delta;
               w as real <= bound ==> w as real <= larger
    ensures Scan(s, k, bound) <= Scan(s, k, larger)
    decreases |s| - k
  {
    if k + 1 < |s| && (Weight(s[..k + 1]) + s[k + 1].g + s[k + 1].delta) as real <= bound {
      ScanStopsInOrder(s, k + 1, bound, larger);
    }
  }

  lemma {:induction false} SoundScansInOrder(qs: seq<Quantile>, s: seq<Item>, obs: seq<real>, bound: real, larger: real)
    requires Sound(qs, s, obs) && s != []
    requires forall w :: Stop(qs, |s|, |obs|, w) && w as real <= bound ==> w as real <= larger
    ensures Scan(s, 0, bound) <= Scan(s, 0, larger)
  {
    hide Sound, Stop, Weight, Scan;
    forall k | 0 < k < |s|
      ensures var w := Weight(s[..k]) + s[k].g + s[k].delta; w as real <= bound ==> w as real <= larger
    {
      SoundStops(qs, s, obs, k);
    }
    ScanStopsInOrder(s, 0, bound, larger);
  }

  lemma {:induction false} LaterIsNotLess(s: seq<Item>, i: nat, j: nat)
    requires Ordered(s) && i <= j < |s|
    ensures s[i].value <= s[j].value
  {
  }

  lemma {:induction false} StopsMakeOrder(qs: seq<Quantile>, s: seq<Item>, obs: seq<real>, q: real, q': real)
    requires Sound(qs, s, obs) && s != [] && StopsInOrder(qs, |s|, |obs|) && 0.0 <= q <= q' <= 1.0
    ensures AnswersAgree(qs, s, |obs|, q, q')
  {
    hide QueryBound, Desired, Stop, Weight, Scan, Sound, Ordered;
    DesiredMonotone(q, q', |obs|);
    DesiredRange(q, |obs|);
    DesiredRange(q', |obs|);
    var d: nat, d': nat := Desired(q, |obs|), Desired(q', |obs|);
    var b, b' := QueryBound(qs, d, |s|), QueryBound(qs, d', |s|);
    SoundScansInOrder(qs, s, obs, b, b');
    SoundIsOrdered(qs, s, obs);
    LaterIsNotLess(s, Scan(s, 0, b), Scan(s, 0, b'));
  }

  lemma {:induction false} SoundIsOrdered(qs: seq<Quantile>, s: seq<Item>, obs: seq<real>)
    requires Sound(qs, s, obs)
    ensures Ordered(s)
  {
    hide Ordered, RanksSound, ErrorBounded;
  }

  // ----- every such rank is one of a sound sample

  /** Items from one rank to another, with the values of their places. */
  lemma {:induction false} ItemsBetween(
    qs: seq<Quantile>, n: nat, k: nat, r: int, r': int, first: nat) returns (t: seq<Item>)
    requires Items(qs, n, k, r, r')
    ensures |t| == k && PositiveWeights(t) && r + Weight(t) == r'
    ensures forall i :: 0 <= i < k ==> t[i].value == (first + i) as real && t[i].delta == 0
    ensures forall i :: 0 <= i < k ==> t[i].g as real <= AllowableError(qs, r + Weight(t[..i + 1]), n + 1) + 2.0
    decreases k
  {
    hide AllowableError, Weight;
    if k == 0 {
      t := [];
      EmptyWeight();
    } else {
      var init := k - 1;
      var last: int :| Items(qs, n, init, r, last) && OneItem(qs, n, last, r');
      var before := ItemsBetween(qs, n, init, r, last, first);
      var item := Item((first + init) as real, r' - last, 0);
      t := before + [item];
      WeightAppend(before, [item]);
      WeightOne(item);
      assert t[..k] == t;
      assert forall j :: 0 <= j <= init ==> t[..j] == before[..j];
    }
  }

  lemma {:induction false} EmptyWeight()
    ensures Weight([]) == 0
  {
  }

  lemma {:induction false} CopiesAreSound(qs: seq<Quantile>, s: seq<Item>, n: nat)
    requires PositiveWeights(s) && Ordered(s) && s != [] && s[|s| - 1].delta == 0
    requires Weight(s) == n && ErrorBounded(qs, s, n)
    ensures Sound(qs, s, Copies(s)) && |Copies(s)| == n
  {
    hide Copies, Weight, ErrorBounded;
    assert s[..|s|] == s;
    CopiesAtMost(s, s[|s| - 1].value);
    forall j | 0 <= j < |s|
      ensures s[j].value in Copies(s) && Weight(s[..j + 1]) <= CountAtMost(Copies(s), s[j].value)
    {
      CopiesHold(s, |s|, j);
    }
  }

  lemma {:induction false} JoinedWeight(a: seq<Item>, item: Item, b: seq<Item>, i: nat)
    requires i <= |b|
    ensures var s := a + [item] + b; Weight(s[..|a| + 1 + i]) == Weight(a) + item.g + Weight(b[..i])
  {
    hide Weight;
    var s := a + [item] + b;
    assert s[..|a| + 1 + i] == a + ([item] + b[..i]);
    WeightAppend(a, [item] + b[..i]);
    WeightAppend([item], b[..i]);
    WeightOne(item);
  }

  /** The two stretches of items and the one between them keep within the error as a whole. */
  lemma {:induction false} JoinedBounded(qs: seq<Quantile>, n: nat, a: seq<Item>, item: Item, b: seq<Item>)
    requires (item.g + item.delta) as real <= AllowableError(qs, Weight(a) + item.g, n + 1) + 2.0
    requires forall i :: 0 <= i < |a| ==> a[i].delta == 0
    requires forall i :: 0 <= i < |a| ==> a[i].g as real <= AllowableError(qs, Weight(a[..i + 1]), n + 1) + 2.0
    requires forall i :: 0 <= i < |b| ==> b[i].delta == 0
    requires forall i :: 0 <= i < |b| ==>
               b[i].g as real <= AllowableError(qs, Weight(a) + item.g + Weight(b[..i + 1]), n + 1) + 2.0
    ensures ErrorBounded(qs, a + [item] + b, n)
  {
    hide AllowableError, Weight;
    var s := a + [item] + b;
    forall i | 0 <= i < |s|
      ensures WithinError(qs, s, i, n)
    {
      if i < |a| {
        assert s[..i + 1] == a[..i + 1];
      } else {
        JoinedWeight(a, item, b, i - |a|);
        if i == |a| {
          EmptyWeight();
          assert b[..0] == [];
        }
      }
    }
  }

  /**
    A sound sample with different values that stops at the rank in front of its k-th item and
    nowhere beyond that before.
   */
  ghost predicate Stopping(qs: seq<Quantile>, s: seq<Item>, n: nat, k: nat, w: int) {
    && 1 <= k < |s| && PositiveWeights(s) && s[|s| - 1].delta == 0 && Weight(s) == n && ErrorBounded(qs, s, n)
    && (forall i, j :: 0 <= i < j < |s| ==> s[i].value < s[j].value)
    && (forall i :: 0 <= i < k ==> s[i].delta == 0)
    && Weight(s[..k]) + s[k].g + s[k].delta == w
  }

  lemma {:induction false} StopIsOfSample(qs: seq<Quantile>, size: nat, n: nat, w: int) returns (s: seq<Item>, k: nat)
    requires Stop(qs, size, n, w)
    ensures |s| == size && Stopping(qs, s, n, k, w)
  {
    hide AllowableError, Weight, ErrorBounded, Items;
    k, s := 0, [];
    var k', p: int, g: nat, delta: nat :| StopAt(qs, size, n, k', p, g, delta) && w == p + g + delta;
    k := k';
    var a := ItemsBetween(qs, n, k, 0, p, 0);
    var b := ItemsBetween(qs, n, size - k - 1, p + g, n, k + 1);
    var item := Item(k as real, g, delta);
    s := a + [item] + b;
    JoinedBounded(qs, n, a, item, b);
    JoinedWeight(a, item, b, |b|);
    assert s[..|s|] == s && b[..|b|] == b && s[..k] == a;
  }

  lemma {:induction false} ScanStopsBefore(s: seq<Item>, j: nat, k: nat, bound: real)
    requires j < k < |s| && bound < (Weight(s[..k]) + s[k].g + s[k].delta) as real
    ensures Scan(s, j, bound) < k
    decreases k - j
  {
    if j + 1 < k { ScanStopsBefore(s, j + 1, k, bound); }
  }

  lemma {:induction false} ScanReaches(s: seq<Item>, j: nat, k: nat, bound: real)
    requires j <= k < |s| && PositiveWeights(s) && forall i :: 0 <= i < k ==> s[i].delta == 0
    requires (Weight(s[..k]) + s[k].g + s[k].delta) as real <= bound
    ensures k <= Scan(s, j, bound)
    decreases k - j
  {
    if j < k {
      if j + 1 < k {
        WeightOfPrefix(s, j + 1);
        WeightMonotone(s, j + 2, k);
      }
      ScanReaches(s, j + 1, k, bound);
    }
  }

  lemma {:induction false} StoppingDisagrees(qs: seq<Quantile>, s: seq<Item>, n: nat, k: nat, w: int, d: nat, d': nat)
    requires Stopping(qs, s, n, k, w) && d <= d' <= n && 0 < n
    requires QueryBound(qs, d', |s|) < w as real <= QueryBound(qs, d, |s|)
    ensures var q, q' := d as real / n as real, d' as real / n as real;
            0.0 <= q <= q' <= 1.0 && !AnswersAgree(qs, s, n, q, q')
  {
    hide QueryBound, Desired, ErrorBounded;
    RankAsked(d, n);
    RankAsked(d', n);
    Quotients(d as real, d' as real, n as real);
    ScanStopsBefore(s, 0, k, QueryBound(qs, d', |s|));
    ScanReaches(s, 0, k, QueryBound(qs, d, |s|));
  }

  // ----- the exact condition

  /** All answers on all sound samples of a size and a count. */
  ghost predicate SoundAgree(qs: seq<Quantile>, size: nat, n: nat) {
    forall s, obs, q, q' :: Sound(qs, s, obs) && |s| == size && |obs| == n && s != [] && 0.0 <= q <= q' <= 1.0 ==>
      AnswersAgree(qs, s, n, q, q')
  }

  /**
    A larger quantile never gets a smaller answer, on any sound sample of this size and count, if and only
    if no rank at which one of them may stop lies between the bounds in the wrong order.
   */
  lemma {:induction false} SoundOrderExactly(qs: seq<Quantile>, size: nat, n: nat)
    ensures SoundAgree(qs, size, n) <==> StopsInOrder(qs, size, n)
  {
    hide QueryBound, AnswersAgree, Sound, Stop;
    if StopsInOrder(qs, size, n) {
      forall s, obs, q, q' | Sound(qs, s, obs) && |s| == size && |obs| == n && s != [] && 0.0 <= q <= q' <= 1.0
        ensures AnswersAgree(qs, s, n, q, q')
      {
        StopsMakeOrder(qs, s, obs, q, q');
      }
    } else {
      var d: nat, d': nat, w: int :|
        d <= d' <= n && Stop(qs, size, n, w) && QueryBound(qs, d', size) < w as real <= QueryBound(qs, d, size);
      var s, k := StopIsOfSample(qs, size, n, w);
      StoppingIsSound(qs, s, n, k, w);
      StoppingDisagrees(qs, s, n, k, w, d, d');
    }
  }

  lemma {:induction false} StoppingIsSound(qs: seq<Quantile>, s: seq<Item>, n: nat, k: nat, w: int)
    requires Stopping(qs, s, n, k, w)
    ensures s != [] && PositiveWeights(s) && Sound(qs, s, Copies(s)) && |Copies(s)| == n && 0 < n
  {
    hide ErrorBounded;
    WeightAtLeastLength(s);
    CopiesAreSound(qs, s, n);
  }

  lemma {:induction false} ItemsGrow(qs: seq<Quantile>, n: nat, k: nat, r: int, r': int)
    requires Items(qs, n, k, r, r')
    ensures r + k <= r'
    decreases k
  {
    hide AllowableError;
    if 0 < k {
      var init := k - 1;
      var last: int :| Items(qs, n, init, r, last) && OneItem(qs, n, last, r');
      ItemsGrow(qs, n, init, r, last);
    }
  }

  /** The condition is met if it is for all ranks that a sample of unlimited uncertainties may have. */
  lemma {:induction false} BoundsInOrderSuffice(qs: seq<Quantile>, size: nat, n: nat)
    requires BoundsInOrder(qs, size, n)
    ensures StopsInOrder(qs, size, n)
  {
    hide QueryBound, AllowableError;
    forall w | Stop(qs, size, n, w)
      ensures Threshold(size, n, w)
    {
      var k: nat, p: int, g: nat, delta: nat :| StopAt(qs, size, n, k, p, g, delta) && w == p + g + delta;
      ItemsGrow(qs, n, k, 0, p);
    }
  }

  /** On every run the answers that the sample found by the next query has are in order under that condition. */
  lemma {:induction false} EveryRunStopsInOrder(qs: seq<Quantile>, ops: seq<Op>, q: real, q': real)
    requires ValidQuantiles(qs) && 0.0 <= q <= q' <= 1.0
    requires var st := Settle(qs, Run(qs, ops)); st.sample != [] && StopsInOrder(qs, |st.sample|, st.count)
    ensures var st := Settle(qs, Run(qs, ops)); Answer(qs, st, q).value <= Answer(qs, st, q').value
  {
    hide QueryBound, Desired, Sound, StopsInOrder;
    SettledRun(qs, ops);
    StopsMakeOrder(qs, Settle(qs, Run(qs, ops)).sample, Observed(ops), q, q');
  }
}
