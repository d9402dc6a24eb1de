/**
  The guard of an insertion is exact: if it fails, the sample may stand for observations with which
  its upper rank bounds are sound before the insertion and not behind it.
 */
module CkmsGuard {
  import opened ErrorFunction
  import opened CkmsSample
  import opened CkmsRanks
  import opened CkmsUpper
  import opened Observations

  // ----- observations in blocks

  /** Every item stands for copies of its own value. */
  function Copies(s: seq<Item>): (xs: seq<real>)
    requires PositiveWeights(s)
    ensures |xs| == Weight(s)
  {
    if s == [] then [] else Copies(s[..|s| - 1]) + Repeat(s[|s| - 1].value, s[|s| - 1].g)
  }

  lemma {:induction false} BelowAppend(a: seq<real>, b: seq<real>, v: real)
    ensures CountBelow(a, v) <= CountBelow(a + b, v)
    ensures (forall y :: y in b ==> v <= y) ==> CountBelow(a + b, v) == CountBelow(a, v)
    ensures CountAtMost(a, v) <= CountAtMost(a + b, v)
  {
    CountAppend(a, b, v, true);
    CountAppend(a, b, v, false);
    NoneBelow(b, v);
  }

  lemma {:induction false} AllBelow(xs: seq<real>, v: real)
    requires forall y :: y in xs ==> y < v
    ensures CountBelow(xs, v) == |xs|
    decreases |xs|
  {
    if xs != [] {
      var init := xs[..|xs| - 1];
      assert xs == init + [xs[|xs| - 1]] && xs[|xs| - 1] in xs;
      forall y | y in init
        ensures y < v
      {
        assert y in xs;
      }
      AllBelow(init, v);
    }
  }

  // ----- the observations that spoil the bounds

  /** Where an insertion happens, the value that lies in front of the new one, and how many observations it covers. */
  datatype Place = Place(idx: nat, y: real, top: int)

  ghost predicate Fits(s: seq<Item>, p: Place) {
    && PositiveWeights(s) && Ordered(s) && p.idx < |s| && Weight(s[..p.idx]) <= p.top
    && (forall i :: 0 <= i < p.idx ==> s[i].value < p.y) && p.y < s[p.idx].value
  }

  /** Whether the value of an item was not yet taken by the one in front of it. */
  predicate IsNew(s: seq<Item>, p: Place, j: nat)
    requires j < |s|
  {
    j == p.idx || (0 < j && s[j - 1].value < s[j].value)
  }

  /**
    How many observations there are up to an item behind the place: few more than its weight says,
    and one for each new value.
   */
  function Reach(s: seq<Item>, p: Place, k: nat): (n: int)
    requires p.idx <= k <= |s|
    decreases k
  {
    if k == p.idx then p.top + 1
    else
      var least := Reach(s, p, k - 1) + if IsNew(s, p, k - 1) then 1 else 0;
      if least <= Weight(s[..k]) then Weight(s[..k]) else least
  }

  lemma {:induction false} ReachGrows(s: seq<Item>, p: Place, k: nat)
    requires p.idx < k <= |s|
    ensures Reach(s, p, k - 1) + (if IsNew(s, p, k - 1) then 1 else 0) <= Reach(s, p, k)
    ensures Weight(s[..k]) <= Reach(s, p, k)
  {
  }

  /** One observation too many in front of the place, and then enough for each item. */
  function Spoiler(s: seq<Item>, p: Place, k: nat): (obs: seq<real>)
    requires Fits(s, p) && p.idx <= k <= |s|
    ensures |obs| == Reach(s, p, k)
    decreases k
  {
    if k == p.idx then
      assert PositiveWeights(s[..k]);
      Copies(s[..k]) + Repeat(p.y, p.top + 1 - Weight(s[..k]))
    else
      Spoiler(s, p, k - 1) + Repeat(s[k - 1].value, Reach(s, p, k) - Reach(s, p, k - 1))
  }

  lemma {:induction false} SpoilerGrows(s: seq<Item>, p: Place, k: nat) returns (more: seq<real>)
    requires Fits(s, p) && p.idx < k <= |s|
    ensures Spoiler(s, p, k) == Spoiler(s, p, k - 1) + more && forall y :: y in more ==> y == s[k - 1].value
    ensures IsNew(s, p, k - 1) ==> s[k - 1].value in more
  {
    hide Reach;
    ReachGrows(s, p, k);
    more := Repeat(s[k - 1].value, Reach(s, p, k) - Reach(s, p, k - 1));
    if IsNew(s, p, k - 1) { assert more[0] in more; }
  }

  /** No observation exceeds the last item so far. */
  lemma {:induction false} CopiesAtMost(s: seq<Item>, v: real)
    requires PositiveWeights(s) && forall i :: 0 <= i < |s| ==> s[i].value <= v
    ensures forall y :: y in Copies(s) ==> y <= v
    decreases |s|
  {
    if s != [] { CopiesAtMost(s[..|s| - 1], v); }
  }

  lemma {:induction false} SpoilerAtMost(s: seq<Item>, p: Place, k: nat)
    requires Fits(s, p) && p.idx <= k <= |s|
    ensures forall o :: o in Spoiler(s, p, k) ==> o <= if k == p.idx then p.y else s[k - 1].value
    decreases k
  {
    if k == p.idx {
      CopiesAtMost(s[..k], p.y);
    } else {
      SpoilerAtMost(s, p, k - 1);
    }
  }

  // ----- they are observations the sample may stand for

  lemma {:induction false} CopiesGrow(s: seq<Item>, i: nat) returns (more: seq<real>)
    requires PositiveWeights(s) && 0 < i <= |s|
    ensures PositiveWeights(s[..i]) && PositiveWeights(s[..i - 1])
    ensures Copies(s[..i]) == Copies(s[..i - 1]) + more && (forall y :: y in more ==> y == s[i - 1].value)
    ensures s[i - 1].value in more
  {
    var last := s[i - 1];
    assert s[..i][..i - 1] == s[..i - 1] && s[..i][i - 1] == last;
    more := Repeat(last.value, last.g);
    assert more[0] in more;
  }

  lemma {:induction false} CopiesHold(s: seq<Item>, i: nat, j: nat)
    requires PositiveWeights(s) && Ordered(s) && j < i <= |s|
    ensures PositiveWeights(s[..i])
    ensures var xs := Copies(s[..i]);
            && s[j].value in xs && CountBelow(xs, s[j].value) <= Weight(s[..j])
            && Weight(s[..j + 1]) <= CountAtMost(xs, s[j].value)
    decreases i
  {
    hide Copies, Count;
    var more := CopiesGrow(s, i);
    var xs := Copies(s[..i - 1]);
    BelowAppend(xs, more, s[j].value);
    if j == i - 1 {
      CountMonotone(xs, s[j].value, s[j].value, true);
      CopiesAtMost(s[..i], s[j].value);
      CountAll(Copies(s[..i]), s[j].value);
    } else {
      CopiesHold(s, i - 1, j);
    }
  }

  /** An item in front of the place. */
  lemma {:induction false} FrontHolds(s: seq<Item>, p: Place, k: nat, j: nat)
    requires Fits(s, p) && j < p.idx <= k <= |s|
    ensures var obs := Spoiler(s, p, k);
            && s[j].value in obs && CountBelow(obs, s[j].value) <= Weight(s[..j])
            && Weight(s[..j + 1]) <= CountAtMost(obs, s[j].value)
    decreases k
  {
    hide Count, Copies, Reach;
    if k == p.idx {
      CopiesHold(s, p.idx, j);
      BelowAppend(Copies(s[..k]), Repeat(p.y, p.top + 1 - Weight(s[..k])), s[j].value);
    } else {
      hide Spoiler;
      FrontHolds(s, p, k - 1, j);
      var more := SpoilerGrows(s, p, k);
      BelowAppend(Spoiler(s, p, k - 1), more, s[j].value);
    }
  }

  function Max(a: int, b: int): int {
    if a <= b then b else a
  }

  lemma {:induction false} ReachBounded(s: seq<Item>, p: Place, j: nat)
    requires Fits(s, p) && p.idx <= j < |s|
    ensures Reach(s, p, j + 1) <= Max(Weight(s[..j + 1]), p.top + 2 + Jumps(s, p.idx, j))
    decreases j
  {
    WeightOfPrefix(s, j);
    if p.idx < j { ReachBounded(s, p, j - 1); }
  }

  /** The observations below an item behind the place. */
  lemma {:induction false} BelowBounded(s: seq<Item>, p: Place, j: nat)
    requires Fits(s, p) && p.idx <= j < |s|
    ensures CountBelow(Spoiler(s, p, j), s[j].value) <= Max(Weight(s[..j]), p.top + 1 + Jumps(s, p.idx, j))
    decreases j
  {
    hide Spoiler, Count;
    CountMonotone(Spoiler(s, p, j), s[j].value, s[j].value, true);
    if p.idx < j {
      if s[j - 1].value < s[j].value {
        hide Reach;
        ReachBounded(s, p, j - 1);
      } else {
        hide Reach;
        BelowBounded(s, p, j - 1);
        WeightOfPrefix(s, j - 1);
        var more := SpoilerGrows(s, p, j);
        BelowAppend(Spoiler(s, p, j - 1), more, s[j].value);
        assert s[j - 1].value == s[j].value;
      }
    }
  }

  lemma {:induction false} BehindObserved(s: seq<Item>, p: Place, j: nat)
    requires Fits(s, p) && p.idx <= j < |s|
    ensures s[j].value in Spoiler(s, p, j + 1)
    decreases j
  {
    hide Spoiler, Reach;
    var more := SpoilerGrows(s, p, j + 1);
    if !IsNew(s, p, j) {
      BehindObserved(s, p, j - 1);
      assert s[j - 1].value == s[j].value;
    }
  }

  /** An item behind the place, in all that is observed up to some later one. */
  lemma {:induction false} BehindHolds(s: seq<Item>, p: Place, k: nat, j: nat)
    requires Fits(s, p) && p.idx <= j < k <= |s|
    ensures var obs := Spoiler(s, p, k);
            && s[j].value in obs && Weight(s[..j + 1]) <= CountAtMost(obs, s[j].value)
            && CountBelow(obs, s[j].value) <= Max(Weight(s[..j]), p.top + 1 + Jumps(s, p.idx, j))
    decreases k
  {
    hide Spoiler, Reach, Count, Jumps;
    var more := SpoilerGrows(s, p, k);
    BelowAppend(Spoiler(s, p, k - 1), more, s[j].value);
    if j == k - 1 {
      ReachGrows(s, p, k);
      BelowBounded(s, p, j);
      BehindObserved(s, p, j);
      SpoilerAtMost(s, p, k);
      CountAll(Spoiler(s, p, k), s[j].value);
    } else {
      BehindHolds(s, p, k - 1, j);
    }
  }

  // ----- the guard

  /** No item behind the place has an upper bound that covers it. */
  ghost predicate NotCovered(s: seq<Item>, p: Place) {
    forall j :: p.idx <= j < |s| ==> p.top + 1 + Jumps(s, p.idx, j) < Weight(s[..j + 1]) + s[j].delta
  }

  lemma {:induction false} SpoilerCounts(s: seq<Item>, p: Place)
    requires Fits(s, p) && NotCovered(s, p) && s[|s| - 1].delta == 0
    ensures |Spoiler(s, p, |s|)| == Weight(s)
  {
    hide Spoiler, Reach, Jumps;
    var last := |s| - 1;
    assert p.top + 1 + Jumps(s, p.idx, last) < Weight(s[..last + 1]) + s[last].delta;
    ReachBounded(s, p, last);
    ReachGrows(s, p, |s|);
    assert s[..|s|] == s;
  }

  lemma {:induction false} SpoilerIsSound(qs: seq<Quantile>, s: seq<Item>, p: Place, n: nat)
    requires Fits(s, p) && NotCovered(s, p) && s[|s| - 1].delta == 0 && Weight(s) == n && ErrorBounded(qs, s, n)
    ensures Sound(qs, s, Spoiler(s, p, |s|)) && UpperSound(s, Spoiler(s, p, |s|))
  {
    hide AllowableError, Spoiler, Reach, Jumps, Count;
    var obs := Spoiler(s, p, |s|);
    SpoilerCounts(s, p);
    SpoilerAtMost(s, p, |s|);
    forall j | 0 <= j < |s|
      ensures s[j].value in obs && Weight(s[..j + 1]) <= CountAtMost(obs, s[j].value) && UpperSoundAt(s, j, obs)
    {
      WeightOfPrefix(s, j);
      if j < p.idx { FrontHolds(s, p, |s|, j); } else { BehindHolds(s, p, |s|, j); }
    }
  }

  lemma {:induction false} SpoilerExceeds(s: seq<Item>, p: Place, k: nat, x: real)
    requires Fits(s, p) && p.idx <= k <= |s| && p.y < x
    ensures p.top < CountBelow(Spoiler(s, p, k), x)
    decreases k
  {
    hide Count;
    if k == p.idx {
      SpoilerAtMost(s, p, k);
      AllBelow(Spoiler(s, p, k), x);
    } else {
      hide Spoiler, Reach;
      SpoilerExceeds(s, p, k - 1, x);
      var more := SpoilerGrows(s, p, k);
      BelowAppend(Spoiler(s, p, k - 1), more, x);
    }
  }

  /** The place of a new value, just behind the item in front of it. */
  function PlaceOf(qs: seq<Quantile>, s: seq<Item>, x: real): Place {
    var idx := LowerBound(s, x);
    Place(idx, if idx == 0 then x - 1.0 else (s[idx - 1].value + x) / 2.0, Weight(s[..idx]) + InsertDelta(qs, idx, |s|))
  }

  lemma {:induction false} PlaceFits(qs: seq<Quantile>, s: seq<Item>, x: real)
    requires ValidQuantiles(qs) && PositiveWeights(s) && Ordered(s) && LowerBound(s, x) < |s|
    ensures Fits(s, PlaceOf(qs, s, x)) && PlaceOf(qs, s, x).y < x
  {
    hide InsertDelta;
    InsertDeltaNonNegative(qs, LowerBound(s, x), |s|);
  }

  /** Without the guard there are observations that spoil the bounds. */
  lemma {:induction false} NotCoveredIsSpoilt(qs: seq<Quantile>, s: seq<Item>, x: real, n: nat) returns (obs: seq<real>)
    requires ValidQuantiles(qs) && PositiveWeights(s) && Ordered(s) && Weight(s) == n && ErrorBounded(qs, s, n)
    requires !Covered(qs, s, x) && s[|s| - 1].delta == 0
    ensures Sound(qs, s, obs) && UpperSound(s, obs) && !UpperSound(InsertItem(qs, s, x), obs + [x])
  {
    hide AllowableError, InsertDelta, InsertItem, Spoiler, Reach, Jumps, Count, Sound, UpperSound;
    var p := PlaceOf(qs, s, x);
    PlaceFits(qs, s, x);
    forall j | p.idx <= j < |s|
      ensures p.top + 1 + Jumps(s, p.idx, j) < Weight(s[..j + 1]) + s[j].delta
    {
      assert !CoveredBy(qs, s, p.idx, j);
    }
    obs := Spoiler(s, p, |s|);
    SpoilerIsSound(qs, s, p, n);
    SpoilerExceeds(s, p, |s|, x);
    InsertExactly(qs, s, x, obs);
  }

  /**
    What a sample tells of an insertion: its upper rank bounds survive it, whatever observations the
    sample stands for, if and only if the insertion is covered.
   */
  lemma {:induction false} GuardExactly(qs: seq<Quantile>, s: seq<Item>, x: real, some: seq<real>)
    requires ValidQuantiles(qs) && Sound(qs, s, some)
    ensures Covered(qs, s, x)
            <==> forall obs :: Sound(qs, s, obs) && UpperSound(s, obs) ==> UpperSound(InsertItem(qs, s, x), obs + [x])
  {
    hide AllowableError, InsertDelta, InsertItem, Count, UpperSound;
    if Covered(qs, s, x) {
      forall obs | Sound(qs, s, obs) && UpperSound(s, obs)
        ensures UpperSound(InsertItem(qs, s, x), obs + [x])
      {
        CoveredKeepsUpperSound(qs, s, x, obs);
      }
    } else {
      var obs := NotCoveredIsSpoilt(qs, s, x, |some|);
    }
  }
}
