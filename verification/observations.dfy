/** Lists of observed values: how many are at most or below a value, and what they add up to. */
module Observations {

  ghost predicate Ascends(xs: seq<real>) {
    forall i, j :: 0 <= i < j < |xs| ==> xs[i] <= xs[j]
  }

  ghost predicate StrictlySorted(xs: seq<real>) {
    forall i, j :: 0 <= i < j < |xs| ==> xs[i] < xs[j]
  }

  predicate Counts(x: real, v: real, strictly: bool) {
    if strictly then x < v else x <= v
  }

  function Count(obs: seq<real>, v: real, strictly: bool): nat {
    if obs == [] then 0
    else Count(obs[..|obs| - 1], v, strictly) + if Counts(obs[|obs| - 1], v, strictly) then 1 else 0
  }

  /** The number of observations that are at most v. */
  function CountAtMost(obs: seq<real>, v: real): nat {
    Count(obs, v, false)
  }

  /** The number of observations that are below v. */
  function CountBelow(obs: seq<real>, v: real): nat {
    Count(obs, v, true)
  }

  lemma {:induction false} CountAppend(a: seq<real>, b: seq<real>, v: real, strictly: bool)
    ensures Count(a + b, v, strictly) == Count(a, v, strictly) + Count(b, v, strictly)
    decreases |b|
  {
    if b == [] {
      assert a + b == a;
    } else {
      var init := b[..|b| - 1];
      assert (a + b)[..|a + b| - 1] == a + init;
      CountAppend(a, init, v, strictly);
    }
  }

  lemma {:induction false} CountSnoc(a: seq<real>, x: real, v: real, strictly: bool)
    ensures Count(a + [x], v, strictly) == Count(a, v, strictly) + if Counts(x, v, strictly) then 1 else 0
  {
    assert (a + [x])[..|a|] == a;
  }

  lemma {:induction false} TakeOut(b: seq<real>, j: nat)
    requires j < |b|
    ensures multiset(b) == multiset(b[..j] + b[j + 1..]) + multiset{b[j]}
  {
    assert b == b[..j] + ([b[j]] + b[j + 1..]);
  }

  lemma {:induction false} RemoveOne(a: seq<real>, b: seq<real>, j: nat)
    requires a != [] && multiset(a) == multiset(b) && j < |b| && b[j] == a[|a| - 1]
    ensures multiset(a[..|a| - 1]) == multiset(b[..j] + b[j + 1..])
  {
    var x, init, rest := b[j], a[..|a| - 1], b[..j] + b[j + 1..];
    assert a == init + [x];
    assert multiset(a) == multiset(init) + multiset{x};
    TakeOut(b, j);
    assert multiset(init) == multiset(a) - multiset{x};
    assert multiset(rest) == multiset(b) - multiset{x};
  }

  lemma {:induction false} CountWithout(b: seq<real>, j: nat, v: real, strictly: bool)
    requires j < |b|
    ensures Count(b, v, strictly)
            == Count(b[..j] + b[j + 1..], v, strictly) + if Counts(b[j], v, strictly) then 1 else 0
  {
    assert b == b[..j] + [b[j]] + b[j + 1..];
    CountAppend(b[..j], b[j + 1..], v, strictly);
    CountAppend(b[..j] + [b[j]], b[j + 1..], v, strictly);
    CountSnoc(b[..j], b[j], v, strictly);
  }

  lemma {:induction false} CountPermutation(a: seq<real>, b: seq<real>, v: real, strictly: bool)
    requires multiset(a) == multiset(b)
    ensures Count(a, v, strictly) == Count(b, v, strictly)
    decreases |a|
  {
    assert |a| == |multiset(a)| == |multiset(b)| == |b|;
    if a != [] {
      assert a[|a| - 1] in multiset(b);
      var j :| 0 <= j < |b| && b[j] == a[|a| - 1];
      RemoveOne(a, b, j);
      CountPermutation(a[..|a| - 1], b[..j] + b[j + 1..], v, strictly);
      CountWithout(b, j, v, strictly);
    }
  }

  lemma {:induction false} CountMonotone(obs: seq<real>, v: real, w: real, strictly: bool)
    requires v <= w
    ensures Count(obs, v, strictly) <= Count(obs, w, strictly) <= |obs|
    decreases |obs|
  {
    if obs != [] { CountMonotone(obs[..|obs| - 1], v, w, strictly); }
  }

  lemma {:induction false} CountAll(obs: seq<real>, v: real)
    requires forall x :: x in obs ==> x <= v
    ensures CountAtMost(obs, v) == |obs|
    decreases |obs|
  {
    if obs != [] {
      assert obs[|obs| - 1] in obs;
      var init := obs[..|obs| - 1];
      forall x | x in init
        ensures x <= v
      {
        assert x in obs;
      }
      CountAll(init, v);
    }
  }

  lemma {:induction false} NoneBelow(obs: seq<real>, v: real)
    ensures CountBelow(obs, v) == 0 <==> forall x :: x in obs ==> v <= x
  {
    if obs != [] {
      var init, last := obs[..|obs| - 1], obs[|obs| - 1];
      NoneBelow(init, v);
      assert obs == init + [last];
      assert last in obs && forall x :: x in obs <==> x in init || x == last;
    }
  }

  function Repeat<T>(x: T, n: nat): (xs: seq<T>)
    ensures |xs| == n && forall i :: 0 <= i < n ==> xs[i] == x
  {
    seq(n, _ => x)
  }

  function Sum(xs: seq<real>): real {
    if xs == [] then 0.0 else Sum(xs[..|xs| - 1]) + xs[|xs| - 1]
  }

  lemma {:induction false} SumExtend(xs: seq<real>, x: real)
    ensures Sum(xs + [x]) == Sum(xs) + x
  {
    assert (xs + [x])[..|xs|] == xs;
  }
}
