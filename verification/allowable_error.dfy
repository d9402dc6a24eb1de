/**
  The error function of the CKMS estimator: how far, in ranks, a sample item may be
  off when it sits at a given rank of a sample of a given size.
 */
module ErrorFunction {
  import opened Options

  /**
    A targeted quantile with its tolerated error and the two slopes derived from them.
    A slope is None where the division of doubles gives infinity or NaN.
   */
  datatype Quantile = Quantile(quantile: real, error: real, u: Option<real>, v: Option<real>) {
    /** The slopes are the ones the constructor computes. */
    ghost predicate Valid() {
      && 0.0 <= quantile <= 1.0 && 0.0 <= error
      && (if quantile == 1.0 then u == None else u.Some? && 0.0 <= u.value && u.value * (1.0 - quantile) == 2.0 * error)
      && (if quantile == 0.0 then v == None else v.Some? && 0.0 <= v.value && v.value * quantile == 2.0 * error)
    }
  }

  function Target(quantile: real, error: real): (q: Quantile)
    requires 0.0 <= quantile <= 1.0 && 0.0 <= error
    ensures q.quantile == quantile && q.error == error && q.Valid()
  {
    Quantile(quantile, error,
             if quantile == 1.0 then None else Some(2.0 * error / (1.0 - quantile)),
             if quantile == 0.0 then None else Some(2.0 * error / quantile))
  }

  ghost predicate ValidQuantiles(qs: seq<Quantile>) {
    forall q :: q in qs ==> q.Valid()
  }

  /**
    The error one target allows. None is an infinite or NaN double, which never is
    the minimum that the caller keeps.
   */
  function TargetError(q: Quantile, rank: int, size: nat): Option<real> {
    if rank as real <= q.quantile * size as real then
      if q.u.None? then None else Some(q.u.value * (size - rank) as real)
    else
      if q.v.None? then None else Some(q.v.value * rank as real)
  }

  /** The smaller of a running minimum and an error that may be infinite. */
  function Smaller(error: Option<real>, minError: real): real {
    if error.Some? && error.value < minError then error.value else minError
  }

  function AllowableError(qs: seq<Quantile>, rank: int, size: nat): real {
    if qs == [] then (size + 1) as real
    else Smaller(TargetError(qs[|qs| - 1], rank, size), AllowableError(qs[..|qs| - 1], rank, size))
  }

  /** The loop of the source, with its running minimum. */
  method ComputeAllowableError(qs: seq<Quantile>, rank: int, size: nat) returns (minError: real)
    ensures minError == AllowableError(qs, rank, size)
    ensures minError <= (size + 1) as real
    ensures forall q :: q in qs && TargetError(q, rank, size).Some? ==> minError <= TargetError(q, rank, size).value
    ensures minError == (size + 1) as real || exists q :: q in qs && TargetError(q, rank, size) == Some(minError)
  {
    minError := (size + 1) as real;
    for i := 0 to |qs|
      invariant minError == AllowableError(qs[..i], rank, size)
      invariant minError <= (size + 1) as real
      invariant forall q :: q in qs[..i] && TargetError(q, rank, size).Some? ==>
                  minError <= TargetError(q, rank, size).value
      invariant minError == (size + 1) as real
                || exists q :: q in qs[..i] && TargetError(q, rank, size) == Some(minError)
    {
      assert qs[..i + 1][..i] == qs[..i];
      assert forall q :: q in qs[..i + 1] <==> q in qs[..i] || q == qs[i];
      assert qs[i] in qs[..i + 1];
      var error := TargetError(qs[i], rank, size);
      if error.Some? && error.value < minError {
        minError := error.value;
      }
    }
    assert qs[..|qs|] == qs;
  }

  // ----- the error of one target is the larger of its two lines

  lemma {:induction false} ScaleMonotone(c: real, a: real, b: real)
    requires 0.0 <= c && a <= b
    ensures c * a <= c * b
  {
  }

  /** At the target both lines meet: a rank below it is governed by the falling line, a rank above by the rising one. */
  lemma {:induction false} LinesCross(q: Quantile, rank: int, size: nat)
    requires q.Valid() && 0.0 < q.quantile < 1.0
    ensures rank as real <= q.quantile * size as real ==>
              q.v.value * rank as real <= 2.0 * q.error * size as real <= q.u.value * (size - rank) as real
    ensures rank as real > q.quantile * size as real ==>
              q.u.value * (size - rank) as real <= 2.0 * q.error * size as real <= q.v.value * rank as real
  {
    var u, v := q.u.value, q.v.value;
    assert u * (1.0 - q.quantile) == 2.0 * q.error;
    assert v * q.quantile == 2.0 * q.error;
    assert (size - rank) as real == size as real - rank as real;
    LinesMeet(q.quantile, 2.0 * q.error, u, v, size as real, rank as real);
  }

  lemma {:induction false} LinesMeet(p: real, e: real, u: real, v: real, n: real, r: real)
    requires 0.0 <= u && 0.0 <= v && u * (1.0 - p) == e && v * p == e
    ensures r <= p * n ==> v * r <= e * n <= u * (n - r)
    ensures r > p * n ==> u * (n - r) <= e * n <= v * r
  {
    Associate(u, 1.0 - p, n);
    Associate(v, p, n);
    var a, b := p * n, (1.0 - p) * n;
    assert b == n - a;
    if r <= a {
      ScaleMonotone(v, r, a);
      ScaleMonotone(u, b, n - r);
    } else {
      ScaleMonotone(v, a, r);
      ScaleMonotone(u, n - r, b);
    }
  }

  lemma {:induction false} Associate(a: real, b: real, c: real)
    ensures a * (b * c) == (a * b) * c
  {
  }

  /** The error of a target is the larger of the line falling towards the end and the line rising from the start. */
  lemma {:induction false} TargetErrorIsLargerLine(q: Quantile, rank: int, size: nat)
    requires q.Valid() && 0.0 < q.quantile < 1.0
    ensures TargetError(q, rank, size).Some?
    ensures var falling, rising := q.u.value * (size - rank) as real, q.v.value * rank as real;
            TargetError(q, rank, size).value == if falling < rising then rising else falling
  {
    LinesCross(q, rank, size);
  }

  // ----- monotonicity

  /** An order in which None is infinite. */
  ghost predicate AtMost(a: Option<real>, b: Option<real>) {
    b.None? || (a.Some? && a.value <= b.value)
  }

  lemma {:induction false} QuantileTimesSize(q: Quantile, size: nat)
    requires q.Valid()
    ensures 0.0 <= q.quantile * size as real <= size as real
  {
    ScaleMonotone(size as real, 0.0, q.quantile);
    ScaleMonotone(size as real, q.quantile, 1.0);
  }

  lemma {:induction false} FallingLineBelow(q: Quantile, r: nat, n: nat, x: real)
    requires q.Valid() && 0.0 < q.quantile < 1.0 && x <= (n - r) as real
    ensures AtMost(Some(q.u.value * x), TargetError(q, r, n))
  {
    TargetErrorIsLargerLine(q, r, n);
    ScaleMonotone(q.u.value, x, (n - r) as real);
  }

  lemma {:induction false} RisingLineBelow(q: Quantile, r: nat, n: nat, x: real)
    requires q.Valid() && 0.0 < q.quantile < 1.0 && x <= r as real
    ensures AtMost(Some(q.v.value * x), TargetError(q, r, n))
  {
    TargetErrorIsLargerLine(q, r, n);
    ScaleMonotone(q.v.value, x, r as real);
  }

  lemma {:induction false} TargetErrorBelow(q: Quantile, r: nat, n: nat, bound: Option<real>)
    requires q.Valid() && 0.0 < q.quantile < 1.0
    requires AtMost(Some(q.u.value * (n - r) as real), bound) && AtMost(Some(q.v.value * r as real), bound)
    ensures AtMost(TargetError(q, r, n), bound)
  {
  }

  lemma {:induction false} EdgeTargetErrorMonotone(q: Quantile, r: nat, n: nat, r': nat, n': nat)
    requires q.Valid() && (q.quantile == 0.0 || q.quantile == 1.0)
    requires r <= n && r <= r' && n - r <= n' - r'
    ensures AtMost(TargetError(q, r, n), TargetError(q, r', n'))
  {
    if q.quantile == 0.0 && r' == 0 {
      ScaleMonotone(q.u.value, n as real, n' as real);
    }
  }

  lemma {:induction false} TargetErrorMonotone(q: Quantile, r: nat, n: nat, r': nat, n': nat)
    requires q.Valid() && r <= n && r <= r' && n - r <= n' - r'
    ensures AtMost(TargetError(q, r, n), TargetError(q, r', n'))
  {
    if 0.0 < q.quantile < 1.0 {
      FallingLineBelow(q, r', n', (n - r) as real);
      RisingLineBelow(q, r', n', r as real);
      TargetErrorBelow(q, r, n, TargetError(q, r', n'));
    } else {
      EdgeTargetErrorMonotone(q, r, n, r', n');
    }
  }

  /**
    Moving an item to a larger rank without bringing it closer to the end never lowers
    its allowance. This is what makes the sample index and sample size, which the code
    uses, conservative stand-ins for the true rank and the true count.
   */
  lemma {:induction false} AllowableErrorMonotone(qs: seq<Quantile>, r: nat, n: nat, r': nat, n': nat)
    requires ValidQuantiles(qs)
    requires r <= n && r <= r' && n - r <= n' - r'
    ensures AllowableError(qs, r, n) <= AllowableError(qs, r', n')
    decreases |qs|
  {
    if qs != [] {
      var init := qs[..|qs| - 1];
      AllowableErrorMonotone(init, r, n, r', n');
      TargetErrorMonotone(qs[|qs| - 1], r, n, r', n');
    }
  }

  lemma {:induction false} TargetErrorNonNegative(q: Quantile, r: nat, n: nat)
    requires q.Valid()
    ensures AtMost(Some(0.0), TargetError(q, r, n))
  {
    QuantileTimesSize(q, n);
    if q.u.Some? && r <= n { ScaleMonotone(q.u.value, 0.0, (n - r) as real); }
    if q.v.Some? { ScaleMonotone(q.v.value, 0.0, r as real); }
  }

  lemma {:induction false} AllowableErrorNonNegative(qs: seq<Quantile>, r: nat, n: nat)
    requires ValidQuantiles(qs)
    ensures 0.0 <= AllowableError(qs, r, n)
    decreases |qs|
  {
    if qs != [] {
      AllowableErrorNonNegative(qs[..|qs| - 1], r, n);
      TargetErrorNonNegative(qs[|qs| - 1], r, n);
    }
  }

  /** The allowance is no more than what any configured target grants. */
  lemma {:induction false} AllowableErrorAtMostTarget(qs: seq<Quantile>, q: Quantile, r: int, n: nat)
    requires q in qs && TargetError(q, r, n).Some?
    ensures AllowableError(qs, r, n) <= TargetError(q, r, n).value
    decreases |qs|
  {
    if q != qs[|qs| - 1] {
      AllowableErrorAtMostTarget(qs[..|qs| - 1], q, r, n);
    }
  }

  lemma {:induction false} AllowableErrorAtMostSize(qs: seq<Quantile>, r: int, n: nat)
    ensures AllowableError(qs, r, n) <= (n + 1) as real
    decreases |qs|
  {
    if qs != [] { AllowableErrorAtMostSize(qs[..|qs| - 1], r, n); }
  }

  lemma {:induction false} TargetErrorFloor(q: Quantile, r: nat, n: nat, e: real)
    requires q.Valid() && e <= q.error && r <= n
    ensures AtMost(Some(2.0 * e * n as real), TargetError(q, r, n))
  {
    ScaleMonotone(n as real, 2.0 * e, 2.0 * q.error);
    if 0.0 < q.quantile < 1.0 {
      LinesCross(q, r, n);
    } else {
      QuantileTimesSize(q, n);
    }
  }

  /** No rank of a sample of size n is allowed less than 2en, with e a lower bound of the configured errors. */
  lemma {:induction false} AllowableErrorFloor(qs: seq<Quantile>, r: nat, n: nat, e: real)
    requires ValidQuantiles(qs) && r <= n
    requires 0.0 <= e <= 0.5 && forall q :: q in qs ==> e <= q.error
    ensures 2.0 * e * n as real <= AllowableError(qs, r, n)
    decreases |qs|
  {
    if qs == [] {
      ScaleMonotone(n as real, 2.0 * e, 1.0);
    } else {
      AllowableErrorFloor(qs[..|qs| - 1], r, n, e);
      TargetErrorFloor(qs[|qs| - 1], r, n, e);
    }
  }
}
