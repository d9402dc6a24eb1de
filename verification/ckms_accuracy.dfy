/**
  How far the rank of an answer may fall short of the rank asked for, on every run.
 */
module CkmsAccuracy {
  import opened ErrorFunction
  import opened CkmsSample
  import opened CkmsRanks
  import opened Observations

  // ----- the scan

  /** The scan stops in front of the first item that may overshoot the bound, and no item it passed may. */
  lemma {:induction false} ScanStops(s: seq<Item>, k: nat, bound: real)
    requires k < |s|
    ensures var r := Scan(s, k, bound);
            && (r + 1 < |s| ==> (Weight(s[..r + 1]) + s[r + 1].g + s[r + 1].delta) as real > bound)
            && (k < r ==> (Weight(s[..r]) + s[r].g + s[r].delta) as real <= bound)
    decreases |s| - k
  {
    if k + 1 < |s| && (Weight(s[..k + 1]) + s[k + 1].g + s[k + 1].delta) as real <= bound {
      ScanStops(s, k + 1, bound);
    }
  }

  lemma {:induction false} ScaleDown(a: real, b: real, c: real)
    requires 0.0 <= a <= b && 0.0 <= c
    ensures 0.0 <= a * c <= b * c
  {
  }

  lemma {:induction false} DesiredRange(q: real, n: nat)
    requires 0.0 <= q <= 1.0
    ensures 0 <= Desired(q, n) <= n
    ensures q * n as real - 1.0 < Desired(q, n) as real <= q * n as real
  {
    ScaleDown(0.0, q, n as real);
    ScaleDown(q, 1.0, n as real);
  }

  // ----- the lower side, on every run

  /** The answer is the maximum, or its rank falls short of the bound by less than the next item's allowance. */
  lemma {:induction false} LowerRank(qs: seq<Quantile>, s: seq<Item>, obs: seq<real>, bound: real) returns (r: nat)
    requires ValidQuantiles(qs) && Sound(qs, s, obs) && s != []
    ensures r == Scan(s, 0, bound) && s[r].value in obs
    ensures r + 1 == |s| ==> CountAtMost(obs, s[r].value) == |obs|
    ensures r + 1 < |s| ==>
              CountAtMost(obs, s[r].value) as real > bound - AllowableError(qs, Weight(s[..r + 2]), |obs| + 1) - 2.0
  {
    r := Scan(s, 0, bound);
    ScanStops(s, 0, bound);
    assert Weight(s[..r + 1]) <= CountAtMost(obs, s[r].value);
    if r + 1 == |s| {
      CountAll(obs, s[r].value);
    } else {
      assert WithinError(qs, s, r + 1, |obs|);
    }
  }

  /** A target with two slopes. */
  ghost predicate Inner(q: Quantile) {
    q.Valid() && 0.0 < q.quantile < 1.0
  }

  /** Neither slope exceeds 1: the tolerance reaches at most half way to the nearer end. */
  ghost predicate Gradual(q: Quantile) {
    Inner(q) && 2.0 * q.error <= q.quantile && 2.0 * q.error <= 1.0 - q.quantile
  }

  /** The falling slope, u, is below the quantile. */
  ghost predicate Attainable(q: Quantile) {
    Inner(q) && 2.0 * q.error < q.quantile * (1.0 - q.quantile)
  }

  lemma {:induction false} AttainableIsGradual(q: Quantile)
    requires Attainable(q)
    ensures Gradual(q)
  {
    ProductNonNegative(q.quantile, q.quantile);
    ProductNonNegative(1.0 - q.quantile, 1.0 - q.quantile);
  }

  lemma {:induction false} ProductNonNegative(a: real, b: real)
    requires 0.0 <= a && 0.0 <= b
    ensures 0.0 <= a * b
  {
  }

  lemma {:induction false} ScaleStrictly(a: real, b: real, c: real)
    requires a < b && 0.0 < c
    ensures a * c < b * c
  {
  }

  /**
    A rank c among n falls short of the target rank by less than (2e(n + 1) + 3) / (1 - u): twice the
    tolerated error, and more the closer u = 2e / (1 - quantile) comes to 1.
   */
  ghost predicate NotShort(q: Quantile, n: real, c: real)
    requires Inner(q)
  {
    (1.0 - q.u.value) * (q.quantile * n - c) < 2.0 * q.error * (n + 1.0) + 3.0
  }

  /** A share that is less the larger the slopes are. */
  ghost function Reduced(u: real, v: real, h: real): real {
    (1.0 - u) * ((1.0 - v) * h)
  }

  lemma {:induction false} Shrinks(share: real, h: real)
    requires 0.0 <= share <= 1.0 && 0.0 <= h
    ensures 0.0 <= share * h <= h
  {
    ProductNonNegative(share, h);
    ProductNonNegative(1.0 - share, h);
    assert (1.0 - share) * h == h - share * h;
  }

  lemma {:induction false} ReducedBetween(u: real, v: real, h: real)
    requires 0.0 <= u <= 1.0 && 0.0 <= v <= 1.0 && 0.0 <= h
    ensures 0.0 <= Reduced(u, v, h) <= h
  {
    Shrinks(1.0 - v, h);
    Shrinks(1.0 - u, (1.0 - v) * h);
  }

  /** The same with the allowance of the query itself, of which h is the half that its bound is raised by. */
  ghost predicate NotShortBy(q: Quantile, n: real, c: real, h: real)
    requires Inner(q)
  {
    (1.0 - q.u.value) * (q.quantile * n - c) + Reduced(q.u.value, q.v.value, h) < 2.0 * q.error * (n + 1.0) + 3.0
  }

  lemma {:induction false} LessWithout(x: real, y: real, bound: real)
    requires x + y < bound && 0.0 <= y
    ensures x < bound
  {
  }

  lemma {:induction false} SharperIsNotShort(q: Quantile, n: real, c: real, h: real)
    requires Gradual(q) && 0.0 <= h && NotShortBy(q, n, c, h)
    ensures NotShort(q, n, c)
  {
    hide Reduced, Gradual, Inner;
    GradualSlopes(q);
    ReducedBetween(q.u.value, q.v.value, h);
    LessWithout((1.0 - q.u.value) * (q.quantile * n - c), Reduced(q.u.value, q.v.value, h),
                2.0 * q.error * (n + 1.0) + 3.0);
  }

  /**
    Put the other way round, the rank is at least a fixed share of n, (quantile - u) / (1 - u), up to a
    constant. That share is positive exactly for attainable targets.
   */
  lemma {:induction false} NotShortIsShare(q: Quantile, n: real, c: real)
    requires Inner(q)
    ensures NotShort(q, n, c) <==> (q.quantile - q.u.value) * n < (1.0 - q.u.value) * c + 2.0 * q.error + 3.0
    ensures q.u.value < q.quantile <==> Attainable(q)
  {
    var p, e, u := q.quantile, q.error, q.u.value;
    ShareOfN(p, e, u, n, c);
    SlopeBelow(p, e, u);
  }

  lemma {:induction false} DivideStrictly(a: real, b: real, c: real)
    requires 0.0 < c && a * c < b * c
    ensures a < b
  {
    if b < a { ScaleStrictly(b, a, c); }
  }

  lemma {:induction false} SlopeBelow(p: real, e: real, u: real)
    requires p < 1.0 && u * (1.0 - p) == 2.0 * e
    ensures u < p <==> 2.0 * e < p * (1.0 - p)
  {
    if u < p {
      ScaleStrictly(u, p, 1.0 - p);
    } else if u * (1.0 - p) < p * (1.0 - p) {
      DivideStrictly(u, p, 1.0 - p);
    }
  }

  lemma {:induction false} ShareOfN(p: real, e: real, u: real, n: real, c: real)
    requires u * (1.0 - p) == 2.0 * e
    ensures (1.0 - u) * (p * n - c) - 2.0 * e * (n + 1.0) == (p - u) * n - (1.0 - u) * c - 2.0 * e
  {
    assert u * p == u - 2.0 * e;
    Associate(u, p, n);
    assert (1.0 - u) * (p * n - c) == p * n - c - u * (p * n) + u * c;
    assert (u - 2.0 * e) * n == u * n - 2.0 * e * n;
  }

  /** An allowance at rank r among n is on the falling line, or beyond the target and on the rising one. */
  ghost predicate OnLines(q: Quantile, f: real, r: real, n: real)
    requires q.u.Some? && q.v.Some?
  {
    f <= q.u.value * (n - r) || (q.quantile * n < r && f <= q.v.value * r)
  }

  /** A rank that is less than one below the target rank among n and an allowance. */
  ghost predicate ReachesTarget(q: Quantile, n: real, h: real, rank: real) {
    q.quantile * n - 1.0 + h < rank
  }

  lemma {:induction false} DivideOut(a: real, b: real, c: real)
    requires 0.0 < c && a * c <= b * c
    ensures a <= b
  {
    if b < a { ScaleStrictly(b, a, c); }
  }

  lemma {:induction false} SlopeAtMostOne(slope: real, room: real, rise: real)
    requires 0.0 < room && slope * room == rise && rise <= room
    ensures slope <= 1.0
  {
    assert slope * room <= 1.0 * room;
    DivideOut(slope, 1.0, room);
  }

  lemma {:induction false} GradualSlopes(q: Quantile)
    requires Gradual(q)
    ensures Inner(q) && 0.0 <= q.error && q.u.Some? && q.v.Some?
    ensures 0.0 <= q.u.value <= 1.0 && 0.0 <= q.v.value <= 1.0
  {
    SlopeAtMostOne(q.u.value, 1.0 - q.quantile, 2.0 * q.error);
    SlopeAtMostOne(q.v.value, q.quantile, 2.0 * q.error);
  }

  /** Below the target: p falls short of phi n by d, and the falling line at p is at most 2en + ud. */
  lemma {:induction false} ShortfallBelow(phi: real, e: real, u: real, n: real, p: real, f: real, h: real)
    requires 0.0 <= u && u * (1.0 - phi) == 2.0 * e
    requires f <= u * (n - p) && p + f + 2.0 > phi * n - 1.0 + h
    ensures (1.0 - u) * (phi * n - p) + h < 2.0 * e * n + 3.0
  {
    var d := phi * n - p;
    assert n - p == (1.0 - phi) * n + d;
    assert u * (n - p) == u * ((1.0 - phi) * n) + u * d;
    Associate(u, 1.0 - phi, n);
  }

  /** Above the target: one item has less weight than the rising line allows, so p cannot be far below its end. */
  lemma {:induction false} ShortfallAbove(phi: real, e: real, v: real, n: real, p: real, rank: real, h: real)
    requires 0.0 <= v <= 1.0 && v * phi == 2.0 * e
    requires rank - p <= v * rank + 2.0 && phi * n - 1.0 + h < p + v * rank + 2.0
    ensures phi * n - p + (1.0 - v) * h < 2.0 * e * n + 3.0
  {
    var rise, target := v * rank, phi * n;
    Associate(v, phi, n);
    assert v * target == 2.0 * e * n;
    ScaleMonotone(v, rank - rise, p + 2.0);
    Distribute(v, rank, -rise);
    Distribute(v, p, 2.0);
    RoomAbove(v, p, rise, target, h);
  }

  lemma {:induction false} RoomAbove(v: real, p: real, rise: real, target: real, h: real)
    requires 0.0 <= v <= 1.0 && h < p + rise + 3.0 - target && rise - v * rise <= v * p + 2.0 * v
    ensures target - p + (1.0 - v) * h < v * target + 3.0
  {
    Complement(v, h);
    if v < 1.0 {
      ComplementStrictly(v, h, p + rise + 3.0 - target);
      RoomProduct(v, p, rise, target);
    }
    RoomSum(v, p, rise, target, h, v * p, v * rise, v * target, v * h);
  }

  lemma {:induction false} ComplementStrictly(v: real, a: real, b: real)
    requires v < 1.0 && a < b
    ensures a - v * a < b - v * b
  {
    Complement(v, a);
    Complement(v, b);
    ScaleByStrictly(1.0 - v, a, b);
  }

  lemma {:induction false} RoomProduct(v: real, p: real, rise: real, target: real)
    ensures v * (p + rise + 3.0 - target) == v * p + v * rise + 3.0 * v - v * target
  {
  }

  lemma {:induction false} RoomSum(
    v: real, p: real, rise: real, target: real, h: real, vp: real, vrise: real, vtarget: real, vh: real)
    requires 0.0 <= v && rise - vrise <= vp + 2.0 * v
    requires v < 1.0 ==> h - vh < p + rise + 3.0 - target - (vp + vrise + 3.0 * v - vtarget)
    requires v == 1.0 ==> vp == p && vrise == rise && vtarget == target && vh == h
    requires v <= 1.0
    ensures target - p + (h - vh) < vtarget + 3.0
  {
  }

  lemma {:induction false} ScaleByStrictly(c: real, a: real, b: real)
    requires a < b && 0.0 < c
    ensures c * a < c * b
  {
  }

  lemma {:induction false} ScaleEqual(a: real, b: real, c: real)
    requires a == b
    ensures a * c == b * c
  {
  }

  lemma {:induction false} Distribute(v: real, a: real, b: real)
    ensures v * (a + b) == v * a + v * b
  {
  }

  lemma {:induction false} Complement(v: real, a: real)
    ensures (1.0 - v) * a == a - v * a
  {
  }

  lemma {:induction false} WeakenShortfall(u: real, d: real, bound: real)
    requires 0.0 <= u <= 1.0 && d < bound && 0.0 < bound
    ensures (1.0 - u) * d < bound
  {
    if 0.0 <= d {
      ProductNonNegative(u, d);
      assert (1.0 - u) * d == d - u * d;
    } else {
      ProductNonNegative(1.0 - u, -d);
      assert (1.0 - u) * d == -((1.0 - u) * (-d));
    }
  }

  lemma {:induction false} FallingSlope(q: Quantile)
    requires Inner(q)
    ensures q.u.Some? && q.u.value * (1.0 - q.quantile) == 2.0 * q.error
  {
  }

  lemma {:induction false} NotShortBelow(q: Quantile, n: real, p: real, rank: real, f: real, h: real)
    requires Gradual(q) && 0.0 <= n && p + 1.0 <= rank && f <= q.u.value * (n + 1.0 - rank)
    requires ReachesTarget(q, n, h, p + f + 2.0) && 0.0 <= h
    ensures NotShortBy(q, n, p, h)
  {
    hide Reduced, Gradual, Inner, NotShortBy;
    GradualSlopes(q);
    FallingSlope(q);
    ScaleMonotone(q.u.value, n + 1.0 - rank, n - p);
    ShortfallBelow(q.quantile, q.error, q.u.value, n, p, f, h);
    ShortAndReduced(q, n, p, h);
  }

  lemma {:induction false} ShortAndReduced(q: Quantile, n: real, p: real, h: real)
    requires Gradual(q) && 0.0 <= h && (1.0 - q.u.value) * (q.quantile * n - p) + h < 2.0 * q.error * n + 3.0
    ensures NotShortBy(q, n, p, h)
  {
    hide Reduced, Gradual, Inner;
    GradualSlopes(q);
    ReducedBetween(q.u.value, q.v.value, h);
    Distribute(2.0 * q.error, n, 1.0);
  }

  lemma {:induction false} RisingSlope(q: Quantile)
    requires Inner(q)
    ensures q.v.Some? && q.v.value * q.quantile == 2.0 * q.error
  {
  }

  lemma {:induction false} SmallShortfall(e: real, u: real, v: real, n: real, d: real, h: real)
    requires 0.0 <= u <= 1.0 && 0.0 <= e && 0.0 <= n && d + (1.0 - v) * h < 2.0 * e * n + 3.0
    ensures (1.0 - u) * d + Reduced(u, v, h) < 2.0 * e * (n + 1.0) + 3.0
  {
    var x, bound := (1.0 - v) * h, 2.0 * e * n + 3.0;
    ProductNonNegative(2.0 * e, n);
    WeakenShortfall(u, d + x, bound);
    Distribute(1.0 - u, d, x);
    Distribute(2.0 * e, n, 1.0);
  }

  lemma {:induction false} NotShortAbove(q: Quantile, n: real, p: real, rank: real, f: real, h: real)
    requires Gradual(q) && 0.0 <= n && f <= q.v.value * rank && rank - p <= f + 2.0
    requires ReachesTarget(q, n, h, p + f + 2.0) && 0.0 <= h
    ensures NotShortBy(q, n, p, h)
  {
    hide Gradual, Inner, Reduced;
    GradualSlopes(q);
    RisingSlope(q);
    ShortfallAbove(q.quantile, q.error, q.v.value, n, p, rank, h);
    SmallShortfall(q.error, q.u.value, q.v.value, n, q.quantile * n - p, h);
  }

  lemma {:induction false} ItemNotShort(q: Quantile, n: real, p: real, rank: real, f: real, h: real)
    requires Gradual(q) && 0.0 <= n && p + 1.0 <= rank && OnLines(q, f, rank, n + 1.0)
    requires ReachesTarget(q, n, h, p + f + 2.0) && 0.0 <= h && rank - p <= f + 2.0
    ensures NotShortBy(q, n, p, h)
  {
    hide NotShortBy, ReachesTarget;
    if f <= q.u.value * (n + 1.0 - rank) {
      NotShortBelow(q, n, p, rank, f, h);
    } else {
      NotShortAbove(q, n, p, rank, f, h);
    }
  }

  lemma {:induction false} AllowableErrorOnLines(qs: seq<Quantile>, q: Quantile, rank: nat, size: nat)
    requires q in qs && q.Valid() && 0.0 < q.quantile < 1.0
    ensures OnLines(q, AllowableError(qs, rank, size), rank as real, size as real)
  {
    hide AllowableError;
    AllowableErrorAtMostTarget(qs, q, rank, size);
  }

  lemma {:induction false} ItemShortfall(qs: seq<Quantile>, q: Quantile, n: nat, p: nat, g: nat, delta: nat, h: real)
    requires q in qs && Gradual(q) && 1 <= g && p + g <= n && 0.0 <= h
    requires (g + delta) as real <= AllowableError(qs, p + g, n + 1) + 2.0
    requires ReachesTarget(q, n as real, h, (p + g + delta) as real)
    ensures NotShortBy(q, n as real, p as real, h)
  {
    hide AllowableError, NotShortBy, OnLines, ReachesTarget;
    var f := AllowableError(qs, p + g, n + 1);
    AllowableErrorOnLines(qs, q, p + g, n + 1);
    LargerRankReaches(q, n as real, h, (p + g + delta) as real, p as real + f + 2.0);
    ItemNotShort(q, n as real, p as real, (p + g) as real, f, h);
  }

  lemma {:induction false} LargerRankNotShort(q: Quantile, n: real, p: real, c: real, h: real)
    requires Gradual(q) && p <= c && NotShortBy(q, n, p, h)
    ensures NotShortBy(q, n, c, h)
  {
    hide Reduced, Gradual, Inner;
    GradualSlopes(q);
    ScaleMonotone(1.0 - q.u.value, q.quantile * n - c, q.quantile * n - p);
  }

  /** What half the allowance of a query for a target is. */
  ghost predicate SmallAllowance(q: Quantile, n: real, h: real) {
    0.0 <= h <= q.error * n + 1.0
  }

  lemma {:induction false} MaximumNotShort(q: Quantile, n: real, h: real)
    requires Gradual(q) && 0.0 <= n && SmallAllowance(q, n, h)
    ensures NotShortBy(q, n, n, h)
  {
    hide Reduced, Gradual, Inner;
    GradualSlopes(q);
    ProductNonNegative(1.0 - q.quantile, n);
    Complement(q.quantile, n);
    ReducedBetween(q.u.value, q.v.value, h);
    NothingShort(q.error, 1.0 - q.u.value, n, q.quantile * n - n, h);
  }

  lemma {:induction false} NothingShort(e: real, share: real, n: real, d: real, h: real)
    requires 0.0 <= e && 0.0 <= share && 0.0 <= n && d <= 0.0 && h <= e * n + 1.0
    ensures share * d + h < 2.0 * e * (n + 1.0) + 3.0
  {
    ProductNonNegative(e, n);
    ScaleMonotone(share, d, 0.0);
    Distribute(2.0 * e, n, 1.0);
  }

  lemma {:induction false} LargerRankReaches(q: Quantile, n: real, h: real, rank: real, larger: real)
    requires ReachesTarget(q, n, h, rank) && rank <= larger
    ensures ReachesTarget(q, n, h, larger)
  {
  }

  lemma {:induction false} AnswerNotShort(
    qs: seq<Quantile>, q: Quantile, s: seq<Item>, obs: seq<real>, bound: real, h: real)
    requires ValidQuantiles(qs) && q in qs && Gradual(q) && Sound(qs, s, obs) && s != []
    requires ReachesTarget(q, |obs| as real, h, bound) && 0.0 <= h && SmallAllowance(q, |obs| as real, h)
    ensures NotShortBy(q, |obs| as real, CountAtMost(obs, s[Scan(s, 0, bound)].value) as real, h)
  {
    hide AllowableError, NotShortBy, Gradual, ReachesTarget, SmallAllowance;
    var r := LowerRank(qs, s, obs, bound);
    var n, p, c := |obs|, Weight(s[..r + 1]), CountAtMost(obs, s[r].value);
    if r + 1 == |s| {
      MaximumNotShort(q, n as real, h);
    } else {
      ScanStops(s, 0, bound);
      WeightOfPrefix(s, r + 1);
      WeightMonotone(s, 0, r + 1);
      WeightMonotone(s, r + 1, r + 2);
      assert WithinError(qs, s, r + 1, n);
      assert p <= c;
      LargerRankReaches(q, n as real, h, bound, (p + s[r + 1].g + s[r + 1].delta) as real);
      ItemShortfall(qs, q, n, p, s[r + 1].g, s[r + 1].delta, h);
      LargerRankNotShort(q, n as real, p as real, c as real, h);
    }
  }

  /** A query's bound is not below the rank it asks for and half its allowance. */
  lemma {:induction false} QueryBoundReaches(qs: seq<Quantile>, q: Quantile, n: nat, size: nat)
    requires ValidQuantiles(qs) && q.Valid()
    ensures ReachesTarget(q, n as real, HalfAllowance(qs, q, n, size), QueryBound(qs, Desired(q.quantile, n), size))
    ensures 0.0 <= HalfAllowance(qs, q, n, size)
  {
    hide AllowableError;
    DesiredRange(q.quantile, n);
    AllowableErrorNonNegative(qs, Desired(q.quantile, n), size);
  }

  /** What a query for a target raises its bound by. */
  ghost function HalfAllowance(qs: seq<Quantile>, q: Quantile, n: nat, size: nat): real {
    AllowableError(qs, Desired(q.quantile, n), size) / 2.0
  }

  lemma {:induction false} SlopeTimes(u: real, x: real, e: real, n: real)
    requires u * x == e
    ensures u * (x * n) == e * n
  {
    Associate(u, x, n);
    ScaleEqual(u * x, e, n);
  }

  lemma {:induction false} Spread(u: real, rest: real, room: real)
    ensures u * (rest + 1.0 - room) == u * rest + u - u * room
  {
  }

  lemma {:induction false} LineAllowance(u: real, room: real, rest: real, en: real)
    requires 0.0 <= u <= 1.0 && room <= rest + 1.0 && u * rest == en
    ensures u * room <= en + 1.0
  {
    ProductNonNegative(u, rest + 1.0 - room);
    Spread(u, rest, room);
  }

  lemma {:induction false} FallingAllowance(phi: real, e: real, u: real, n: real, d: real, size: real)
    requires 0.0 <= u <= 1.0 && u * (1.0 - phi) == 2.0 * e && phi * n - 1.0 < d && size <= n
    ensures u * (size - d) <= 2.0 * e * n + 1.0
  {
    Complement(phi, n);
    SlopeTimes(u, 1.0 - phi, 2.0 * e, n);
    LineAllowance(u, size - d, (1.0 - phi) * n, 2.0 * e * n);
  }

  lemma {:induction false} RisingAllowance(phi: real, e: real, v: real, n: real, d: real)
    requires 0.0 <= v && v * phi == 2.0 * e && d <= phi * n
    ensures v * d <= 2.0 * e * n
  {
    SlopeTimes(v, phi, 2.0 * e, n);
    BelowOnLine(v, d, phi * n, 2.0 * e * n);
  }

  lemma {:induction false} BelowOnLine(v: real, d: real, target: real, en: real)
    requires 0.0 <= v && d <= target && v * target == en
    ensures v * d <= en
  {
    ScaleMonotone(v, d, target);
  }

  lemma {:induction false} HalfAllowanceAtMost(qs: seq<Quantile>, q: Quantile, n: nat, size: nat)
    requires ValidQuantiles(qs) && q in qs && Gradual(q) && size <= n
    ensures SmallAllowance(q, n as real, HalfAllowance(qs, q, n, size))
  {
    hide AllowableError, Desired, Gradual;
    var d := Desired(q.quantile, n);
    GradualSlopes(q);
    FallingSlope(q);
    RisingSlope(q);
    DesiredRange(q.quantile, n);
    FallingAllowance(q.quantile, q.error, q.u.value, n as real, d as real, size as real);
    RisingAllowance(q.quantile, q.error, q.v.value, n as real, d as real);
    AllowableErrorAtMostTarget(qs, q, d, size);
    AllowableErrorNonNegative(qs, d, size);
  }

  lemma {:induction false} SizeAtMostCount(qs: seq<Quantile>, s: seq<Item>, obs: seq<real>)
    requires Sound(qs, s, obs)
    ensures |s| <= |obs|
  {
    WeightAtLeastLength(s);
  }

  /** The answer of a sound sample to a query for a target, with the allowance of the query. */
  lemma {:induction false} QueryNotShort(qs: seq<Quantile>, q: Quantile, s: seq<Item>, obs: seq<real>)
    requires ValidQuantiles(qs) && q in qs && Gradual(q) && Sound(qs, s, obs) && s != []
    ensures var bound := QueryBound(qs, Desired(q.quantile, |obs|), |s|);
            NotShortBy(q, |obs| as real, CountAtMost(obs, s[Scan(s, 0, bound)].value) as real,
                       HalfAllowance(qs, q, |obs|, |s|))
  {
    hide QueryBound, Desired, HalfAllowance, SmallAllowance, NotShortBy, Sound;
    SizeAtMostCount(qs, s, obs);
    QueryBoundReaches(qs, q, |obs|, |s|);
    HalfAllowanceAtMost(qs, q, |obs|, |s|);
    AnswerNotShort(qs, q, s, obs, QueryBound(qs, Desired(q.quantile, |obs|), |s|), HalfAllowance(qs, q, |obs|, |s|));
  }

  lemma {:induction false} SettledRun(qs: seq<Quantile>, ops: seq<Op>)
    requires ValidQuantiles(qs)
    ensures var st, obs := Settle(qs, Run(qs, ops)), Observed(ops);
            st.count == |obs| && st.buffer == [] && Sound(qs, st.sample, obs)
  {
    EveryRunDescribes(qs, ops);
    SettleKeepsDescribes(qs, Run(qs, ops), Observed(ops));
    assert Observed(ops)[..|Observed(ops)|] == Observed(ops);
  }

  /**
    What a query for any quantile promises from below: all of the n observations are at most its answer,
    or more than its bound less the error allowed to the next item of the sample and 2.
   */
  ghost predicate NotShortOfBound(qs: seq<Quantile>, s: seq<Item>, q: real, n: nat, atMost: nat)
    requires s != []
  {
    var bound := QueryBound(qs, Desired(q, n), |s|);
    var r := Scan(s, 0, bound);
    if r + 1 == |s| then atMost == n
    else atMost as real > bound - AllowableError(qs, Weight(s[..r + 2]), n + 1) - 2.0
  }

  lemma {:induction false} QueryNotShortOfBound(qs: seq<Quantile>, s: seq<Item>, q: real, obs: seq<real>)
    requires ValidQuantiles(qs) && Sound(qs, s, obs) && s != []
    ensures var answer := s[Scan(s, 0, QueryBound(qs, Desired(q, |obs|), |s|))].value;
            answer in obs && NotShortOfBound(qs, s, q, |obs|, CountAtMost(obs, answer))
  {
    hide AllowableError, Desired;
    var _ := LowerRank(qs, s, obs, QueryBound(qs, Desired(q, |obs|), |s|));
  }

  /**
    On every run and for every quantile, configured or not: nothing exactly when nothing was observed,
    otherwise an observation whose rank is not short of the bound of the query.
   */
  lemma {:induction false} EveryQueryGuarantee(qs: seq<Quantile>, ops: seq<Op>, q: real)
    requires ValidQuantiles(qs) && 0.0 <= q <= 1.0
    ensures var st, obs := Settle(qs, Run(qs, ops)), Observed(ops);
            var answer := Answer(qs, st, q);
            && (answer.None? <==> obs == []) && (st.sample == [] <==> obs == [])
            && (answer.Some? ==>
                  && answer.value in obs
                  && NotShortOfBound(qs, st.sample, q, |obs|, CountAtMost(obs, answer.value)))
  {
    hide AllowableError, Desired, NotShortOfBound;
    var st, obs := Settle(qs, Run(qs, ops)), Observed(ops);
    SettledRun(qs, ops);
    if st.sample != [] {
      QueryNotShortOfBound(qs, st.sample, q, obs);
    }
  }

  /**
    On every run, a query for a configured target returns an observation, or nothing exactly when
    nothing was observed, and its rank is not short of the target rank and what the query allows itself.
   */
  lemma {:induction false} LowerRankGuarantee(qs: seq<Quantile>, ops: seq<Op>, q: Quantile)
    requires ValidQuantiles(qs) && q in qs && Gradual(q)
    ensures var st, obs := Settle(qs, Run(qs, ops)), Observed(ops);
            var answer := Answer(qs, st, q.quantile);
            && (answer.None? <==> obs == [])
            && (answer.Some? ==> && answer.value in obs
                                 && NotShort(q, |obs| as real, CountAtMost(obs, answer.value) as real)
                                 && NotShortBy(q, |obs| as real, CountAtMost(obs, answer.value) as real,
                                               HalfAllowance(qs, q, |obs|, |st.sample|)))
  {
    hide AllowableError, NotShort, NotShortBy, HalfAllowance, Desired;
    var st, obs := Settle(qs, Run(qs, ops)), Observed(ops);
    SettledRun(qs, ops);
    if st.sample != [] {
      var bound := QueryBound(qs, Desired(q.quantile, |obs|), |st.sample|);
      var r := LowerRank(qs, st.sample, obs, bound);
      QueryBoundReaches(qs, q, |obs|, |st.sample|);
      QueryNotShort(qs, q, st.sample, obs);
      SharperIsNotShort(
        q, |obs| as real, CountAtMost(obs, st.sample[r].value) as real, HalfAllowance(qs, q, |obs|, |st.sample|));
    }
  }
}
