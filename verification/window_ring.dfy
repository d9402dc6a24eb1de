/**
  The sliding time window as a ring of observation lists that is rotated from a clock,
  and the log of operations it has to agree with.
 */
module WindowRing {

  /** The number of buckets, the time each of them is the current one, and the time of creation. */
  datatype Config = Config(buckets: nat, interval: int, start: int) {
    ghost predicate Valid() {
      1 <= buckets && 1 <= interval
    }
  }

  /** What each bucket has been fed since it was last reset. */
  datatype Ring = Ring(buckets: seq<seq<real>>, current: nat, lastRotation: int)

  datatype Op = Observe(now: int, value: real) | Query(now: int)

  function Wrap(i: nat, n: nat): nat {
    if i < n then i else if i < n + n then i - n else 0
  }

  ghost predicate Shaped(cfg: Config, r: Ring) {
    |r.buckets| == cfg.buckets && r.current < cfg.buckets
  }

  function RotateOnce(cfg: Config, r: Ring): (r': Ring)
    requires cfg.Valid() && Shaped(cfg, r)
    ensures Shaped(cfg, r')
  {
    Ring(r.buckets[r.current := []], Wrap(r.current + 1, cfg.buckets), r.lastRotation + cfg.interval)
  }

  function Rotate(cfg: Config, r: Ring, now: int): (r': Ring)
    requires cfg.Valid() && Shaped(cfg, r)
    ensures Shaped(cfg, r')
    decreases if now < r.lastRotation then 0 else now - r.lastRotation
  {
    if now - r.lastRotation <= cfg.interval then r else Rotate(cfg, RotateOnce(cfg, r), now)
  }

  /** Every bucket is fed every observation. */
  function Feed(r: Ring, value: real): (r': Ring)
    ensures |r'.buckets| == |r.buckets| && r'.current == r.current
  {
    r.(buckets := seq(|r.buckets|, i requires 0 <= i < |r.buckets| => r.buckets[i] + [value]))
  }

  function Step(cfg: Config, r: Ring, op: Op): (r': Ring)
    requires cfg.Valid() && Shaped(cfg, r)
    ensures Shaped(cfg, r')
  {
    match op
    case Observe(now, value) => Feed(Rotate(cfg, r, now), value)
    case Query(now) => Rotate(cfg, r, now)
  }

  function Fresh(cfg: Config): (r: Ring)
    requires cfg.Valid()
    ensures Shaped(cfg, r)
  {
    Ring(seq(cfg.buckets, _ => []), 0, cfg.start)
  }

  function Run(cfg: Config, ops: seq<Op>): (r: Ring)
    requires cfg.Valid()
    ensures Shaped(cfg, r)
  {
    if ops == [] then Fresh(cfg) else Step(cfg, Run(cfg, ops[..|ops| - 1]), ops[|ops| - 1])
  }

  // ----- the specification: a window over the log

  /** How many whole intervals lie behind a point in time; an epoch includes its end. */
  function Epoch(cfg: Config, elapsed: int): nat
    requires cfg.Valid()
    decreases if elapsed < 0 then 0 else elapsed
  {
    if elapsed <= cfg.interval then 0 else 1 + Epoch(cfg, elapsed - cfg.interval)
  }

  function EpochAt(cfg: Config, now: int): nat
    requires cfg.Valid()
  {
    Epoch(cfg, now - cfg.start)
  }

  function LastTime(cfg: Config, ops: seq<Op>): int {
    if ops == [] then cfg.start else ops[|ops| - 1].now
  }

  /** The clock never runs backwards. */
  ghost predicate Clocked(cfg: Config, ops: seq<Op>) {
    && (forall i :: 0 <= i < |ops| ==> cfg.start <= ops[i].now)
    && (forall i, j :: 0 <= i < j < |ops| ==> ops[i].now <= ops[j].now)
  }

  predicate InWindow(cfg: Config, op: Op, first: int)
    requires cfg.Valid()
  {
    op.Observe? && first <= EpochAt(cfg, op.now)
  }

  /** The values observed in the given epoch or later, in order. */
  function Since(cfg: Config, ops: seq<Op>, first: int): seq<real>
    requires cfg.Valid()
  {
    if ops == [] then []
    else
      var before, op := Since(cfg, ops[..|ops| - 1], first), ops[|ops| - 1];
      if InWindow(cfg, op, first) then before + [op.value] else before
  }

  lemma {:induction false} EpochRange(cfg: Config, elapsed: int)
    requires cfg.Valid() && 0 <= elapsed
    ensures elapsed <= (Epoch(cfg, elapsed) + 1) * cfg.interval
    ensures 0 < Epoch(cfg, elapsed) ==> Epoch(cfg, elapsed) * cfg.interval < elapsed
    decreases elapsed
  {
    if cfg.interval < elapsed {
      EpochRange(cfg, elapsed - cfg.interval);
    }
  }

  lemma {:induction false} EpochMonotone(cfg: Config, a: int, b: int)
    requires cfg.Valid() && a <= b
    ensures Epoch(cfg, a) <= Epoch(cfg, b)
    decreases if b < 0 then 0 else b
  {
    if cfg.interval < a {
      EpochMonotone(cfg, a - cfg.interval, b - cfg.interval);
    }
  }

  // ----- the invariant of the ring

  /** Counted from the current bucket on, each bucket holds one epoch less of the log than the one before. */
  ghost predicate HoldsEpochs(cfg: Config, r: Ring, ops: seq<Op>, epoch: nat)
    requires cfg.Valid() && Shaped(cfg, r)
  {
    && r.lastRotation == cfg.start + epoch * cfg.interval
    && (forall i :: 0 <= i < |ops| ==> EpochAt(cfg, ops[i].now) <= epoch)
    && forall d :: 0 <= d < cfg.buckets ==> BucketHolds(cfg, r, ops, d, epoch)
  }

  ghost predicate BucketHolds(cfg: Config, r: Ring, ops: seq<Op>, d: nat, epoch: nat)
    requires cfg.Valid() && Shaped(cfg, r) && d < cfg.buckets
  {
    r.buckets[Wrap(r.current + d, cfg.buckets)] == Since(cfg, ops, epoch + d - cfg.buckets + 1)
  }

  lemma {:induction false} SinceFuture(cfg: Config, ops: seq<Op>, epoch: nat)
    requires cfg.Valid() && forall i :: 0 <= i < |ops| ==> EpochAt(cfg, ops[i].now) <= epoch
    ensures Since(cfg, ops, epoch + 1) == []
    decreases |ops|
  {
    if ops != [] { SinceFuture(cfg, ops[..|ops| - 1], epoch); }
  }

  lemma {:induction false} RotateOnceHolds(cfg: Config, r: Ring, ops: seq<Op>, epoch: nat)
    requires cfg.Valid() && Shaped(cfg, r) && HoldsEpochs(cfg, r, ops, epoch)
    ensures HoldsEpochs(cfg, RotateOnce(cfg, r), ops, epoch + 1)
  {
    var r', n, next := RotateOnce(cfg, r), cfg.buckets, epoch + 1;
    assert (epoch + 1) * cfg.interval == epoch * cfg.interval + cfg.interval;
    forall d | 0 <= d < n
      ensures BucketHolds(cfg, r', ops, d, next)
    {
      if d == n - 1 {
        SinceFuture(cfg, ops, epoch);
        assert Wrap(r'.current + d, n) == r.current;
      } else {
        assert BucketHolds(cfg, r, ops, d + 1, epoch);
        assert Wrap(r'.current + d, n) == Wrap(r.current + d + 1, n) != r.current;
      }
    }
  }

  lemma {:induction false} RotateHolds(cfg: Config, r: Ring, ops: seq<Op>, epoch: nat, now: int)
    requires cfg.Valid() && Shaped(cfg, r) && HoldsEpochs(cfg, r, ops, epoch)
    ensures HoldsEpochs(cfg, Rotate(cfg, r, now), ops, epoch + Epoch(cfg, now - r.lastRotation))
    decreases if now < r.lastRotation then 0 else now - r.lastRotation
  {
    if cfg.interval < now - r.lastRotation {
      RotateOnceHolds(cfg, r, ops, epoch);
      RotateHolds(cfg, RotateOnce(cfg, r), ops, epoch + 1, now);
    }
  }

  lemma {:induction false} EpochShift(cfg: Config, elapsed: int, k: nat)
    requires cfg.Valid() && (k == 0 || k * cfg.interval < elapsed)
    ensures Epoch(cfg, elapsed) == k + Epoch(cfg, elapsed - k * cfg.interval)
    decreases k
  {
    if 0 < k {
      assert k * cfg.interval == (k - 1) * cfg.interval + cfg.interval;
      assert 0 <= (k - 1) * cfg.interval;
      EpochShift(cfg, elapsed - cfg.interval, k - 1);
    }
  }

  lemma {:induction false} FeedHolds(cfg: Config, r: Ring, ops: seq<Op>, epoch: nat, now: int, value: real)
    requires cfg.Valid() && Shaped(cfg, r) && HoldsEpochs(cfg, r, ops, epoch) && EpochAt(cfg, now) == epoch
    ensures HoldsEpochs(cfg, Feed(r, value), ops + [Observe(now, value)], epoch)
  {
    var r', ops', n := Feed(r, value), ops + [Observe(now, value)], cfg.buckets;
    forall d | 0 <= d < n
      ensures BucketHolds(cfg, r', ops', d, epoch)
    {
      assert BucketHolds(cfg, r, ops, d, epoch);
      assert ops'[..|ops|] == ops;
    }
  }

  lemma {:induction false} QueryHolds(cfg: Config, r: Ring, ops: seq<Op>, epoch: nat, now: int)
    requires cfg.Valid() && Shaped(cfg, r) && HoldsEpochs(cfg, r, ops, epoch) && EpochAt(cfg, now) == epoch
    ensures HoldsEpochs(cfg, r, ops + [Query(now)], epoch)
  {
    var ops', n := ops + [Query(now)], cfg.buckets;
    forall d | 0 <= d < n
      ensures BucketHolds(cfg, r, ops', d, epoch)
    {
      assert BucketHolds(cfg, r, ops, d, epoch);
      assert ops'[..|ops|] == ops;
    }
  }

  lemma {:induction false} FreshHolds(cfg: Config)
    requires cfg.Valid()
    ensures HoldsEpochs(cfg, Fresh(cfg), [], 0)
  {
    var r := Fresh(cfg);
    forall d | 0 <= d < cfg.buckets
      ensures BucketHolds(cfg, r, [], d, 0)
    {
    }
  }

  lemma {:induction false} RotateToNow(cfg: Config, ops: seq<Op>, now: int)
    requires cfg.Valid() && Clocked(cfg, ops) && LastTime(cfg, ops) <= now && cfg.start <= now
    requires HoldsEpochs(cfg, Run(cfg, ops), ops, EpochAt(cfg, LastTime(cfg, ops)))
    ensures HoldsEpochs(cfg, Rotate(cfg, Run(cfg, ops), now), ops, EpochAt(cfg, now))
  {
    var r, last := Run(cfg, ops), LastTime(cfg, ops);
    var epoch := EpochAt(cfg, last);
    RotateHolds(cfg, r, ops, epoch, now);
    EpochRange(cfg, last - cfg.start);
    EpochShift(cfg, now - cfg.start, epoch);
  }

  /** After every run the ring holds the log, epoch by epoch. */
  lemma {:induction false} EveryRunHolds(cfg: Config, ops: seq<Op>)
    requires cfg.Valid() && Clocked(cfg, ops)
    ensures HoldsEpochs(cfg, Run(cfg, ops), ops, EpochAt(cfg, LastTime(cfg, ops)))
    decreases |ops|
  {
    if ops == [] {
      FreshHolds(cfg);
    } else {
      var init, op := ops[..|ops| - 1], ops[|ops| - 1];
      EveryRunHolds(cfg, init);
      RotateToNow(cfg, init, op.now);
      var r := Rotate(cfg, Run(cfg, init), op.now);
      assert init + [op] == ops;
      match op {
        case Observe(now, value) => FeedHolds(cfg, r, init, EpochAt(cfg, now), now, value);
        case Query(now) => QueryHolds(cfg, r, init, EpochAt(cfg, now), now);
      }
    }
  }

  // ----- the window as seen by a query

  function QueriedBucket(cfg: Config, ops: seq<Op>, now: int): seq<real>
    requires cfg.Valid()
  {
    var r := Rotate(cfg, Run(cfg, ops), now);
    r.buckets[r.current]
  }

  lemma {:induction false} EpochDistance(cfg: Config, t: int, now: int, n: nat)
    requires cfg.Valid() && cfg.start <= t <= now && 1 <= n
    ensures now - t <= (n - 1) * cfg.interval ==> EpochAt(cfg, now) - n + 1 <= EpochAt(cfg, t)
    ensures EpochAt(cfg, now) - n + 1 <= EpochAt(cfg, t) ==> now - t <= n * cfg.interval
  {
    var I, e, k := cfg.interval, EpochAt(cfg, t), EpochAt(cfg, now);
    EpochRange(cfg, t - cfg.start);
    EpochRange(cfg, now - cfg.start);
    assert (e + 1 + (n - 1)) * I == (e + 1) * I + (n - 1) * I;
    assert (e + n) * I == e * I + n * I;
    if e < k - n + 1 {
      EpochProducts(e + 1 + (n - 1), k, I);
    } else {
      EpochProducts(k + 1, e + n, I);
    }
  }

  lemma {:induction false} EpochProducts(a: int, b: int, i: int)
    requires a <= b && 0 <= i
    ensures a * i <= b * i
  {
  }

  /** After every run, the bucket a query at `now` reads holds exactly the observations of the last epochs. */
  lemma {:induction false} QueriedBucketIsWindow(cfg: Config, ops: seq<Op>, now: int)
    requires cfg.Valid() && Clocked(cfg, ops) && LastTime(cfg, ops) <= now
    ensures QueriedBucket(cfg, ops, now) == Since(cfg, ops, EpochAt(cfg, now) - cfg.buckets + 1)
  {
    assert cfg.start <= LastTime(cfg, ops);
    EveryRunHolds(cfg, ops);
    RotateToNow(cfg, ops, now);
    assert BucketHolds(cfg, Rotate(cfg, Run(cfg, ops), now), ops, 0, EpochAt(cfg, now));
  }

  /**
    The window misses no observation that is at most all but one interval old, and contains none
    that is older than the configured maximum age.
   */
  lemma {:induction false} SlidingWindow(cfg: Config, maxAge: int, ops: seq<Op>, now: int)
    requires cfg.Valid() && cfg.interval == maxAge / cfg.buckets
    requires Clocked(cfg, ops) && LastTime(cfg, ops) <= now
    ensures var first := EpochAt(cfg, now) - cfg.buckets + 1;
            && QueriedBucket(cfg, ops, now) == Since(cfg, ops, first)
            && forall i :: 0 <= i < |ops| && ops[i].Observe? ==>
                 && (now - ops[i].now <= (cfg.buckets - 1) * cfg.interval ==> InWindow(cfg, ops[i], first))
                 && (InWindow(cfg, ops[i], first) ==> now - ops[i].now <= cfg.buckets * cfg.interval <= maxAge)
  {
    var n, first := cfg.buckets, EpochAt(cfg, now) - cfg.buckets + 1;
    QueriedBucketIsWindow(cfg, ops, now);
    assert n * (maxAge / n) <= maxAge;
    forall i | 0 <= i < |ops| && ops[i].Observe?
      ensures now - ops[i].now <= (n - 1) * cfg.interval ==> InWindow(cfg, ops[i], first)
      ensures InWindow(cfg, ops[i], first) ==> now - ops[i].now <= n * cfg.interval
    {
      EpochDistance(cfg, ops[i].now, now, n);
    }
  }

  // ----- lazy and eager rotation

  lemma {:induction false} RotateTwice(cfg: Config, r: Ring, a: int, b: int)
    requires cfg.Valid() && Shaped(cfg, r) && a <= b
    ensures Rotate(cfg, Rotate(cfg, r, a), b) == Rotate(cfg, r, b)
    decreases if a < r.lastRotation then 0 else a - r.lastRotation
  {
    if cfg.interval < a - r.lastRotation {
      RotateTwice(cfg, RotateOnce(cfg, r), a, b);
    }
  }

  /** A ring that is rotated at every tick of the clock. */
  function RotateEveryTick(cfg: Config, r: Ring, start: int, end: int): (r': Ring)
    requires cfg.Valid() && Shaped(cfg, r)
    ensures Shaped(cfg, r')
    decreases if start < end then end - start else 0
  {
    if end <= start then r else RotateEveryTick(cfg, Rotate(cfg, r, start + 1), start + 1, end)
  }

  /** Rotating only when the window is used leaves it as if it had been rotated at every tick. */
  lemma {:induction false} LazyIsEager(cfg: Config, r: Ring, start: int, end: int)
    requires cfg.Valid() && Shaped(cfg, r) && start < end
    ensures RotateEveryTick(cfg, r, start, end) == Rotate(cfg, r, end)
    decreases end - start
  {
    if start + 1 < end {
      LazyIsEager(cfg, Rotate(cfg, r, start + 1), start + 1, end);
      RotateTwice(cfg, r, start + 1, end);
    }
  }
}
