/** The sliding time window: a ring of estimators that is rotated lazily, whenever it is used. */
module TimeWindow {
  import opened Options
  import opened ErrorFunction
  import opened Observations
  import opened CkmsSample
  import opened CkmsRanks
  import opened CkmsAccuracy
  import opened CkmsUpper
  import opened CkmsEstimator
  import W = WindowRing

  class TimeWindowQuantiles {
    const quantiles: seq<Quantile>
    const ckmsQuantiles: seq<CkmsQuantiles>
    const rotationInterval: int
    var currentBucket: nat
    var lastRotation: int

    ghost const start: int               // the time of creation
    ghost const repr: set<object>        // the estimators and their buffers
    ghost var history: seq<W.Op>         // every insertion and query so far, with its time

    ghost function Configuration(): W.Config {
      W.Config(|ckmsQuantiles|, rotationInterval, start)
    }

    /** The estimators are valid and share no memory. */
    ghost predicate Separate()
      reads repr
    {
      && (forall i :: 0 <= i < |ckmsQuantiles| ==> ckmsQuantiles[i] in repr && ckmsQuantiles[i].buffer in repr)
      && (forall i, j :: 0 <= i < j < |ckmsQuantiles| ==>
           ckmsQuantiles[i] != ckmsQuantiles[j] && ckmsQuantiles[i].buffer != ckmsQuantiles[j].buffer)
      && (forall i :: 0 <= i < |ckmsQuantiles| ==> ckmsQuantiles[i].Valid() && ckmsQuantiles[i].quantiles == quantiles)
    }

    /** The estimators have been fed what the buckets of the ring hold. */
    ghost predicate Mirrors(r: W.Ring)
      reads this, ckmsQuantiles
    {
      && |r.buckets| == |ckmsQuantiles|
      && At(r)
      && forall i :: 0 <= i < |ckmsQuantiles| ==> ckmsQuantiles[i].observed == r.buckets[i]
    }

    ghost predicate At(r: W.Ring)
      reads this
    {
      currentBucket == r.current < |ckmsQuantiles| && lastRotation == r.lastRotation
    }

    ghost predicate Valid()
      reads this, repr, ckmsQuantiles
    {
      && Configuration().Valid()
      && this !in repr
      && Separate()
      && W.Clocked(Configuration(), history)
      && Mirrors(W.Run(Configuration(), history))
    }

    /** The observations a query at the given time is about. */
    ghost function Window(now: int): seq<real>
      requires Configuration().Valid()
      reads this
    {
      W.Since(Configuration(), history, W.EpochAt(Configuration(), now) - |ckmsQuantiles| + 1)
    }

    constructor (quantiles: seq<Quantile>, maxAge: int, ageBuckets: int, now: int)
      requires ValidQuantiles(quantiles) && 1 <= ageBuckets && 1 <= maxAge / ageBuckets
      ensures Valid() && fresh(repr) && history == []
      ensures this.quantiles == quantiles
      ensures Configuration() == W.Config(ageBuckets, maxAge / ageBuckets, now)
    {
      hide CkmsQuantiles.Valid, W.Run, W.Clocked;
      NothingHappened(W.Config(ageBuckets, maxAge / ageBuckets, now));
      var buckets: seq<CkmsQuantiles> := [];
      ghost var objects: set<object> := {};
      for n := 0 to ageBuckets
        invariant |buckets| == n && fresh(objects)
        invariant forall i :: 0 <= i < n ==> buckets[i] in objects && buckets[i].buffer in objects
        invariant forall i, j :: 0 <= i < j < n ==> buckets[i] != buckets[j] && buckets[i].buffer != buckets[j].buffer
        invariant forall i :: 0 <= i < n ==>
                    buckets[i].Valid() && buckets[i].quantiles == quantiles && buckets[i].observed == []
      {
        var bucket := new CkmsQuantiles(quantiles);
        buckets := buckets + [bucket];
        objects := objects + {bucket, bucket.buffer};
      }
      this.quantiles := quantiles;
      ckmsQuantiles := buckets;
      rotationInterval := maxAge / ageBuckets;
      currentBucket := 0;
      lastRotation := now;
      start := now;
      repr := objects;
      history := [];
    }

    /** Within the epoch of the last call no rotation is due. */
    lemma {:induction false} NoRotationDue(now: int)
      requires Valid() && W.LastTime(Configuration(), history) <= now
      requires W.EpochAt(Configuration(), now) == W.EpochAt(Configuration(), W.LastTime(Configuration(), history))
      ensures now - lastRotation <= rotationInterval
    {
      hide TimeWindowQuantiles.Separate, W.Run;
      var cfg := Configuration();
      var epoch := W.EpochAt(cfg, now);
      W.EveryRunHolds(cfg, history);
      W.EpochRange(cfg, now - start);
      assert (epoch + 1) * rotationInterval == epoch * rotationInterval + rotationInterval;
    }

    /** The state of a bucket. */
    ghost function Bucket(i: nat): State
      requires Separate() && i < |ckmsQuantiles|
      reads repr
    {
      ckmsQuantiles[i].Snapshot()
    }

    /** A bucket whose answers are not beyond their bounds, one into which nothing was merged for example. */
    ghost predicate GuardedBucket(i: nat)
      requires Separate() && i < |ckmsQuantiles|
      reads repr
    {
      Guarded(quantiles, Bucket(i), ckmsQuantiles[i].observed)
    }

    lemma {:induction false} NothingMergedIsGuarded(i: nat)
      requires Separate() && i < |ckmsQuantiles| && ckmsQuantiles[i].sample == []
      ensures GuardedBucket(i)
    {
    }

    /** One round of the loop that rotates. */
    method RotateOnce(ghost r: W.Ring)
      requires Configuration().Valid() && Separate() && this !in repr && W.Shaped(Configuration(), r) && Mirrors(r)
      modifies `currentBucket, `lastRotation, repr
      ensures Separate() && Mirrors(W.RotateOnce(Configuration(), r))
      ensures lastRotation == old(lastRotation) + rotationInterval
      ensures forall i :: 0 <= i < |ckmsQuantiles| && old(GuardedBucket(i)) ==> GuardedBucket(i)
    {
      hide CkmsQuantiles.Valid;
      ckmsQuantiles[currentBucket].Reset();
      currentBucket := currentBucket + 1;
      if currentBucket >= |ckmsQuantiles| {
        currentBucket := 0;
      }
      lastRotation := lastRotation + rotationInterval;
    }

    /** Reset and leave the current bucket once for every whole interval that has passed. */
    method Rotate(now: int) returns (current: CkmsQuantiles)
      requires Valid() && W.LastTime(Configuration(), history) <= now
      modifies this, repr
      ensures history == old(history) && Separate()
      ensures Mirrors(W.Rotate(Configuration(), W.Run(Configuration(), history), now))
      ensures currentBucket < |ckmsQuantiles| && current == ckmsQuantiles[currentBucket]
      ensures forall i :: 0 <= i < |ckmsQuantiles| && old(GuardedBucket(i)) ==> GuardedBucket(i)
      ensures now - old(lastRotation) <= rotationInterval ==>
                && currentBucket == old(currentBucket) && lastRotation == old(lastRotation)
                && forall i :: 0 <= i < |ckmsQuantiles| ==> Bucket(i) == old(Bucket(i))
    {
      hide CkmsQuantiles.Valid, TimeWindowQuantiles.Separate, W.Run, W.Clocked;
      ghost var cfg := Configuration();
      ghost var goal := W.Rotate(cfg, W.Run(cfg, history), now);
      ghost var r := W.Run(cfg, history);
      var delta := now - lastRotation;
      if delta <= rotationInterval {
        return ckmsQuantiles[currentBucket];
      }
      while delta > rotationInterval
        invariant delta == now - lastRotation && history == old(history)
        invariant Separate()
        invariant forall i :: 0 <= i < |ckmsQuantiles| && old(GuardedBucket(i)) ==> GuardedBucket(i)
        invariant W.Shaped(cfg, r) && Mirrors(r) && W.Rotate(cfg, r, now) == goal
        decreases delta
      {
        RotateOnce(r);
        delta := delta - rotationInterval;
        r := W.RotateOnce(cfg, r);
      }
      current := ckmsQuantiles[currentBucket];
    }

    /** The loop over all buckets. */
    method Feed(value: real)
      requires Separate() && this !in repr
      modifies repr
      ensures Separate()
      ensures forall i :: 0 <= i < |ckmsQuantiles| ==>
                ckmsQuantiles[i].observed == old(ckmsQuantiles[i].observed) + [value]
    {
      hide CkmsQuantiles.Valid;
      for i := 0 to |ckmsQuantiles|
        invariant Separate()
        invariant forall j :: 0 <= j < i ==> ckmsQuantiles[j].observed == old(ckmsQuantiles[j].observed) + [value]
        invariant forall j :: i <= j < |ckmsQuantiles| ==> ckmsQuantiles[j].observed == old(ckmsQuantiles[j].observed)
      {
        ckmsQuantiles[i].Insert(value);
      }
    }

    /** Feed a value to every bucket. */
    method Insert(now: int, value: real)
      requires Valid() && W.LastTime(Configuration(), history) <= now
      modifies this, repr
      ensures Valid()
      ensures history == old(history) + [W.Observe(now, value)]
    {
      hide CkmsQuantiles.Valid, W.Rotate, W.Run, W.Clocked, TimeWindowQuantiles.Separate;
      ghost var cfg := Configuration();
      var _ := Rotate(now);
      ghost var r := W.Rotate(cfg, W.Run(cfg, history), now);
      Feed(value);
      assert Mirrors(W.Feed(r, value));
      Extend(cfg, history, W.Observe(now, value));
      history := history + [W.Observe(now, value)];
    }

    /** A query of the current bucket. */
    method Ask(q: real) returns (answer: Option<real>)
      requires Separate() && this !in repr && currentBucket < |ckmsQuantiles| && 0.0 <= q <= 1.0
      modifies repr
      ensures Separate()
      ensures forall i :: 0 <= i < |ckmsQuantiles| ==> ckmsQuantiles[i].observed == old(ckmsQuantiles[i].observed)
      ensures Bucket(currentBucket) == Settle(quantiles, old(Bucket(currentBucket)))
      ensures answer == Answer(quantiles, Bucket(currentBucket), q) && Ordered(Bucket(currentBucket).sample)
      ensures Meets(quantiles, Bucket(currentBucket).sample, q, ckmsQuantiles[currentBucket].observed, answer,
                    old(GuardedBucket(currentBucket)))
      ensures forall i :: 0 <= i < |ckmsQuantiles| && old(GuardedBucket(i)) ==> GuardedBucket(i)
    {
      hide Meets, Guarded, Settle, Answer, Ordered;
      var current := ckmsQuantiles[currentBucket];
      answer := current.Get(q);
      SampleIsOrdered(current);
    }

    /**
      The answer of the current bucket: it is about the observations of the last epochs and no others.
      There is none exactly when the window is empty. As long as no rotation is due, the next answer
      comes from the state that this one leaves.
     */
    method Get(now: int, q: real) returns (answer: Option<real>)
      requires Valid() && W.LastTime(Configuration(), history) <= now && 0.0 <= q <= 1.0
      modifies this, repr
      ensures Valid()
      ensures history == old(history) + [W.Query(now)]
      ensures forall t :: Window(t) == old(Window(t))
      ensures currentBucket < |ckmsQuantiles|
      ensures Meets(quantiles, Bucket(currentBucket).sample, q, Window(now), answer, false)
      ensures forall i :: i == currentBucket && old(GuardedBucket(i)) ==>
                Meets(quantiles, Bucket(i).sample, q, Window(now), answer, true)
      ensures forall i :: 0 <= i < |ckmsQuantiles| && old(GuardedBucket(i)) ==> GuardedBucket(i)
      ensures answer == Answer(quantiles, Bucket(currentBucket), q) && Ordered(Bucket(currentBucket).sample)
      ensures now - old(lastRotation) <= rotationInterval ==>
                && currentBucket == old(currentBucket) && lastRotation == old(lastRotation)
                && Bucket(currentBucket) == Settle(quantiles, old(Bucket(currentBucket)))
    {
      hide CkmsQuantiles.Valid, Meets, Guarded, Settle, Answer, Ordered;
      hide TimeWindowQuantiles.Separate, W.Rotate, W.Run, W.Since, W.EpochAt, W.Clocked;
      ghost var cfg := Configuration();
      W.QueriedBucketIsWindow(cfg, history, now);
      var current := Rotate(now);
      assert current.observed == Window(now);
      answer := Ask(q);
      MeetsWithout(quantiles, Bucket(currentBucket).sample, q, Window(now), answer);
      Extend(cfg, history, W.Query(now));
      history := history + [W.Query(now)];
    }
  }

  lemma {:induction false} NothingHappened(cfg: W.Config)
    requires cfg.Valid()
    ensures W.Clocked(cfg, []) && W.Run(cfg, []) == W.Fresh(cfg)
  {
  }

  lemma {:induction false} MeetsWithout(
    qs: seq<Quantile>, s: seq<Item>, q: real, obs: seq<real>, answer: Option<real>)
    ensures Meets(qs, s, q, obs, answer, true) ==> Meets(qs, s, q, obs, answer, false)
  {
    hide NotShort, NotBeyond, NotShortOfBound, NotBeyondBound, Gradual, FirstInReach, Count;
  }

  lemma {:induction false} SampleIsOrdered(ckms: CkmsQuantiles)
    requires ckms.Valid()
    ensures Ordered(ckms.Snapshot().sample)
  {
    hide Ordered;
  }

  lemma {:induction false} Extend(cfg: W.Config, ops: seq<W.Op>, op: W.Op)
    requires cfg.Valid() && W.Clocked(cfg, ops) && W.LastTime(cfg, ops) <= op.now
    ensures W.Clocked(cfg, ops + [op])
    ensures W.Run(cfg, ops + [op]) == W.Step(cfg, W.Run(cfg, ops), op)
    ensures op.Query? ==> forall first :: W.Since(cfg, ops + [op], first) == W.Since(cfg, ops, first)
  {
    assert (ops + [op])[..|ops|] == ops;
  }
}
