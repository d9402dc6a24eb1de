/** The streaming quantile estimator itself: an object whose sample and buffer are updated in place. */
module CkmsEstimator {
  import opened Options
  import opened ErrorFunction
  import opened CkmsSample
  import opened CkmsRanks
  import opened CkmsUpper

  class CkmsQuantiles {
    const quantiles: seq<Quantile>
    const buffer: array<real>
    var count: nat
    var sample: seq<Item>
    var bufferCount: nat
    ghost var observed: seq<real>  // the observations since the last reset

    function CurrentState(): State
      requires bufferCount <= buffer.Length
      reads this, buffer
    {
      State(sample, count, buffer[..bufferCount])
    }

    ghost predicate Valid()
      reads this, buffer
    {
      && ValidQuantiles(quantiles)
      && bufferCount < buffer.Length == BUFFER_SIZE
      && Describes(quantiles, CurrentState(), observed)
    }

    /** The state between two calls. */
    ghost function Snapshot(): (st: State)
      requires Valid()
      reads this, buffer
      ensures st.sample == sample
    {
      CurrentState()
    }

    constructor (quantiles: seq<Quantile>)
      requires ValidQuantiles(quantiles)
      ensures Valid() && fresh(buffer)
      ensures this.quantiles == quantiles && CurrentState() == EMPTY && observed == []
    {
      this.quantiles := quantiles;
      buffer := new real[BUFFER_SIZE];
      count, sample, bufferCount, observed := 0, [], 0, [];
    }

    method Insert(value: real)
      requires Valid()
      modifies this, buffer
      ensures Valid()
      ensures observed == old(observed) + [value]
      ensures CurrentState() == CkmsSample.Insert(quantiles, old(CurrentState()), value)
    {
      ghost var st := CurrentState();
      InsertKeepsDescribes(quantiles, st, observed, value);
      buffer[bufferCount] := value;
      bufferCount := bufferCount + 1;
      observed := observed + [value];
      assert CurrentState() == st.(buffer := st.buffer + [value]);
      if bufferCount == buffer.Length {
        var _ := InsertBatch();
        Compress();
      }
    }

    /**
      The answer to a rank query: nothing exactly when nothing was observed, otherwise an observation
      that is not short of the bound of the query. If the state was guarded it stays so, and the answer
      is not beyond that bound either.
     */
    method Get(q: real) returns (r: Option<real>)
      requires Valid() && 0.0 <= q <= 1.0
      modifies this, buffer
      ensures Valid() && observed == old(observed)
      ensures CurrentState() == Settle(quantiles, old(CurrentState()))
      ensures r == Answer(quantiles, CurrentState(), q)
      ensures Meets(quantiles, sample, q, observed, r, old(Guarded(quantiles, CurrentState(), observed)))
      ensures old(Guarded(quantiles, CurrentState(), observed)) ==> Guarded(quantiles, CurrentState(), observed)
    {
      hide AllowableError, Settle, Answer, Meets, Guarded, Sound, Scan, Desired;
      QueryOf(quantiles, CurrentState(), observed, q);
      ghost var settled := Settle(quantiles, CurrentState());
      SettleInSteps(quantiles, CurrentState());
      var _ := InsertBatch();
      Compress();
      assert CurrentState() == settled;
      AnswerOf(quantiles, settled, q);
      if |sample| == 0 {
        return None;
      }

      var desired := Desired(q, count);
      var allowed := ComputeAllowableError(quantiles, desired, |sample|);
      var bound := desired as real + allowed / 2.0;
      var value := StopAt(bound);
      return Some(value);
    }

    /** Scan the sample for the last item before the first that may overshoot the bound. */
    method StopAt(bound: real) returns (value: real)
      requires sample != []
      ensures value == sample[Scan(sample, 0, bound)].value
    {
      var rankMin := 0;
      var cur, it := 0, 1;
      while it < |sample|
        invariant it == cur + 1 <= |sample|
        invariant rankMin == Weight(sample[..cur])
        invariant Scan(sample, 0, bound) == Scan(sample, cur, bound)
      {
        var prev := cur;
        cur, it := it, it + 1;
        WeightOfPrefix(sample, prev);
        rankMin := rankMin + sample[prev].g;
        if (rankMin + sample[cur].g + sample[cur].delta) as real > bound {
          return sample[prev].value;
        }
      }
      return sample[|sample| - 1].value;
    }

    method Reset()
      requires Valid()
      modifies this
      ensures Valid() && observed == [] && CurrentState() == EMPTY
    {
      count, sample, bufferCount, observed := 0, [], 0, [];
    }

    /** The standard library's sort of the filled part of the buffer. */
    method SortBuffer()
      requires bufferCount <= buffer.Length
      modifies buffer
      ensures buffer[..bufferCount] == Sorted(old(buffer[..bufferCount]))
    {
      var sorted := Sorted(buffer[..bufferCount]);
      SortedKeeps(buffer[..bufferCount]);
      forall i | 0 <= i < bufferCount {
        buffer[i] := sorted[i];
      }
    }

    /** Insert one value in front of the first item that is not less, with the uncertainty its index allows. */
    method InsertValue(value: real)
      modifies this`sample, this`count
      ensures sample == InsertItem(quantiles, old(sample), value) && count == old(count) + 1
    {
      var idx := LowerBound(sample, value);
      var delta := 0;
      if 0 < idx < |sample| {
        var allowed := ComputeAllowableError(quantiles, idx + 1, |sample|);
        delta := allowed.Floor + 1;
      }
      sample := sample[..idx] + [Item(value, 1, delta)] + sample[idx..];
      count := count + 1;
    }

    /** Merge the buffered values into the sample, one by one in ascending order. */
    method InsertBatch() returns (inserted: bool)
      requires bufferCount <= buffer.Length
      modifies this, buffer
      ensures observed == old(observed)
      ensures bufferCount == 0 && CurrentState() == Flush(quantiles, old(CurrentState()))
      ensures inserted == (old(bufferCount) != 0)
    {
      hide InsertItem, AllowableError, Sorted;
      ghost var before, values := sample, Sorted(buffer[..bufferCount]);
      SortedKeeps(buffer[..bufferCount]);
      if bufferCount == 0 {
        return false;
      }
      SortBuffer();

      var start := 0;
      if |sample| == 0 {
        FirstItem(quantiles, values);
        sample := [Item(buffer[0], 1, 0)];
        start := 1;
        count := count + 1;
      }
      assert values[..0] == [];

      for i := start to bufferCount
        invariant bufferCount == |values| == old(bufferCount) && buffer[..bufferCount] == values
        invariant sample == InsertItems(quantiles, before, values[..i])
        invariant count == old(count) + i
        invariant observed == old(observed)
      {
        assert values[..i + 1][..i] == values[..i] && buffer[i] == values[i];
        InsertValue(buffer[i]);
      }
      assert values[..|values|] == values;
      bufferCount := 0;
      return true;
    }

    /** Merge neighbours that together stay within the error allowed at their index. */
    method Compress()
      requires bufferCount <= buffer.Length
      modifies this`sample
      ensures sample == CkmsSample.Compress(quantiles, old(sample))
    {
      hide AllowableError, Keep, CompressFrom;
      if |sample| < 2 {
        return;
      }
      var compressed := [sample[0]];
      var logicalSize := |sample|;
      StartCompress(quantiles, sample);
      for idx := 1 to |sample|
        invariant compressed != []
        invariant sample == old(sample)
        invariant logicalSize == |compressed| + |sample| - idx
        invariant CkmsSample.Compress(quantiles, sample) == CompressFrom(quantiles, compressed, sample[idx..])
      {
        var current := sample[idx];
        var last := compressed[|compressed| - 1];
        var logicalIndex := |compressed|;
        CompressFromNext(quantiles, sample, idx, compressed);
        KeepCases(quantiles, compressed, current, |sample| - idx - 1);
        var allowed := ComputeAllowableError(quantiles, logicalIndex, logicalSize);
        if (last.g + current.g + current.delta) as real <= allowed {
          var mergedG := last.g + current.g;
          compressed := compressed[|compressed| - 1 := current.(g := mergedG)];
          logicalSize := logicalSize - 1;
        } else {
          compressed := compressed + [current];
        }
      }
      FinishCompress(quantiles, sample, compressed);
      sample := compressed;
    }
  }

  lemma {:induction false} StartCompress(qs: seq<Quantile>, s: seq<Item>)
    requires 2 <= |s|
    ensures Compress(qs, s) == CompressFrom(qs, [s[0]], s[1..])
  {
    assert s[..1] == [s[0]];
  }

  lemma {:induction false} FinishCompress(qs: seq<Quantile>, s: seq<Item>, kept: seq<Item>)
    requires kept != []
    ensures CompressFrom(qs, kept, s[|s|..]) == kept
  {
  }

  lemma {:induction false} KeepCases(qs: seq<Quantile>, kept: seq<Item>, item: Item, later: nat)
    requires kept != []
    ensures var last := kept[|kept| - 1];
            Keep(qs, kept, item, later)
            == if (last.g + item.g + item.delta) as real <= AllowableError(qs, |kept|, |kept| + 1 + later)
               then kept[|kept| - 1 := item.(g := last.g + item.g)]
               else kept + [item]
  {
    hide AllowableError;
  }

  lemma {:induction false} FirstItem(qs: seq<Quantile>, sorted: seq<real>)
    requires sorted != []
    ensures InsertItems(qs, [], sorted[..1]) == [Item(sorted[0], 1, 0)]
  {
    assert sorted[..1][..0] == [];
    assert InsertItem(qs, [], sorted[0]) == [Item(sorted[0], 1, 0)];
  }

  /** What a query of a state that describes observations leaves and answers. */
  lemma {:induction false} QueryOf(qs: seq<Quantile>, st: State, obs: seq<real>, q: real)
    requires ValidQuantiles(qs) && Describes(qs, st, obs) && 0.0 <= q <= 1.0
    ensures var t := Settle(qs, st);
            && Describes(qs, t, obs) && t.count == |obs| && t.buffer == []
            && Meets(qs, t.sample, q, obs, Answer(qs, t, q), Guarded(qs, st, obs))
            && (Guarded(qs, st, obs) ==> Guarded(qs, t, obs))
  {
    hide Meets, Guarded, TwoSided, Sound, Answer, Settle;
    SettleKeepsDescribes(qs, st, obs);
    SettledMeets(qs, st, obs, q);
    SettledIsEmpty(qs, st, obs);
    if Guarded(qs, st, obs) { SettleStaysGuarded(qs, st, obs); }
  }

  lemma {:induction false} SettledIsEmpty(qs: seq<Quantile>, st: State, obs: seq<real>)
    requires ValidQuantiles(qs) && Describes(qs, st, obs)
    ensures Settle(qs, st).buffer == [] && Settle(qs, st).count == |obs|
  {
    hide Sound, Compress;
  }

  lemma {:induction false} SettleInSteps(qs: seq<Quantile>, st: State)
    ensures Settle(qs, st) == Flush(qs, st).(sample := Compress(qs, Flush(qs, st).sample))
  {
    hide Flush, Compress;
  }

  lemma {:induction false} AnswerOf(qs: seq<Quantile>, st: State, q: real)
    ensures st.sample == [] ==> Answer(qs, st, q) == None
    ensures st.sample != [] ==>
              Answer(qs, st, q)
              == Some(st.sample[Scan(st.sample, 0, QueryBound(qs, Desired(q, st.count), |st.sample|))].value)
  {
    hide Scan, QueryBound, Desired;
  }
}
