/**
  The CKMS estimator as a function of its state: a sorted sample of weighted items and
  a buffer of observations not yet merged into it.
 */
module CkmsSample {
  import opened Options
  import opened ErrorFunction

  const BUFFER_SIZE: nat := 500

  /** A sampled value, the weight it stands for, and the uncertainty of its rank. */
  datatype Item = Item(value: real, g: int, delta: int)

  datatype State = State(sample: seq<Item>, count: nat, buffer: seq<real>)

  const EMPTY := State([], 0, [])

  // ----- sorting and searching, as the standard library does it

  function InsertSorted(xs: seq<real>, x: real): seq<real> {
    if xs == [] || x <= xs[0] then [x] + xs else [xs[0]] + InsertSorted(xs[1..], x)
  }

  function Sorted(xs: seq<real>): seq<real> {
    if xs == [] then [] else InsertSorted(Sorted(xs[1..]), xs[0])
  }

  /** The first position whose item is not less than the value. */
  function LowerBound(s: seq<Item>, value: real): (idx: nat)
    ensures idx <= |s|
    ensures forall i :: 0 <= i < idx ==> s[i].value < value
    ensures idx < |s| ==> value <= s[idx].value
  {
    if s == [] || value <= s[0].value then 0 else 1 + LowerBound(s[1..], value)
  }

  // ----- insertBatch

  /** The uncertainty an item gets when it is inserted at idx into a sample of the given size. */
  function InsertDelta(qs: seq<Quantile>, idx: nat, size: nat): int {
    if 0 < idx < size then AllowableError(qs, idx + 1, size).Floor + 1 else 0
  }

  function InsertItem(qs: seq<Quantile>, s: seq<Item>, value: real): seq<Item> {
    var idx := LowerBound(s, value);
    s[..idx] + [Item(value, 1, InsertDelta(qs, idx, |s|))] + s[idx..]
  }

  function InsertItems(qs: seq<Quantile>, s: seq<Item>, values: seq<real>): seq<Item> {
    if values == [] then s
    else InsertItem(qs, InsertItems(qs, s, values[..|values| - 1]), values[|values| - 1])
  }

  function Flush(qs: seq<Quantile>, st: State): State {
    State(InsertItems(qs, st.sample, Sorted(st.buffer)), st.count + |st.buffer|, [])
  }

  // ----- compress

  /** May the item be merged into the last one kept, when it and `later` items are still to come? */
  predicate Mergeable(qs: seq<Quantile>, kept: seq<Item>, item: Item, later: nat)
    requires kept != []
  {
    (kept[|kept| - 1].g + item.g + item.delta) as real <= AllowableError(qs, |kept|, |kept| + 1 + later)
  }

  /** The items kept once the next one has been merged into the last or appended. */
  function Keep(qs: seq<Quantile>, kept: seq<Item>, item: Item, later: nat): (kept': seq<Item>)
    requires kept != []
    ensures kept' != []
  {
    if Mergeable(qs, kept, item, later)
    then kept[..|kept| - 1] + [item.(g := kept[|kept| - 1].g + item.g)]
    else kept + [item]
  }

  function CompressFrom(qs: seq<Quantile>, kept: seq<Item>, rest: seq<Item>): seq<Item>
    requires kept != []
    decreases |rest|
  {
    if rest == [] then kept
    else CompressFrom(qs, Keep(qs, kept, rest[0], |rest| - 1), rest[1..])
  }

  function Compress(qs: seq<Quantile>, s: seq<Item>): seq<Item> {
    if |s| < 2 then s else CompressFrom(qs, s[..1], s[1..])
  }

  // ----- get

  /** Flush the buffer and compress the sample, as every query and every full buffer does. */
  function Settle(qs: seq<Quantile>, st: State): State {
    var flushed := Flush(qs, st);
    flushed.(sample := Compress(qs, flushed.sample))
  }

  /** The position of the item a rank query stops at, scanning from position k. */
  function Scan(s: seq<Item>, k: nat, bound: real): (r: nat)
    requires k < |s|
    ensures k <= r < |s|
    decreases |s| - k
  {
    if k + 1 == |s| then k
    else if (Weight(s[..k + 1]) + s[k + 1].g + s[k + 1].delta) as real > bound then k
    else Scan(s, k + 1, bound)
  }

  function Desired(q: real, count: nat): int {
    (q * count as real).Floor
  }

  function QueryBound(qs: seq<Quantile>, desired: int, size: nat): real {
    desired as real + AllowableError(qs, desired, size) / 2.0
  }

  /** The answer a settled state gives; None is the NaN of an empty sample. */
  function Answer(qs: seq<Quantile>, st: State, q: real): Option<real> {
    if st.sample == [] then None
    else Some(st.sample[Scan(st.sample, 0, QueryBound(qs, Desired(q, st.count), |st.sample|))].value)
  }

  // ----- whole runs

  function Insert(qs: seq<Quantile>, st: State, value: real): State {
    var st' := st.(buffer := st.buffer + [value]);
    if |st'.buffer| == BUFFER_SIZE then Settle(qs, st') else st'
  }

  datatype Op = Observe(value: real) | Query(q: real) | Reset

  function Step(qs: seq<Quantile>, st: State, op: Op): State {
    match op
    case Observe(value) => Insert(qs, st, value)
    case Query(_) => Settle(qs, st)
    case Reset => EMPTY
  }

  function Run(qs: seq<Quantile>, ops: seq<Op>): State {
    if ops == [] then EMPTY else Step(qs, Run(qs, ops[..|ops| - 1]), ops[|ops| - 1])
  }

  /** Every state that is flushed in the course of a run, since its last reset, has the property. */
  ghost predicate EveryFlush(qs: seq<Quantile>, ops: seq<Op>, p: State -> bool) {
    ops == [] || ops[|ops| - 1].Reset?
    || (EveryFlush(qs, ops[..|ops| - 1], p)
        && var st := Run(qs, ops[..|ops| - 1]);
           match ops[|ops| - 1]
           case Observe(value) => |st.buffer| + 1 == BUFFER_SIZE ==> p(st.(buffer := st.buffer + [value]))
           case _ => p(st))
  }

  /** What the estimator is meant to describe: the observations since the last reset. */
  function Observed(ops: seq<Op>): seq<real> {
    if ops == [] then []
    else
      var before := Observed(ops[..|ops| - 1]);
      match ops[|ops| - 1]
      case Observe(value) => before + [value]
      case Query(_) => before
      case Reset => []
  }

  // ----- weights

  /** The total weight of a sequence of items. */
  function Weight(s: seq<Item>): int {
    if s == [] then 0 else Weight(s[..|s| - 1]) + s[|s| - 1].g
  }

  lemma {:induction false} WeightOfPrefix(s: seq<Item>, i: nat)
    requires i < |s|
    ensures Weight(s[..i + 1]) == Weight(s[..i]) + s[i].g
  {
    assert s[..i + 1][..i] == s[..i];
  }

  lemma {:induction false} WeightAppend(s: seq<Item>, t: seq<Item>)
    ensures Weight(s + t) == Weight(s) + Weight(t)
    decreases |t|
  {
    if t == [] {
      assert s + t == s;
    } else {
      var init := t[..|t| - 1];
      assert (s + t)[..|s + t| - 1] == s + init;
      WeightAppend(s, init);
    }
  }

  lemma {:induction false} WeightOne(item: Item)
    ensures Weight([item]) == item.g
  {
    assert [item][..0] == [];
  }

  lemma {:induction false} WeightWith(s: seq<Item>, item: Item, t: seq<Item>)
    ensures Weight(s + [item] + t) == Weight(s) + item.g + Weight(t)
  {
    WeightAppend(s + [item], t);
    WeightAppend(s, [item]);
    WeightOne(item);
  }

  lemma {:induction false} WeightSplit(s: seq<Item>, i: nat)
    requires i <= |s|
    ensures Weight(s) == Weight(s[..i]) + Weight(s[i..])
  {
    assert s == s[..i] + s[i..];
    WeightAppend(s[..i], s[i..]);
  }

  ghost predicate PositiveWeights(s: seq<Item>) {
    forall i :: 0 <= i < |s| ==> 1 <= s[i].g && 0 <= s[i].delta
  }

  lemma {:induction false} WeightAtLeastLength(s: seq<Item>)
    requires PositiveWeights(s)
    ensures |s| <= Weight(s)
    decreases |s|
  {
    if s != [] { WeightAtLeastLength(s[..|s| - 1]); }
  }

  lemma {:induction false} WeightMonotone(s: seq<Item>, i: nat, j: nat)
    requires PositiveWeights(s) && i <= j <= |s|
    ensures Weight(s[..i]) + (j - i) <= Weight(s[..j])
    ensures Weight(s[..j]) + (|s| - j) <= Weight(s)
  {
    assert s[..j] == s[..i] + s[i..j];
    WeightAppend(s[..i], s[i..j]);
    WeightAtLeastLength(s[i..j]);
    assert s == s[..j] + s[j..];
    WeightAppend(s[..j], s[j..]);
    WeightAtLeastLength(s[j..]);
  }
}
