/** Families: metrics of one name and type that differ in their labels. */
module Families {
  import opened Options
  import opened Names
  import opened TextFormat
  import opened LabelSets

  /** What the source throws. */
  datatype Error =
    | InvalidMetricName
    | InvalidLabelName
    | DuplicateLabelName
    | NameHasOtherType
    | NameHasOtherLabels
    | NameExists

  datatype Result<T> = Ok(value: T) | Err(error: Error)

  // ----- a family as a value; M stands for the identity of a metric object

  datatype FamilyState<M> = FamilyState(
    metricType: MetricType,
    name: string,
    help: string,
    constantLabels: Labels,
    metrics: map<Labels, M>)

  ghost predicate ValidNames(t: MetricType, labels: seq<Label>) {
    forall i :: 0 <= i < |labels| ==> CheckLabelName(labels[i].name, t)
  }

  /** The error with which constructing a family ends, if any. */
  ghost function ConstructionFault(t: MetricType, name: string, constantLabels: Labels): Option<Error> {
    if !CheckMetricName(name) then Some(InvalidMetricName)
    else if !ValidNames(t, constantLabels) then Some(InvalidLabelName)
    else None
  }

  /** The first thing wrong with the labels of a new metric, in their order. */
  function LabelFault(t: MetricType, constantLabels: seq<Label>, labels: seq<Label>): Option<Error> {
    if labels == [] then None
    else if !CheckLabelName(labels[0].name, t) then Some(InvalidLabelName)
    else if HasName(constantLabels, labels[0].name) then Some(DuplicateLabelName)
    else LabelFault(t, constantLabels, labels[1..])
  }

  /** Adding: labels that are known give the metric they have; others must be acceptable. */
  ghost function AddSeries<M>(f: FamilyState<M>, labels: Labels, metric: M): (FamilyState<M>, Result<M>) {
    if labels in f.metrics then (f, Ok(f.metrics[labels]))
    else
      match LabelFault(f.metricType, f.constantLabels, labels)
      case Some(e) => (f, Err(e))
      case None => (f.(metrics := f.metrics[labels := metric]), Ok(metric))
  }

  ghost function RemoveSeries<M>(f: FamilyState<M>, metric: M): FamilyState<M> {
    f.(metrics := map l | l in f.metrics && f.metrics[l] != metric :: f.metrics[l])
  }

  /** Labels that a metric of the family may have. */
  ghost predicate Acceptable<M>(f: FamilyState<M>, labels: seq<Label>) {
    forall i :: 0 <= i < |labels| ==>
      CheckLabelName(labels[i].name, f.metricType) && !HasName(f.constantLabels, labels[i].name)
  }

  ghost predicate FamilyValid<M>(f: FamilyState<M>) {
    && CheckMetricName(f.name)
    && ValidNames(f.metricType, f.constantLabels)
    && forall l :: l in f.metrics ==> Acceptable(f, l)
  }

  lemma {:induction false} FaultIffUnacceptable(t: MetricType, constantLabels: seq<Label>, labels: seq<Label>)
    ensures LabelFault(t, constantLabels, labels) == None
            <==> forall i :: 0 <= i < |labels| ==>
                   CheckLabelName(labels[i].name, t) && !HasName(constantLabels, labels[i].name)
    decreases |labels|
  {
    hide CheckLabelName, HasName;
    if labels != [] {
      FaultIffUnacceptable(t, constantLabels, labels[1..]);
      assert labels == [labels[0]] + labels[1..];
    }
  }

  /** Which error is reported: the one of the first label that is not acceptable, its name being looked at first. */
  lemma {:induction false} FirstFault(t: MetricType, constantLabels: seq<Label>, labels: seq<Label>, i: nat)
    requires i < |labels|
    requires forall k :: 0 <= k < i ==>
               CheckLabelName(labels[k].name, t) && !HasName(constantLabels, labels[k].name)
    ensures !CheckLabelName(labels[i].name, t) ==> LabelFault(t, constantLabels, labels) == Some(InvalidLabelName)
    ensures CheckLabelName(labels[i].name, t) && HasName(constantLabels, labels[i].name) ==>
              LabelFault(t, constantLabels, labels) == Some(DuplicateLabelName)
    decreases i
  {
    hide CheckLabelName, HasName;
    if 0 < i { FirstFault(t, constantLabels, labels[1..], i - 1); }
  }

  /** In a valid family adding succeeds exactly if the labels are acceptable, new or not; otherwise nothing changes. */
  lemma {:induction false} AddSeriesKeepsValid<M>(f: FamilyState<M>, labels: Labels, metric: M)
    requires FamilyValid(f)
    ensures var f' := AddSeries(f, labels, metric).0; FamilyValid(f') && f' == f.(metrics := f'.metrics)
    ensures AddSeries(f, labels, metric).1.Ok? <==> Acceptable(f, labels)
    ensures AddSeries(f, labels, metric).1.Err? ==> AddSeries(f, labels, metric).0 == f
    ensures AddSeries(f, labels, metric).1.Ok? ==>
              var (f', r) := AddSeries(f, labels, metric); labels in f'.metrics && f'.metrics[labels] == r.value
  {
    hide CheckLabelName, HasName, CheckMetricName;
    FaultIffUnacceptable(f.metricType, f.constantLabels, labels);
  }

  /** Which labels are known after a call of Add: those that were, and the new ones if they are acceptable. */
  lemma {:induction false} KnownAfterAdd<M>(f: FamilyState<M>, labels: Labels, metric: M, other: Labels)
    requires FamilyValid(f)
    ensures other in AddSeries(f, labels, metric).0.metrics
            <==> other in f.metrics || (other == labels && Acceptable(f, labels))
  {
    hide CheckLabelName, HasName, CheckMetricName;
    FaultIffUnacceptable(f.metricType, f.constantLabels, labels);
  }

  /** Adding never touches the metrics that are there: known labels give back theirs, new ones get the metric given. */
  lemma {:induction false} AddKeepsOthers<M>(f: FamilyState<M>, labels: Labels, metric: M)
    ensures var (f', r) := AddSeries(f, labels, metric);
            && (forall l :: l in f.metrics ==> l in f'.metrics && f'.metrics[l] == f.metrics[l])
            && (forall l :: l in f'.metrics && l !in f.metrics ==> l == labels)
            && (labels in f.metrics ==> r == Ok(f.metrics[labels]))
            && (labels !in f.metrics && r.Ok? ==>
                  r.value == metric && labels in f'.metrics && f'.metrics[labels] == metric)
  {
    hide CheckLabelName, HasName;
  }

  /** Removing leaves exactly the entries of other metrics, as they were. */
  lemma {:induction false} RemoveKeepsOthers<M>(f: FamilyState<M>, metric: M, l: Labels)
    ensures l in RemoveSeries(f, metric).metrics <==> l in f.metrics && f.metrics[l] != metric
    ensures l in RemoveSeries(f, metric).metrics ==> RemoveSeries(f, metric).metrics[l] == f.metrics[l]
  {
  }

  /**
    Removing a metric that was just added restores the family: its labels are unknown again, and all
    others as before.
   */
  lemma {:induction false} RemoveUndoesAddSeries<M>(f: FamilyState<M>, labels: Labels, metric: M)
    requires labels !in f.metrics && forall l :: l in f.metrics ==> f.metrics[l] != metric
    ensures RemoveSeries(AddSeries(f, labels, metric).0, metric) == f
  {
    assert RemoveSeries(AddSeries(f, labels, metric).0, metric).metrics == f.metrics;
  }

  // ----- what a family collects

  /** Some order of the metrics: which one is up to the hash map. */
  ghost predicate Iterates<M>(f: FamilyState<M>, order: seq<Labels>) {
    && (forall i, j :: 0 <= i < j < |order| ==> order[i] != order[j])
    && (forall i :: 0 <= i < |order| ==> order[i] in f.metrics)
    && (forall l :: l in f.metrics ==> l in order)
  }

  function CollectedMetric<M>(f: FamilyState<M>, labels: Labels, reading: ClientMetric): ClientMetric {
    reading.(labels := f.constantLabels + labels)
  }

  /** Nothing at all for a family without metrics. */
  function CollectedFamily<M>(f: FamilyState<M>, order: seq<Labels>, readings: seq<ClientMetric>): seq<MetricFamily>
    requires |order| == |readings|
  {
    if order == [] then []
    else [MetricFamily(f.name, f.help, f.metricType,
                       seq(|order|, i requires 0 <= i < |order| => CollectedMetric(f, order[i], readings[i])))]
  }

  /** One family with all metrics in that order, each as it reads but for the labels, or none. */
  lemma {:induction false} CollectedIsAll<M>(f: FamilyState<M>, order: seq<Labels>, readings: seq<ClientMetric>)
    requires |order| == |readings|
    ensures var collected := CollectedFamily(f, order, readings);
            && |collected| == (if order == [] then 0 else 1)
            && forall c :: c in collected ==>
                 && c.name == f.name && c.help == f.help && c.metricType == f.metricType
                 && |c.metric| == |order|
                 && forall i :: 0 <= i < |order| ==>
                      c.metric[i] == readings[i].(labels := f.constantLabels + order[i])
  {
  }

  /** No series repeats a label name, and no two series have the same labels, whatever their order. */
  ghost predicate DistinctSeries(f: MetricFamily) {
    && (forall i :: 0 <= i < |f.metric| ==>
          DistinctNames(f.metric[i].labels) && ValidNames(f.metricType, f.metric[i].labels))
    && (forall i, j :: 0 <= i < j < |f.metric| ==> Pairs(f.metric[i].labels) != Pairs(f.metric[j].labels))
  }

  lemma {:induction false} SeriesNames<M>(f: FamilyState<M>, labels: Labels)
    requires FamilyValid(f) && Acceptable(f, labels)
    ensures DistinctNames(f.constantLabels + labels) && ValidNames(f.metricType, f.constantLabels + labels)
  {
    hide CheckLabelName, CheckMetricName;
    SortedIsDistinct(f.constantLabels);
    SortedIsDistinct(labels);
  }

  lemma {:induction false} CollectedIsDistinct<M>(f: FamilyState<M>, order: seq<Labels>, readings: seq<ClientMetric>)
    requires FamilyValid(f) && Iterates(f, order) && |order| == |readings|
    ensures forall c :: c in CollectedFamily(f, order, readings) ==>
              DistinctSeries(c) && c.name == f.name && CheckMetricName(c.name)
  {
    hide CheckLabelName, CheckMetricName, Pairs, HasName;
    if order != [] {
      var c := CollectedFamily(f, order, readings)[0];
      forall i | 0 <= i < |order|
        ensures DistinctNames(c.metric[i].labels) && ValidNames(c.metricType, c.metric[i].labels)
      {
        SeriesNames(f, order[i]);
      }
      forall i, j | 0 <= i < j < |order|
        ensures Pairs(c.metric[i].labels) != Pairs(c.metric[j].labels)
      {
        if Pairs(c.metric[i].labels) == Pairs(c.metric[j].labels) {
          SamePairsBehind(f.constantLabels, order[i], order[j]);
        }
      }
    }
  }

  // ----- the object

  /** A metric, of which only what it reports matters here. */
  class Metric {
    var reading: ClientMetric

    constructor (reading: ClientMetric)
      ensures this.reading == reading
    {
      this.reading := reading;
    }
  }

  class Family {
    const metricType: MetricType
    const name: string
    const help: string
    const constantLabels: Labels
    var metrics: map<Labels, Metric>

    ghost function State(): FamilyState<Metric>
      reads this
    {
      FamilyState(metricType, name, help, constantLabels, metrics)
    }

    /** Each metric is owned by one entry. */
    ghost predicate Valid()
      reads this
    {
      && FamilyValid(State())
      && forall l, k :: l in metrics && k in metrics && metrics[l] == metrics[k] ==> l == k
    }

    constructor (t: MetricType, name: string, help: string, constantLabels: Labels)
      requires ConstructionFault(t, name, constantLabels) == None
      ensures Valid()
      ensures State() == FamilyState(t, name, help, constantLabels, map[])
    {
      metricType := t;
      this.name := name;
      this.help := help;
      this.constantLabels := constantLabels;
      metrics := map[];
    }

    /** The checked construction. */
    static method Create(t: MetricType, name: string, help: string, constantLabels: Labels) returns (r: Result<Family>)
      ensures match ConstructionFault(t, name, constantLabels)
              case Some(e) => r == Err(e)
              case None => r.Ok? && fresh(r.value) && r.value.Valid()
                           && r.value.State() == FamilyState(t, name, help, constantLabels, map[])
      ensures r == Err(InvalidMetricName) <==> !CheckMetricName(name)
      ensures r == Err(InvalidLabelName)
              <==> CheckMetricName(name)
                   && exists i :: 0 <= i < |constantLabels| && !CheckLabelName(constantLabels[i].name, t)
      ensures r.Ok? <==> CheckMetricName(name) && ValidNames(t, constantLabels)
    {
      if !CheckMetricName(name) {
        return Err(InvalidMetricName);
      }
      for i := 0 to |constantLabels|
        invariant ValidNames(t, constantLabels[..i])
      {
        if !CheckLabelName(constantLabels[i].name, t) {
          return Err(InvalidLabelName);
        }
      }
      assert constantLabels[..|constantLabels|] == constantLabels;
      var family := new Family(t, name, help, constantLabels);
      r := Ok(family);
    }

    /** Insert first, check afterwards, and take the metric out again if a check fails. */
    method Add(labels: Labels, metric: Metric) returns (r: Result<Metric>)
      requires Valid() && metric !in metrics.Values
      modifies this
      ensures Valid()
      ensures (State(), r) == AddSeries(old(State()), labels, metric)
      ensures forall l :: l in old(metrics) ==> l in metrics && metrics[l] == old(metrics)[l]
      ensures forall l :: l in metrics && l !in old(metrics) ==> l == labels
      ensures old(labels in metrics) ==> r == Ok(old(metrics)[labels])
      ensures old(labels !in metrics) && r.Ok? ==> r.value == metric && labels in metrics && metrics[labels] == metric
      ensures r.Ok? <==> Acceptable(State(), labels)
    {
      hide CheckLabelName, CheckMetricName, HasName, FamilyValid;
      AddKeepsOthers(State(), labels, metric);
      AddSeriesKeepsValid(State(), labels, metric);
      if labels in metrics {
        return Ok(metrics[labels]);
      }
      metrics := metrics[labels := metric];
      assert labels[0..] == labels;
      for i := 0 to |labels|
        invariant metrics == old(metrics)[labels := metric]
        invariant LabelFault(metricType, constantLabels, labels) == LabelFault(metricType, constantLabels, labels[i..])
      {
        assert labels[i..][1..] == labels[i + 1..];
        if !CheckLabelName(labels[i].name, metricType) {
          metrics := metrics - {labels};
          assert metrics == old(metrics);
          return Err(InvalidLabelName);
        }
        if HasName(constantLabels, labels[i].name) {
          metrics := metrics - {labels};
          assert metrics == old(metrics);
          return Err(DuplicateLabelName);
        }
      }
      r := Ok(metrics[labels]);
    }

    method Remove(metric: Metric)
      requires Valid()
      modifies this
      ensures Valid()
      ensures State() == RemoveSeries(old(State()), metric)
      ensures forall l :: l in metrics <==> l in old(metrics) && old(metrics)[l] != metric
      ensures forall l :: l in metrics ==> metrics[l] == old(metrics)[l]
    {
      hide CheckLabelName, CheckMetricName, HasName;
      if labels: Labels :| labels in metrics && metrics[labels] == metric {
        metrics := metrics - {labels};
      }
      assert metrics == RemoveSeries(old(State()), metric).metrics;
    }

    method Has(labels: Labels) returns (b: bool)
      ensures b <==> labels in metrics
    {
      b := labels in metrics;
    }

    ghost predicate Report(order: seq<Labels>, readings: seq<ClientMetric>)
      reads this, metrics.Values
    {
      && |order| == |readings|
      && forall i :: 0 <= i < |order| ==> order[i] in metrics && metrics[order[i]].reading == readings[i]
    }

    method CollectMetric(labels: Labels, metric: Metric) returns (collected: ClientMetric)
      ensures collected == CollectedMetric(State(), labels, metric.reading)
      ensures collected == metric.reading.(labels := constantLabels + labels)
    {
      var all: seq<Label> := [];
      for i := 0 to |constantLabels|
        invariant all == constantLabels[..i]
      {
        all := all + [constantLabels[i]];
      }
      for i := 0 to |labels|
        invariant all == constantLabels + labels[..i]
      {
        all := all + [labels[i]];
      }
      assert labels[..|labels|] == labels;
      collected := metric.reading.(labels := all);
    }

    method Collect() returns (families: seq<MetricFamily>, ghost order: seq<Labels>, ghost readings: seq<ClientMetric>)
      ensures Iterates(State(), order) && Report(order, readings)
      ensures families == CollectedFamily(State(), order, readings)
      ensures families == [] <==> metrics == map[]
    {
      families, order, readings := [], [], [];
      if metrics == map[] {
        return;
      }
      var rest := metrics.Keys;
      var collected: seq<ClientMetric> := [];
      while rest != {}
        invariant forall l :: l in metrics <==> l in rest || l in order
        invariant forall l :: l in order ==> l !in rest
        invariant forall i, j :: 0 <= i < j < |order| ==> order[i] != order[j]
        invariant |collected| == |order| && Report(order, readings)
        invariant forall i :: 0 <= i < |order| ==> collected[i] == CollectedMetric(State(), order[i], readings[i])
        decreases rest
      {
        var labels :| labels in rest;
        var metric := CollectMetric(labels, metrics[labels]);
        collected := collected + [metric];
        order := order + [labels];
        readings := readings + [metrics[labels].reading];
        rest := rest - {labels};
      }
      assert order != [] by {
        var l :| l in metrics;
        assert l in order;
      }
      assert collected == CollectedFamily(State(), order, readings)[0].metric;
      families := [MetricFamily(name, help, metricType, collected)];
    }
  }
}
