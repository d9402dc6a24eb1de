/** The registry: families of five types, found by their name. */
module Registries {
  import opened Options
  import opened Names
  import opened TextFormat
  import opened LabelSets
  import opened Families

  datatype InsertBehavior = Merge | Throw

  /** There are no untyped families. */
  type FamilyType = t: MetricType | t != Untyped witness Counter

  // ----- the registry as a value; F and M stand for the identities of families and metrics

  datatype Slot<F, M> = Slot(id: F, family: FamilyState<M>)

  datatype RegistryState<F, M> = RegistryState(
    behavior: InsertBehavior,
    counters: seq<Slot<F, M>>,
    gauges: seq<Slot<F, M>>,
    histograms: seq<Slot<F, M>>,
    infos: seq<Slot<F, M>>,
    summaries: seq<Slot<F, M>>)

  function Vector<F, M>(s: RegistryState<F, M>, t: FamilyType): seq<Slot<F, M>> {
    match t
    case Counter => s.counters
    case Gauge => s.gauges
    case Histogram => s.histograms
    case Info => s.infos
    case Summary => s.summaries
  }

  function WithVector<F, M>(s: RegistryState<F, M>, t: FamilyType, v: seq<Slot<F, M>>): (s': RegistryState<F, M>)
    ensures Vector(s', t) == v && s'.behavior == s.behavior
    ensures forall other: FamilyType :: other != t ==> Vector(s', other) == Vector(s, other)
  {
    match t
    case Counter => s.(counters := v)
    case Gauge => s.(gauges := v)
    case Histogram => s.(histograms := v)
    case Info => s.(infos := v)
    case Summary => s.(summaries := v)
  }

  /** In the order in which they are collected. */
  function AllSlots<F, M>(s: RegistryState<F, M>): seq<Slot<F, M>> {
    s.counters + s.gauges + s.histograms + s.infos + s.summaries
  }

  ghost predicate Named<F, M>(v: seq<Slot<F, M>>, name: string) {
    exists i :: 0 <= i < |v| && v[i].family.name == name
  }

  /** The first position that satisfies the search, or the end. */
  ghost function FindName<F, M>(v: seq<Slot<F, M>>, name: string): (i: nat)
    ensures i <= |v|
    ensures i < |v| ==> v[i].family.name == name
    ensures forall k :: 0 <= k < i ==> v[k].family.name != name
  {
    if v == [] || v[0].family.name == name then 0 else 1 + FindName(v[1..], name)
  }

  ghost function FindId<F, M>(v: seq<Slot<F, M>>, id: F): (i: nat)
    ensures i <= |v|
    ensures i < |v| ==> v[i].id == id
    ensures forall k :: 0 <= k < i ==> v[k].id != id
  {
    if v == [] || v[0].id == id then 0 else 1 + FindId(v[1..], id)
  }

  datatype Outcome<F> = Created | Existing(id: F) | Rejected(error: Error)

  ghost predicate NamedElsewhere<F, M>(s: RegistryState<F, M>, t: FamilyType, name: string) {
    exists other: FamilyType :: other != t && Named(Vector(s, other), name)
  }

  /** How adding a family ends. */
  ghost function AddOutcome<F, M>(
    s: RegistryState<F, M>, t: FamilyType, name: string, constantLabels: Labels): Outcome<F>
  {
    var v := Vector(s, t);
    var i := FindName(v, name);
    if NamedElsewhere(s, t, name) then Rejected(NameHasOtherType)
    else if i < |v| then
      if s.behavior == Throw then Rejected(NameExists)
      else if v[i].family.constantLabels == constantLabels then Existing(v[i].id)
      else Rejected(NameHasOtherLabels)
    else
      match ConstructionFault(t, name, constantLabels)
      case Some(e) => Rejected(e)
      case None => Created
  }

  ghost function AddFamily<F, M>(
    s: RegistryState<F, M>, t: FamilyType, id: F, name: string, help: string, constantLabels: Labels)
    : RegistryState<F, M>
  {
    if AddOutcome(s, t, name, constantLabels) != Created then s
    else WithVector(s, t, Vector(s, t) + [Slot(id, FamilyState(t, name, help, constantLabels, map[]))])
  }

  ghost function RemoveFamily<F, M>(s: RegistryState<F, M>, t: FamilyType, id: F): RegistryState<F, M> {
    var v := Vector(s, t);
    var i := FindId(v, id);
    if i == |v| then s else WithVector(s, t, v[..i] + v[i + 1..])
  }

  /** A call on a family of the registry; on any other it does not concern the registry. */
  ghost function SetFamily<F, M>(s: RegistryState<F, M>, t: FamilyType, i: nat, f: FamilyState<M>): RegistryState<F, M>
    requires i < |Vector(s, t)|
  {
    WithVector(s, t, Vector(s, t)[i := Slot(Vector(s, t)[i].id, f)])
  }

  // ----- runs

  datatype Op<F, M> =
    | AddFamilyOp(t: FamilyType, id: F, name: string, help: string, constantLabels: Labels)
    | RemoveFamilyOp(t: FamilyType, id: F)
    | AddSeriesOp(t: FamilyType, id: F, labels: Labels, metric: M)
    | RemoveSeriesOp(t: FamilyType, id: F, metric: M)

  ghost function Step<F, M>(s: RegistryState<F, M>, op: Op<F, M>): RegistryState<F, M> {
    match op
    case AddFamilyOp(t, id, name, help, constantLabels) => AddFamily(s, t, id, name, help, constantLabels)
    case RemoveFamilyOp(t, id) => RemoveFamily(s, t, id)
    case AddSeriesOp(t, id, labels, metric) =>
      var i := FindId(Vector(s, t), id);
      if i == |Vector(s, t)| then s else SetFamily(s, t, i, AddSeries(Vector(s, t)[i].family, labels, metric).0)
    case RemoveSeriesOp(t, id, metric) =>
      var i := FindId(Vector(s, t), id);
      if i == |Vector(s, t)| then s else SetFamily(s, t, i, RemoveSeries(Vector(s, t)[i].family, metric))
  }

  ghost function Run<F, M>(behavior: InsertBehavior, ops: seq<Op<F, M>>): RegistryState<F, M> {
    if ops == [] then RegistryState(behavior, [], [], [], [], [])
    else Step(Run(behavior, ops[..|ops| - 1]), ops[|ops| - 1])
  }

  // ----- what every run keeps

  ghost predicate VectorValid<F, M>(t: FamilyType, v: seq<Slot<F, M>>) {
    && (forall i :: 0 <= i < |v| ==> v[i].family.metricType == t && FamilyValid(v[i].family))
    && UniqueNames(v)
  }

  ghost predicate UniqueNames<F, M>(v: seq<Slot<F, M>>) {
    forall i, j :: 0 <= i < j < |v| ==> v[i].family.name != v[j].family.name
  }

  ghost predicate NoCommonName<F, M>(v: seq<Slot<F, M>>, w: seq<Slot<F, M>>) {
    forall i, j :: 0 <= i < |v| && 0 <= j < |w| ==> v[i].family.name != w[j].family.name
  }

  /** Every family is of its vector's type and valid, and no name occurs twice, in one vector or in two. */
  ghost predicate WellFormed<F, M>(s: RegistryState<F, M>) {
    && (forall t: FamilyType :: VectorValid(t, Vector(s, t)))
    && (forall t: FamilyType, u: FamilyType :: t != u ==> NoCommonName(Vector(s, t), Vector(s, u)))
  }

  /** A vector can be replaced by one that is valid and brings no name that another vector has. */
  lemma {:induction false} ReplaceVector<F, M>(s: RegistryState<F, M>, t: FamilyType, v: seq<Slot<F, M>>)
    requires WellFormed(s) && VectorValid(t, v)
    requires forall i :: 0 <= i < |v| ==>
               Named(Vector(s, t), v[i].family.name) || !NamedElsewhere(s, t, v[i].family.name)
    ensures WellFormed(WithVector(s, t, v))
  {
    hide VectorValid;
    var s' := WithVector(s, t, v);
    forall u: FamilyType, w: FamilyType | u != w
      ensures NoCommonName(Vector(s', u), Vector(s', w))
    {
      if u == t {
        Separate(s, t, w, v);
      } else if w == t {
        Separate(s, t, u, v);
      } else {
        assert NoCommonName(Vector(s, u), Vector(s, w));
      }
    }
  }

  lemma {:induction false} Separate<F, M>(s: RegistryState<F, M>, t: FamilyType, u: FamilyType, v: seq<Slot<F, M>>)
    requires NoCommonName(Vector(s, t), Vector(s, u)) && t != u
    requires forall i :: 0 <= i < |v| ==>
               Named(Vector(s, t), v[i].family.name) || !NamedElsewhere(s, t, v[i].family.name)
    ensures NoCommonName(v, Vector(s, u)) && NoCommonName(Vector(s, u), v)
  {
    hide Vector;
  }

  lemma {:induction false} StepKeepsWellFormed<F, M>(s: RegistryState<F, M>, op: Op<F, M>)
    requires WellFormed(s)
    ensures WellFormed(Step(s, op))
  {
    hide WellFormed, FamilyValid, ConstructionFault, Vector, WithVector, FindId, FindName, AddSeries, RemoveSeries;
    var t := op.t;
    var v := Vector(s, t);
    VectorOf(s, t);
    match op {
      case AddFamilyOp(_, id, name, help, constantLabels) =>
        if AddOutcome(s, t, name, constantLabels) == Created {
          var f: FamilyState<M> := FamilyState(t, name, help, constantLabels, map[]);
          NewFamilyValid(f);
          ReplaceVector(s, t, v + [Slot(id, f)]);
        }
      case RemoveFamilyOp(_, id) =>
        var i := FindId(v, id);
        if i < |v| {
          ReplaceVector(s, t, v[..i] + v[i + 1..]);
        }
      case AddSeriesOp(_, id, labels, metric) =>
        var i := FindId(v, id);
        if i < |v| {
          AddSeriesKeepsValid(v[i].family, labels, metric);
          ReplaceVector(s, t, v[i := Slot(v[i].id, AddSeries(v[i].family, labels, metric).0)]);
        }
      case RemoveSeriesOp(_, id, metric) =>
        var i := FindId(v, id);
        if i < |v| {
          RemoveSeriesKeepsValid(v[i].family, metric);
          ReplaceVector(s, t, v[i := Slot(v[i].id, RemoveSeries(v[i].family, metric))]);
        }
    }
  }

  lemma {:induction false} VectorOf<F, M>(s: RegistryState<F, M>, t: FamilyType)
    requires WellFormed(s)
    ensures VectorValid(t, Vector(s, t))
  {
  }

  lemma {:induction false} NewFamilyValid<M>(f: FamilyState<M>)
    requires ConstructionFault(f.metricType, f.name, f.constantLabels) == None && f.metrics == map[]
    ensures FamilyValid(f)
  {
  }

  lemma {:induction false} RemoveSeriesKeepsValid<M>(f: FamilyState<M>, metric: M)
    requires FamilyValid(f)
    ensures var f' := RemoveSeries(f, metric); FamilyValid(f') && f' == f.(metrics := f'.metrics)
  {
  }

  /** In every run of calls on the registry and its families, failing ones included. */
  lemma {:induction false} EveryRunIsWellFormed<F, M>(behavior: InsertBehavior, ops: seq<Op<F, M>>)
    ensures WellFormed(Run(behavior, ops)) && Run(behavior, ops).behavior == behavior
    decreases |ops|
  {
    hide WellFormed;
    if ops == [] {
      EmptyIsWellFormed(Run(behavior, ops));
    } else {
      EveryRunIsWellFormed(behavior, ops[..|ops| - 1]);
      StepKeepsWellFormed(Run(behavior, ops[..|ops| - 1]), ops[|ops| - 1]);
    }
  }

  lemma {:induction false} EmptyIsWellFormed<F, M>(s: RegistryState<F, M>)
    requires AllSlots(s) == []
    ensures WellFormed(s)
  {
  }

  // ----- one call after another

  /** What a created family means for the next call under its name: only the same call again can succeed. */
  lemma {:induction false} AddAgain<F, M>(
    s: RegistryState<F, M>, t: FamilyType, id: F, name: string, help: string, constantLabels: Labels,
    u: FamilyType, labels: Labels)
    requires WellFormed(s) && AddOutcome(s, t, name, constantLabels) == Created
    ensures AddOutcome(AddFamily(s, t, id, name, help, constantLabels), u, name, labels)
            == if u != t then Rejected(NameHasOtherType)
               else if s.behavior == Throw then Rejected(NameExists)
               else if labels == constantLabels then Existing(id)
               else Rejected(NameHasOtherLabels)
  {
    hide WellFormed, ConstructionFault, Vector, WithVector;
    var s' := AddFamily(s, t, id, name, help, constantLabels);
    var v' := Vector(s', t);
    assert v'[|v'| - 1].family.name == name && v'[|v'| - 1].id == id;
    assert Named(v', name);
    var i := FindName(v', name);
    assert i == |v'| - 1;
    assert forall other: FamilyType | other != t :: Vector(s', other) == Vector(s, other);
  }

  /** Removing a family that was just added restores the registry, and then the name is free again. */
  lemma {:induction false} RemoveUndoesAdd<F, M>(
    s: RegistryState<F, M>, t: FamilyType, id: F, name: string, help: string, constantLabels: Labels)
    requires AddOutcome(s, t, name, constantLabels) == Created
    requires FindId(Vector(s, t), id) == |Vector(s, t)|
    ensures RemoveFamily(AddFamily(s, t, id, name, help, constantLabels), t, id) == s
  {
    var v := Vector(s, t);
    var v' := Vector(AddFamily(s, t, id, name, help, constantLabels), t);
    var i := FindId(v', id);
    assert v'[|v|].id == id;
    assert i == |v|;
    assert v'[..i] + v'[i + 1..] == v;
  }

  /** The name of a family of another type is refused before anything else is looked at. */
  lemma {:induction false} OtherTypeExactly<F, M>(
    s: RegistryState<F, M>, t: FamilyType, name: string, constantLabels: Labels)
    ensures AddOutcome(s, t, name, constantLabels) == Rejected(NameHasOtherType)
            <==> exists u: FamilyType, i: nat :: u != t && i < |Vector(s, u)| && Vector(s, u)[i].family.name == name
  {
    hide Vector, ConstructionFault, FindName;
    NoOtherFault(t, name, constantLabels);
    if NamedElsewhere(s, t, name) {
      var u: FamilyType :| u != t && Named(Vector(s, u), name);
      var i: nat :| i < |Vector(s, u)| && Vector(s, u)[i].family.name == name;
    }
    if u: FamilyType, i: nat :| u != t && i < |Vector(s, u)| && Vector(s, u)[i].family.name == name {
      assert Named(Vector(s, u), name);
    }
  }

  lemma {:induction false} NoOtherFault(t: FamilyType, name: string, constantLabels: Labels)
    ensures ConstructionFault(t, name, constantLabels) != Some(NameHasOtherType)
  {
  }

  /** Otherwise the outcome is up to the family of that name, if there is one, and to the names if there is none. */
  lemma {:induction false} AddOutcomeExactly<F, M>(
    s: RegistryState<F, M>, t: FamilyType, name: string, constantLabels: Labels)
    requires WellFormed(s) && AddOutcome(s, t, name, constantLabels) != Rejected(NameHasOtherType)
    ensures var outcome, v := AddOutcome(s, t, name, constantLabels), Vector(s, t);
            && (forall i :: 0 <= i < |v| && v[i].family.name == name ==>
                  outcome == if s.behavior == Throw then Rejected(NameExists)
                             else if v[i].family.constantLabels == constantLabels then Existing(v[i].id)
                             else Rejected(NameHasOtherLabels))
            && ((forall i :: 0 <= i < |v| ==> v[i].family.name != name) ==>
                  outcome == if !CheckMetricName(name) then Rejected(InvalidMetricName)
                             else if !ValidNames(t, constantLabels) then Rejected(InvalidLabelName)
                             else Created)
  {
    hide CheckMetricName, ValidNames, FamilyValid, WellFormed, Vector, NamedElsewhere;
    VectorOf(s, t);
    var v := Vector(s, t);
    var at := FindName(v, name);
    forall i | 0 <= i < |v| && v[i].family.name == name
      ensures i == at
    {
    }
  }

  // ----- what a call changes, and what it leaves alone

  /** A created family comes last in the vector of its type, as it was asked for and without metrics. */
  lemma {:induction false} AddAppends<F, M>(
    s: RegistryState<F, M>, t: FamilyType, id: F, name: string, help: string, constantLabels: Labels)
    ensures var s' := AddFamily(s, t, id, name, help, constantLabels);
            && (AddOutcome(s, t, name, constantLabels) != Created ==> s' == s)
            && (AddOutcome(s, t, name, constantLabels) == Created ==>
                  && Vector(s', t) == Vector(s, t) + [Slot(id, FamilyState(t, name, help, constantLabels, map[]))]
                  && s'.behavior == s.behavior
                  && forall u: FamilyType :: u != t ==> Vector(s', u) == Vector(s, u))
  {
    hide AddOutcome;
  }

  /** Removing a family, wherever it is, leaves exactly the others, in their order, and all other vectors. */
  lemma {:induction false} RemoveTakesOne<F, M>(s: RegistryState<F, M>, t: FamilyType, id: F, i: nat)
    requires i < |Vector(s, t)| && Vector(s, t)[i].id == id
    requires forall k :: 0 <= k < i ==> Vector(s, t)[k].id != id
    ensures var s', v := RemoveFamily(s, t, id), Vector(s, t);
            && Vector(s', t) == v[..i] + v[i + 1..]
            && |Vector(s', t)| == |v| - 1 && multiset(Vector(s', t)) == multiset(v) - multiset{v[i]}
            && s'.behavior == s.behavior
            && forall u: FamilyType :: u != t ==> Vector(s', u) == Vector(s, u)
  {
    hide Vector, WithVector;
    var v := Vector(s, t);
    assert v == v[..i] + [v[i]] + v[i + 1..];
  }

  /** So it is behind every run of calls; a family that is not registered is not removed, and nothing else is. */
  lemma {:induction false} EveryRunRemovesOne<F, M>(
    behavior: InsertBehavior, ops: seq<Op<F, M>>, t: FamilyType, id: F)
    ensures var s, s' := Run(behavior, ops), Run(behavior, ops + [RemoveFamilyOp(t, id)]);
            var v := Vector(s, t);
            && ((forall i :: 0 <= i < |v| ==> v[i].id != id) ==> s' == s)
            && (forall i :: 0 <= i < |v| && v[i].id == id && (forall k :: 0 <= k < i ==> v[k].id != id) ==>
                  Vector(s', t) == v[..i] + v[i + 1..])
            && forall u: FamilyType :: u != t ==> Vector(s', u) == Vector(s, u)
  {
    hide Vector, WithVector;
    assert (ops + [RemoveFamilyOp(t, id)])[..|ops|] == ops;
  }

  /** A call on a registered family changes it and no other. */
  lemma {:induction false} SetKeepsOthers<F, M>(s: RegistryState<F, M>, t: FamilyType, i: nat, f: FamilyState<M>)
    requires i < |Vector(s, t)|
    ensures var s', v := SetFamily(s, t, i, f), Vector(s, t);
            && Vector(s', t) == v[i := Slot(v[i].id, f)]
            && |Vector(s', t)| == |v| && Vector(s', t)[i] == Slot(v[i].id, f)
            && (forall k :: 0 <= k < |v| && k != i ==> Vector(s', t)[k] == v[k])
            && forall u: FamilyType :: u != t ==> Vector(s', u) == Vector(s, u)
  {
    hide Vector, WithVector;
  }

  /** The place of a registered family is where the search finds it; any other is not found. */
  lemma {:induction false} FoundAt<F, M>(v: seq<Slot<F, M>>, id: F, i: nat)
    requires i <= |v| && (forall k :: 0 <= k < i ==> v[k].id != id) && (i < |v| ==> v[i].id == id)
    ensures FindId(v, id) == i
  {
  }

  /**
    So it is behind every run: the registered family gets what the call makes of it, and a call on any
    other family does not concern the registry.
   */
  lemma {:induction false} EveryRunCallsFamily<F, M>(
    behavior: InsertBehavior, ops: seq<Op<F, M>>, t: FamilyType, id: F, labels: Labels, metric: M, i: nat)
    requires var v := Vector(Run(behavior, ops), t);
             i <= |v| && (forall k :: 0 <= k < i ==> v[k].id != id) && (i < |v| ==> v[i].id == id)
    ensures var s, v := Run(behavior, ops), Vector(Run(behavior, ops), t);
            var added := Run(behavior, ops + [AddSeriesOp(t, id, labels, metric)]);
            var removed := Run(behavior, ops + [RemoveSeriesOp(t, id, metric)]);
            && (i == |v| ==> added == removed == s)
            && (i < |v| ==>
                  && Vector(added, t) == v[i := Slot(id, AddSeries(v[i].family, labels, metric).0)]
                  && Vector(removed, t) == v[i := Slot(id, RemoveSeries(v[i].family, metric))])
            && forall u: FamilyType :: u != t ==> Vector(added, u) == Vector(removed, u) == Vector(s, u)
  {
    hide Vector, WithVector, AddSeries, RemoveSeries, FindId;
    var s := Run(behavior, ops);
    FoundAt(Vector(s, t), id, i);
    assert (ops + [AddSeriesOp(t, id, labels, metric)])[..|ops|] == ops;
    assert (ops + [RemoveSeriesOp(t, id, metric)])[..|ops|] == ops;
  }

  // ----- what is collected

  ghost predicate Iterated<F, M>(slots: seq<Slot<F, M>>, orders: seq<seq<Labels>>, readings: seq<seq<ClientMetric>>) {
    && |orders| == |slots| == |readings|
    && forall i :: 0 <= i < |slots| ==> Iterates(slots[i].family, orders[i]) && |orders[i]| == |readings[i]|
  }

  ghost function Scrape<F, M>(
    slots: seq<Slot<F, M>>, orders: seq<seq<Labels>>, readings: seq<seq<ClientMetric>>): seq<MetricFamily>
    requires Iterated(slots, orders, readings)
  {
    if slots == [] then []
    else
      var n := |slots| - 1;
      Scrape(slots[..n], orders[..n], readings[..n]) + CollectedFamily(slots[n].family, orders[n], readings[n])
  }

  /** How many of the first n families have metrics. */
  function Shown(orders: seq<seq<Labels>>, n: nat): nat
    requires n <= |orders|
  {
    if n == 0 then 0 else Shown(orders, n - 1) + if orders[n - 1] == [] then 0 else 1
  }

  lemma {:induction false} ShownPrefix(orders: seq<seq<Labels>>, m: nat, n: nat)
    requires n <= m <= |orders|
    ensures Shown(orders[..m], n) == Shown(orders, n)
    ensures n < m && orders[n] != [] ==> Shown(orders, n) < Shown(orders, m)
    ensures Shown(orders, n) <= Shown(orders, m)
    decreases m, n
  {
    if 0 < n { ShownPrefix(orders, m, n - 1); }
    if n < m {
      ShownPrefix(orders, m - 1, n);
    }
  }

  /** What is collected of a family. */
  ghost predicate CollectedFrom<M>(
    c: MetricFamily, f: FamilyState<M>, order: seq<Labels>, readings: seq<ClientMetric>)
    requires |order| == |readings|
  {
    && c.name == f.name && c.help == f.help && c.metricType == f.metricType
    && |c.metric| == |order|
    && forall i :: 0 <= i < |order| ==> c.metric[i] == readings[i].(labels := f.constantLabels + order[i])
  }

  /** It is collected behind the families with metrics in front of it. */
  ghost predicate CollectedAt<F, M>(
    families: seq<MetricFamily>, slots: seq<Slot<F, M>>, orders: seq<seq<Labels>>, readings: seq<seq<ClientMetric>>,
    i: nat)
    requires |slots| == |orders| == |readings| && i < |slots| && |orders[i]| == |readings[i]|
  {
    && Shown(orders, i) < |families|
    && CollectedFrom(families[Shown(orders, i)], slots[i].family, orders[i], readings[i])
  }

  lemma {:induction false} ScrapeSize<F, M>(
    slots: seq<Slot<F, M>>, orders: seq<seq<Labels>>, readings: seq<seq<ClientMetric>>)
    requires Iterated(slots, orders, readings)
    ensures |Scrape(slots, orders, readings)| == Shown(orders, |orders|)
    decreases |slots|
  {
    hide Iterates, CollectedFamily;
    if slots != [] {
      var n := |slots| - 1;
      ScrapeSize(slots[..n], orders[..n], readings[..n]);
      CollectedIsAll(slots[n].family, orders[n], readings[n]);
      ShownPrefix(orders, n, n);
    }
  }

  lemma {:induction false} ScrapeHas<F, M>(
    slots: seq<Slot<F, M>>, orders: seq<seq<Labels>>, readings: seq<seq<ClientMetric>>, i: nat)
    requires Iterated(slots, orders, readings) && i < |slots| && orders[i] != []
    ensures CollectedAt(Scrape(slots, orders, readings), slots, orders, readings, i)
    decreases |slots|
  {
    hide Iterates, CollectedFamily, CollectedFrom, Shown;
    var n := |slots| - 1;
    var before := Scrape(slots[..n], orders[..n], readings[..n]);
    var last := CollectedFamily(slots[n].family, orders[n], readings[n]);
    assert Scrape(slots, orders, readings) == before + last;
    ShownPrefix(orders, n, i);
    if i < n {
      ScrapeHas(slots[..n], orders[..n], readings[..n], i);
    } else {
      ScrapeSize(slots[..n], orders[..n], readings[..n]);
      ShownPrefix(orders, n, n);
      CollectedOne(slots[n].family, orders[n], readings[n]);
    }
  }

  lemma {:induction false} CollectedOne<M>(f: FamilyState<M>, order: seq<Labels>, readings: seq<ClientMetric>)
    requires |order| == |readings| && order != []
    ensures |CollectedFamily(f, order, readings)| == 1
    ensures CollectedFrom(CollectedFamily(f, order, readings)[0], f, order, readings)
  {
    CollectedIsAll(f, order, readings);
  }

  /**
    Every family that has metrics is collected, with all of them, in the order of the families, and
    nothing else is.
   */
  lemma {:induction false} ScrapeIsAll<F, M>(
    slots: seq<Slot<F, M>>, orders: seq<seq<Labels>>, readings: seq<seq<ClientMetric>>)
    requires Iterated(slots, orders, readings)
    ensures |Scrape(slots, orders, readings)| == Shown(orders, |orders|)
    ensures forall i :: 0 <= i < |slots| && orders[i] != [] ==>
              CollectedAt(Scrape(slots, orders, readings), slots, orders, readings, i)
  {
    hide CollectedAt, Iterates, Scrape;
    ScrapeSize(slots, orders, readings);
    forall i | 0 <= i < |slots| && orders[i] != []
      ensures CollectedAt(Scrape(slots, orders, readings), slots, orders, readings, i)
    {
      ScrapeHas(slots, orders, readings, i);
    }
  }

  /** Every series is identified by the name of its family and its labels. */
  ghost predicate DistinctFamilies(families: seq<MetricFamily>) {
    && (forall i :: 0 <= i < |families| ==> DistinctSeries(families[i]) && CheckMetricName(families[i].name))
    && (forall i, j :: 0 <= i < j < |families| ==> families[i].name != families[j].name)
  }

  lemma {:induction false} UniqueAppend<F, M>(v: seq<Slot<F, M>>, w: seq<Slot<F, M>>)
    requires UniqueNames(v) && UniqueNames(w) && NoCommonName(v, w)
    ensures UniqueNames(v + w)
  {
  }

  lemma {:induction false} NoCommonAppend<F, M>(v: seq<Slot<F, M>>, w: seq<Slot<F, M>>, x: seq<Slot<F, M>>)
    requires NoCommonName(v, x) && NoCommonName(w, x)
    ensures NoCommonName(v + w, x)
  {
  }

  lemma {:induction false} AllSlotsUnique<F, M>(s: RegistryState<F, M>)
    requires WellFormed(s)
    ensures UniqueNames(AllSlots(s))
    ensures forall i :: 0 <= i < |AllSlots(s)| ==> FamilyValid(AllSlots(s)[i].family)
  {
    hide FamilyValid, UniqueNames, NoCommonName;
    var a, b, c := Vector(s, Counter), Vector(s, Gauge), Vector(s, Histogram);
    var d, e := Vector(s, Info), Vector(s, Summary);
    UniqueAppend(a, b);
    NoCommonAppend(a, b, c);
    UniqueAppend(a + b, c);
    NoCommonAppend(a, b, d);
    NoCommonAppend(a + b, c, d);
    UniqueAppend(a + b + c, d);
    NoCommonAppend(a, b, e);
    NoCommonAppend(a + b, c, e);
    NoCommonAppend(a + b + c, d, e);
    UniqueAppend(a + b + c + d, e);
  }

  lemma {:induction false} ScrapeIsDistinct<F, M>(
    slots: seq<Slot<F, M>>, orders: seq<seq<Labels>>, readings: seq<seq<ClientMetric>>)
    requires Iterated(slots, orders, readings) && UniqueNames(slots)
    requires forall i :: 0 <= i < |slots| ==> FamilyValid(slots[i].family)
    ensures DistinctFamilies(Scrape(slots, orders, readings))
    ensures forall c :: c in Scrape(slots, orders, readings) ==> Named(slots, c.name)
    decreases |slots|
  {
    if slots != [] {
      hide FamilyValid, Iterates, DistinctSeries, CollectedFamily, CheckMetricName, DistinctFamilies, Named;
      var n := |slots| - 1;
      var first := Scrape(slots[..n], orders[..n], readings[..n]);
      var last := CollectedFamily(slots[n].family, orders[n], readings[n]);
      ScrapeIsDistinct(slots[..n], orders[..n], readings[..n]);
      CollectedIsDistinct(slots[n].family, orders[n], readings[n]);
      AtMostOne(slots[n].family, orders[n], readings[n]);
      forall c | c in first
        ensures c.name != slots[n].family.name && Named(slots, c.name)
      {
        NamedEarlier(slots, c.name);
      }
      LastIsNamed(slots);
      DistinctSnoc(first, last, slots[n].family.name);
    }
  }

  lemma {:induction false} LastIsNamed<F, M>(slots: seq<Slot<F, M>>)
    requires slots != []
    ensures Named(slots, slots[|slots| - 1].family.name)
  {
    var n := |slots| - 1;
    assert slots[n].family.name == slots[n].family.name;
  }

  lemma {:induction false} NamedEarlier<F, M>(slots: seq<Slot<F, M>>, name: string)
    requires slots != [] && UniqueNames(slots) && Named(slots[..|slots| - 1], name)
    ensures Named(slots, name) && name != slots[|slots| - 1].family.name
  {
    var i :| 0 <= i < |slots| - 1 && slots[..|slots| - 1][i].family.name == name;
    assert slots[i].family.name == name;
  }

  lemma {:induction false} DistinctSnoc(families: seq<MetricFamily>, last: seq<MetricFamily>, name: string)
    requires DistinctFamilies(families) && |last| <= 1
    requires forall c :: c in families ==> c.name != name
    requires forall c :: c in last ==> c.name == name && DistinctSeries(c) && CheckMetricName(c.name)
    ensures DistinctFamilies(families + last)
  {
    hide DistinctSeries, CheckMetricName;
  }

  lemma {:induction false} AtMostOne<M>(f: FamilyState<M>, order: seq<Labels>, readings: seq<ClientMetric>)
    requires |order| == |readings|
    ensures |CollectedFamily(f, order, readings)| <= 1
  {
  }

  /**
    After every run, whatever order the hash maps are iterated in: no two collected families share a
    name, no series repeats a label name, and no two series of a family have the same labels.
   */
  lemma {:induction false} EveryScrapeIsDistinct<F, M>(
    behavior: InsertBehavior, ops: seq<Op<F, M>>, orders: seq<seq<Labels>>, readings: seq<seq<ClientMetric>>)
    requires Iterated(AllSlots(Run(behavior, ops)), orders, readings)
    ensures DistinctFamilies(Scrape(AllSlots(Run(behavior, ops)), orders, readings))
  {
    hide WellFormed;
    EveryRunIsWellFormed(behavior, ops);
    AllSlotsUnique(Run(behavior, ops));
    ScrapeIsDistinct(AllSlots(Run(behavior, ops)), orders, readings);
  }

  // ----- the object

  ghost function Slots(families: seq<Family>): (v: seq<Slot<Family, Metric>>)
    reads families
    ensures |v| == |families|
    ensures forall i :: 0 <= i < |families| ==> v[i] == Slot(families[i], families[i].State())
  {
    if families == [] then []
    else
      var n := |families| - 1;
      Slots(families[..n]) + [Slot(families[n], families[n].State())]
  }

  /** Whether one of several vectors has a family of this name. */
  predicate FamilyNameExists(name: string, vectors: seq<seq<Family>>)
    ensures FamilyNameExists(name, vectors)
            <==> exists i, j :: 0 <= i < |vectors| && 0 <= j < |vectors[i]| && vectors[i][j].name == name
  {
    if vectors == [] then false
    else
      (exists j :: 0 <= j < |vectors[0]| && vectors[0][j].name == name) || FamilyNameExists(name, vectors[1..])
  }

  /** The readings are those of the families' metrics, in the order of the labels. */
  ghost predicate Reported(families: seq<Family>, orders: seq<seq<Labels>>, readings: seq<seq<ClientMetric>>)
    reads families, set f, m | f in families && m in f.metrics.Values :: m
  {
    && |orders| == |families| == |readings|
    && forall i :: 0 <= i < |families| ==> families[i].Report(orders[i], readings[i])
  }

  ghost predicate AllValid(families: seq<Family>)
    reads families
  {
    forall f :: f in families ==> f.Valid()
  }

  class Registry {
    const insertBehavior: InsertBehavior
    var counters: seq<Family>
    var gauges: seq<Family>
    var histograms: seq<Family>
    var infos: seq<Family>
    var summaries: seq<Family>

    ghost function Contents(): RegistryState<Family, Metric>
      reads this, counters, gauges, histograms, infos, summaries
    {
      RegistryState(insertBehavior, Slots(counters), Slots(gauges), Slots(histograms), Slots(infos), Slots(summaries))
    }

    ghost predicate Valid()
      reads this, counters, gauges, histograms, infos, summaries
    {
      && WellFormed(Contents())
      && AllValid(counters) && AllValid(gauges) && AllValid(histograms) && AllValid(infos) && AllValid(summaries)
    }

    constructor (insertBehavior: InsertBehavior)
      ensures Valid()
      ensures Contents() == RegistryState(insertBehavior, [], [], [], [], [])
    {
      hide WellFormed;
      this.insertBehavior := insertBehavior;
      counters, gauges, histograms, infos, summaries := [], [], [], [], [];
      new;
      EmptyIsWellFormed(Contents());
    }

    function FamiliesOf(t: FamilyType): seq<Family>
      reads this
    {
      match t
      case Counter => counters
      case Gauge => gauges
      case Histogram => histograms
      case Info => infos
      case Summary => summaries
    }

    method SetFamilies(t: FamilyType, families: seq<Family>)
      requires Valid() && AllValid(families)
      requires WellFormed(WithVector(Contents(), t, Slots(families)))
      modifies this
      ensures Valid()
      ensures Contents() == WithVector(old(Contents()), t, Slots(families))
      ensures FamiliesOf(t) == families
      ensures forall u: FamilyType :: u != t ==> FamiliesOf(u) == old(FamiliesOf(u))
    {
      hide Slots, WellFormed, AllValid;
      match t {
        case Counter => counters := families;
        case Gauge => gauges := families;
        case Histogram => histograms := families;
        case Info => infos := families;
        case Summary => summaries := families;
      }
    }

    function OtherFamilies(t: FamilyType): seq<seq<Family>>
      reads this
    {
      match t
      case Counter => [gauges, histograms, infos, summaries]
      case Gauge => [counters, histograms, infos, summaries]
      case Histogram => [counters, gauges, infos, summaries]
      case Info => [counters, gauges, histograms, summaries]
      case Summary => [counters, gauges, histograms, infos]
    }

    predicate NameExistsInOtherType(t: FamilyType, name: string)
      reads this
    {
      FamilyNameExists(name, OtherFamilies(t))
    }

    lemma {:induction false} VectorIs(t: FamilyType)
      ensures Vector(Contents(), t) == Slots(FamiliesOf(t))
    {
    }

    /** Which type the i-th of the other vectors belongs to. */
    lemma {:induction false} OtherType(t: FamilyType, i: nat) returns (u: FamilyType)
      requires i < |OtherFamilies(t)|
      ensures u != t && FamiliesOf(u) == OtherFamilies(t)[i]
    {
      u :| u != t && FamiliesOf(u) == OtherFamilies(t)[i];
    }

    lemma {:induction false} IsOther(t: FamilyType, u: FamilyType)
      requires t != u
      ensures FamiliesOf(u) in OtherFamilies(t)
    {
      var o := OtherFamilies(t);
      assert |o| == 4;
      assert FamiliesOf(u) == o[0] || FamiliesOf(u) == o[1] || FamiliesOf(u) == o[2] || FamiliesOf(u) == o[3];
    }

    lemma {:induction false} NameExistsElsewhere(t: FamilyType, name: string)
      ensures NameExistsInOtherType(t, name) <==> NamedElsewhere(Contents(), t, name)
    {
      hide Registry.FamiliesOf, Registry.OtherFamilies, Registry.Contents, Slots, Vector;
      var others: seq<seq<Family>> := OtherFamilies(t);
      if NameExistsInOtherType(t, name) {
        var i: int, j: int :| 0 <= i < |others| && 0 <= j < |others[i]| && others[i][j].name == name;
        var u := OtherType(t, i);
        VectorIs(u);
        NamedSlot(others[i], j);
        assert Named(Vector(Contents(), u), name);
      }
      if NamedElsewhere(Contents(), t, name) {
        var u: FamilyType :| u != t && Named(Vector(Contents(), u), name);
        IsOther(t, u);
        VectorIs(u);
        var i :| 0 <= i < |others| && others[i] == FamiliesOf(u);
        var j :| 0 <= j < |Slots(others[i])| && Slots(others[i])[j].family.name == name;
        NamedSlot(others[i], j);
        assert others[i][j].name == name;
      }
    }

    method Add(t: FamilyType, name: string, help: string, constantLabels: Labels) returns (r: Result<Family>)
      requires Valid()
      modifies this
      ensures Valid()
      ensures match AddOutcome(old(Contents()), t, name, constantLabels)
              case Rejected(e) => r == Err(e) && Contents() == old(Contents())
              case Existing(family) => r == Ok(family) && Contents() == old(Contents())
              case Created =>
                && r.Ok? && fresh(r.value)
                && Contents() == AddFamily(old(Contents()), t, r.value, name, help, constantLabels)
                && FamiliesOf(t) == old(FamiliesOf(t)) + [r.value]
                && r.value.State() == FamilyState(t, name, help, constantLabels, map[])
                && forall u: FamilyType :: u != t ==> FamiliesOf(u) == old(FamiliesOf(u))
      ensures AddOutcome(old(Contents()), t, name, constantLabels) != Created ==>
                forall u: FamilyType :: FamiliesOf(u) == old(FamiliesOf(u))
    {
      hide WellFormed, ConstructionFault, Slots, Vector, Family.Valid, Registry.OtherFamilies, Registry.FamiliesOf;
      hide AddFamily, AddOutcome, NamedElsewhere, FindName;
      OutcomeInSteps(Contents(), t, name, constantLabels);
      NameExistsElsewhere(t, name);
      VectorIs(t);
      if NameExistsInOtherType(t, name) {
        return Err(NameHasOtherType);
      }
      var families := FamiliesOf(t);
      var i := FindFamilyName(families, name);
      if i < |families| {
        if insertBehavior == Merge {
          if families[i].constantLabels == constantLabels {
            return Ok(families[i]);
          }
          return Err(NameHasOtherLabels);
        }
        return Err(NameExists);
      }
      r := CreateLast(t, name, help, constantLabels);
    }

    method CreateLast(t: FamilyType, name: string, help: string, constantLabels: Labels) returns (r: Result<Family>)
      requires Valid() && !NamedElsewhere(Contents(), t, name)
      requires FindName(Vector(Contents(), t), name) == |Vector(Contents(), t)|
      modifies this
      ensures Valid()
      ensures match ConstructionFault(t, name, constantLabels)
              case Some(e) => r == Err(e) && Contents() == old(Contents()) && FamiliesOf(t) == old(FamiliesOf(t))
              case None =>
                && r.Ok? && fresh(r.value)
                && Contents() == AddFamily(old(Contents()), t, r.value, name, help, constantLabels)
                && FamiliesOf(t) == old(FamiliesOf(t)) + [r.value]
                && r.value.State() == FamilyState(t, name, help, constantLabels, map[])
      ensures forall u: FamilyType :: u != t ==> FamiliesOf(u) == old(FamiliesOf(u))
    {
      hide WellFormed, ConstructionFault, Slots, Vector, Family.Valid, Registry.OtherFamilies, Registry.FamiliesOf;
      hide AddFamily, NamedElsewhere;
      r := Family.Create(t, name, help, constantLabels);
      if r.Ok? {
        PushBack(t, r.value);
      }
    }

    method PushBack(t: FamilyType, family: Family)
      requires Valid() && family.Valid() && family.metricType == t && family.metrics == map[]
      requires AddOutcome(Contents(), t, family.name, family.constantLabels) == Created
      modifies this
      ensures Valid()
      ensures Contents() == AddFamily(old(Contents()), t, family, family.name, family.help, family.constantLabels)
      ensures FamiliesOf(t) == old(FamiliesOf(t)) + [family]
      ensures forall u: FamilyType :: u != t ==> FamiliesOf(u) == old(FamiliesOf(u))
    {
      hide WellFormed, FamilyValid, AddOutcome, Slots, Vector, WithVector, Family.Valid, Registry.Contents;
      VectorIs(t);
      SlotsSnoc(FamiliesOf(t), family);
      StepKeepsWellFormed(Contents(), AddFamilyOp(t, family, family.name, family.help, family.constantLabels));
      SetFamilies(t, FamiliesOf(t) + [family]);
    }

    method Remove(t: FamilyType, family: Family) returns (removed: bool)
      requires Valid()
      modifies this
      ensures Valid()
      ensures removed <==> family in old(FamiliesOf(t))
      ensures Contents() == RemoveFamily(old(Contents()), t, family)
      ensures !removed ==> FamiliesOf(t) == old(FamiliesOf(t))
      ensures forall i :: 0 <= i < |old(FamiliesOf(t))| && old(FamiliesOf(t))[i] == family ==>
                FamiliesOf(t) == old(FamiliesOf(t))[..i] + old(FamiliesOf(t))[i + 1..]
      ensures removed ==>
                && |FamiliesOf(t)| == |old(FamiliesOf(t))| - 1
                && multiset(FamiliesOf(t)) == multiset(old(FamiliesOf(t))) - multiset{family}
      ensures forall u: FamilyType :: u != t ==> FamiliesOf(u) == old(FamiliesOf(u))
    {
      hide WellFormed, Slots, Vector, WithVector, Family.Valid, Registry.Contents, RemoveFamily;
      VectorIs(t);
      var i := FindFamily(FamiliesOf(t), family);
      if i == |FamiliesOf(t)| {
        NothingToRemove(Contents(), t, family);
        return false;
      }
      OnlyPlace(t, i);
      TakenOut(FamiliesOf(t), i);
      Erase(t, i);
      removed := true;
    }

    /** No family is registered twice. */
    lemma {:induction false} OnlyPlace(t: FamilyType, i: nat)
      requires Valid() && i < |FamiliesOf(t)|
      ensures forall k :: 0 <= k < |FamiliesOf(t)| && FamiliesOf(t)[k] == FamiliesOf(t)[i] ==> k == i
    {
      hide WellFormed, Slots, Vector, FamilyValid, Registry.Contents, Registry.FamiliesOf;
      VectorIs(t);
      VectorOf(Contents(), t);
      var v := Vector(Contents(), t);
      assert v[i].family.name == FamiliesOf(t)[i].State().name;
    }

    method Erase(t: FamilyType, i: nat)
      requires Valid() && i < |FamiliesOf(t)|
      requires FindId(Vector(Contents(), t), FamiliesOf(t)[i]) == i
      modifies this
      ensures Valid()
      ensures Contents() == RemoveFamily(old(Contents()), t, old(FamiliesOf(t)[i]))
      ensures FamiliesOf(t) == old(FamiliesOf(t)[..i] + FamiliesOf(t)[i + 1..])
      ensures forall u: FamilyType :: u != t ==> FamiliesOf(u) == old(FamiliesOf(u))
    {
      hide WellFormed, Slots, Vector, WithVector, Family.Valid, Registry.Contents;
      var families := FamiliesOf(t);
      VectorIs(t);
      SlotsWithout(families, i);
      StepKeepsWellFormed(Contents(), RemoveFamilyOp(t, families[i]));
      SetFamilies(t, families[..i] + families[i + 1..]);
    }

    method Collect(
      ) returns (results: seq<MetricFamily>, ghost orders: seq<seq<Labels>>, ghost readings: seq<seq<ClientMetric>>)
      requires Valid()
      ensures Iterated(AllSlots(Contents()), orders, readings)
      ensures Reported(counters + gauges + histograms + infos + summaries, orders, readings)
      ensures results == Scrape(AllSlots(Contents()), orders, readings)
      ensures DistinctFamilies(results)
    {
      hide WellFormed, FamilyValid, Slots, Gathered, UniqueNames, DistinctFamilies, AllSlots, Registry.Valid;
      hide Registry.Contents;
      NothingGathered();
      results, orders, readings := CollectAll([], [], [], [], counters);
      assert [] + counters == counters;
      results, orders, readings := CollectAll(counters, results, orders, readings, gauges);
      results, orders, readings := CollectAll(counters + gauges, results, orders, readings, histograms);
      results, orders, readings := CollectAll(counters + gauges + histograms, results, orders, readings, infos);
      results, orders, readings :=
        CollectAll(counters + gauges + histograms + infos, results, orders, readings, summaries);
      AllSlotsAre();
      NamesAreUnique();
      GatheredIs(counters + gauges + histograms + infos + summaries, results, orders, readings);
      ScrapeIsDistinct(AllSlots(Contents()), orders, readings);
    }

    lemma {:induction false} NamesAreUnique()
      requires Valid()
      ensures UniqueNames(AllSlots(Contents()))
      ensures forall i :: 0 <= i < |AllSlots(Contents())| ==> FamilyValid(AllSlots(Contents())[i].family)
    {
      hide WellFormed, FamilyValid, UniqueNames, AllSlots;
      AllSlotsUnique(Contents());
    }

    lemma {:induction false} AllSlotsAre()
      ensures AllSlots(Contents()) == Slots(counters + gauges + histograms + infos + summaries)
    {
      hide Slots;
      SlotsAppend(counters, gauges);
      SlotsAppend(counters + gauges, histograms);
      SlotsAppend(counters + gauges + histograms, infos);
      SlotsAppend(counters + gauges + histograms + infos, summaries);
    }
  }

  lemma {:induction false} TakenOut<T>(s: seq<T>, i: nat)
    requires i < |s|
    ensures multiset(s[..i] + s[i + 1..]) == multiset(s) - multiset{s[i]}
  {
    assert s == s[..i] + [s[i]] + s[i + 1..];
  }

  /** What is collected from some families. */
  ghost predicate Gathered(
    families: seq<Family>, results: seq<MetricFamily>, orders: seq<seq<Labels>>, readings: seq<seq<ClientMetric>>)
    reads families, set f, m | f in families && m in f.metrics.Values :: m
  {
    && Reported(families, orders, readings)
    && Iterated(Slots(families), orders, readings)
    && results == Scrape(Slots(families), orders, readings)
  }

  lemma {:induction false} NothingGathered()
    ensures Gathered([], [], [], [])
  {
  }

  lemma {:induction false} GatheredIs(
    families: seq<Family>, results: seq<MetricFamily>, orders: seq<seq<Labels>>, readings: seq<seq<ClientMetric>>)
    requires Gathered(families, results, orders, readings)
    ensures Reported(families, orders, readings) && Iterated(Slots(families), orders, readings)
    ensures results == Scrape(Slots(families), orders, readings)
  {
  }

  /** The first family of this name, or the end. */
  method FindFamilyName(families: seq<Family>, name: string) returns (i: nat)
    ensures i == FindName(Slots(families), name)
  {
    i := 0;
    while i < |families| && families[i].name != name
      invariant i <= |families|
      invariant forall k :: 0 <= k < i ==> families[k].name != name
    {
      i := i + 1;
    }
  }

  /** The position of this very family, or the end. */
  method FindFamily(families: seq<Family>, family: Family) returns (i: nat)
    ensures i == FindId(Slots(families), family) && (i < |families| <==> family in families)
    ensures i < |families| ==> families[i] == family
  {
    i := 0;
    while i < |families| && families[i] != family
      invariant i <= |families|
      invariant forall k :: 0 <= k < i ==> families[k] != family
    {
      i := i + 1;
    }
  }

  lemma {:induction false} OutcomeInSteps<F, M>(
    s: RegistryState<F, M>, t: FamilyType, name: string, constantLabels: Labels)
    ensures NamedElsewhere(s, t, name) ==> AddOutcome(s, t, name, constantLabels) == Rejected(NameHasOtherType)
    ensures var v := Vector(s, t);
            var i := FindName(v, name);
            !NamedElsewhere(s, t, name) ==>
              && (i < |v| ==>
                    AddOutcome(s, t, name, constantLabels)
                    == if s.behavior == Throw then Rejected(NameExists)
                       else if v[i].family.constantLabels == constantLabels then Existing(v[i].id)
                       else Rejected(NameHasOtherLabels))
              && (i == |v| ==>
                    match ConstructionFault(t, name, constantLabels)
                    case Some(e) => AddOutcome(s, t, name, constantLabels) == Rejected(e)
                    case None => AddOutcome(s, t, name, constantLabels) == Created)
  {
    hide Vector, NamedElsewhere, FindName, ConstructionFault;
  }

  lemma {:induction false} NothingToRemove<F, M>(s: RegistryState<F, M>, t: FamilyType, id: F)
    requires FindId(Vector(s, t), id) == |Vector(s, t)|
    ensures RemoveFamily(s, t, id) == s
  {
  }

  /** Collects some more families behind those that are collected. */
  method CollectAll(
    ghost before: seq<Family>, results: seq<MetricFamily>,
    ghost orders: seq<seq<Labels>>, ghost readings: seq<seq<ClientMetric>>,
    families: seq<Family>)
    returns (results': seq<MetricFamily>, ghost orders': seq<seq<Labels>>, ghost readings': seq<seq<ClientMetric>>)
    requires Gathered(before, results, orders, readings)
    ensures Gathered(before + families, results', orders', readings')
  {
    hide Gathered, CollectedFamily, Iterates, Family.Report;
    results', orders', readings' := results, orders, readings;
    assert before + families[..0] == before;
    for i := 0 to |families|
      invariant Gathered(before + families[..i], results', orders', readings')
    {
      var collected, order, reading := families[i].Collect();
      GatheredSnoc(before + families[..i], results', orders', readings', families[i], order, reading);
      assert before + families[..i] + [families[i]] == before + families[..i + 1];
      results' := results' + collected;
      orders' := orders' + [order];
      readings' := readings' + [reading];
    }
    assert families[..|families|] == families;
  }

  lemma {:induction false} GatheredSnoc(
    families: seq<Family>, results: seq<MetricFamily>, orders: seq<seq<Labels>>, readings: seq<seq<ClientMetric>>,
    family: Family, order: seq<Labels>, reading: seq<ClientMetric>)
    requires Gathered(families, results, orders, readings)
    requires Iterates(family.State(), order) && family.Report(order, reading)
    ensures Gathered(families + [family], results + CollectedFamily(family.State(), order, reading),
                     orders + [order], readings + [reading])
  {
    hide Slots, Iterates, Iterated, Scrape, CollectedFamily;
    ReportedSnoc(families, orders, readings, family, order, reading);
    ScrapeSnoc(Slots(families), orders, readings, Slot(family, family.State()), order, reading);
    SlotsSnoc(families, family);
  }

  lemma {:induction false} ScrapeSnoc<F, M>(
    slots: seq<Slot<F, M>>, orders: seq<seq<Labels>>, readings: seq<seq<ClientMetric>>,
    slot: Slot<F, M>, order: seq<Labels>, reading: seq<ClientMetric>)
    requires Iterated(slots, orders, readings) && Iterates(slot.family, order) && |order| == |reading|
    ensures Iterated(slots + [slot], orders + [order], readings + [reading])
    ensures Scrape(slots + [slot], orders + [order], readings + [reading])
            == Scrape(slots, orders, readings) + CollectedFamily(slot.family, order, reading)
  {
    hide Iterates, CollectedFamily;
    assert (slots + [slot])[..|slots|] == slots;
    assert (orders + [order])[..|slots|] == orders && (readings + [reading])[..|slots|] == readings;
  }

  lemma {:induction false} ReportedSnoc(
    families: seq<Family>, orders: seq<seq<Labels>>, readings: seq<seq<ClientMetric>>,
    family: Family, order: seq<Labels>, reading: seq<ClientMetric>)
    requires Reported(families, orders, readings) && family.Report(order, reading)
    ensures Reported(families + [family], orders + [order], readings + [reading])
  {
    hide Family.Report;
  }

  lemma {:induction false} SlotsSnoc(families: seq<Family>, family: Family)
    ensures Slots(families + [family]) == Slots(families) + [Slot(family, family.State())]
  {
    assert (families + [family])[..|families|] == families;
  }

  lemma {:induction false} SlotsAppend(a: seq<Family>, b: seq<Family>)
    ensures Slots(a + b) == Slots(a) + Slots(b)
  {
    hide Slots;
  }

  lemma {:induction false} SlotsWithout(families: seq<Family>, i: nat)
    requires i < |families|
    ensures Slots(families[..i] + families[i + 1..]) == Slots(families)[..i] + Slots(families)[i + 1..]
  {
    hide Slots;
  }

  lemma {:induction false} NamedSlot(families: seq<Family>, j: nat)
    requires j < |Slots(families)|
    ensures j < |families| && Slots(families)[j].family.name == families[j].name
  {
  }
}
