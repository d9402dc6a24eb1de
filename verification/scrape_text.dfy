/** From the calls on a registry to the text that a reader gets. */
module ScrapeText {
  import opened Options
  import opened Names
  import opened TextFormat
  import opened TextReader
  import opened PrintedValues
  import opened LabelSets
  import opened Families
  import opened Registries

  lemma {:induction false} CollectedIsGood<M>(f: FamilyState<M>, order: seq<Labels>, readings: seq<ClientMetric>)
    requires FamilyValid(f) && Iterates(f, order) && |order| == |readings|
    ensures forall c :: c in CollectedFamily(f, order, readings) ==> GoodFamily(c)
  {
    hide MetricChar, LabelChar, DistinctNames, Pairs;
    CollectedIsDistinct(f, order, readings);
    forall c | c in CollectedFamily(f, order, readings)
      ensures GoodFamily(c)
    {
      forall i, j | 0 <= i < |c.metric| && 0 <= j < |c.metric[i].labels|
        ensures GoodLabel(c.metric[i].labels[j])
      {
        assert DistinctSeries(c);
      }
    }
  }

  lemma {:induction false} ScrapeIsGood<F, M>(
    slots: seq<Slot<F, M>>, orders: seq<seq<Labels>>, readings: seq<seq<ClientMetric>>)
    requires Iterated(slots, orders, readings)
    requires forall i :: 0 <= i < |slots| ==> FamilyValid(slots[i].family)
    ensures forall c :: c in Scrape(slots, orders, readings) ==> GoodFamily(c)
    decreases |slots|
  {
    hide FamilyValid, Iterates, GoodFamily, CollectedFamily;
    if slots != [] {
      var n := |slots| - 1;
      ScrapeIsGood(slots[..n], orders[..n], readings[..n]);
      CollectedIsGood(slots[n].family, orders[n], readings[n]);
    }
  }

  /**
    End to end: after every run of calls the text of a scrape is read back as exactly the samples of the
    families, series by series, if and only if the help texts of the collected families have nothing
    but comments behind their first lines.
   */
  lemma {:induction false} EveryScrapeIsRead<F, M>(
    fmt: Format, behavior: InsertBehavior, ops: seq<Op<F, M>>,
    orders: seq<seq<Labels>>, readings: seq<seq<ClientMetric>>)
    requires PlainFormat(fmt)
    requires Iterated(AllSlots(Run(behavior, ops)), orders, readings)
    ensures var families := Scrape(AllSlots(Run(behavior, ops)), orders, readings);
            ReadText(FamiliesText(fmt, families)) == Some(AllSamples(fmt, families)) <==> AllHelpIsComment(families)
  {
    hide WellFormed, PlainFormat, FamilyValid, GoodFamily, Iterated, Scrape, AllHelpIsComment;
    EveryRunIsWellFormed(behavior, ops);
    AllSlotsUnique(Run(behavior, ops));
    ScrapeIsGood(AllSlots(Run(behavior, ops)), orders, readings);
    TextRoundTrip(fmt, Scrape(AllSlots(Run(behavior, ops)), orders, readings));
  }

  /** The lines that a metric of a family is printed as stand somewhere, next to each other. */
  ghost predicate Printed(fmt: Format, name: string, t: MetricType, m: ClientMetric, all: seq<Sample>) {
    exists p: nat :: p + LineCount(t, m) <= |all| && PrintedAt(fmt, name, t, m, all, p)
  }

  ghost predicate PrintedAt(fmt: Format, name: string, t: MetricType, m: ClientMetric, all: seq<Sample>, p: nat)
    requires p + LineCount(t, m) <= |all|
  {
    Says(fmt, name, t, m, all[p..p + LineCount(t, m)])
  }

  lemma {:induction false} PrintedBetween(
    fmt: Format, f: MetricFamily, k: nat, a: seq<Sample>, read: seq<Sample>, b: seq<Sample>)
    requires k < |f.metric| && MetricSays(fmt, f, f.metric, k, read)
    ensures Printed(fmt, f.name, f.metricType, f.metric[k], a + read + b)
  {
    hide Says, LineCount;
    var i, j, all := Offset(f.metricType, f.metric, k), Offset(f.metricType, f.metric, k + 1), a + read + b;
    assert j == i + LineCount(f.metricType, f.metric[k]);
    assert all[|a| + i..|a| + j] == read[i..j];
    assert PrintedAt(fmt, f.name, f.metricType, f.metric[k], all, |a| + i);
  }

  lemma {:induction false} MetricIsPrinted(fmt: Format, families: seq<MetricFamily>, c: nat, k: nat)
    requires PlainFormat(fmt) && AllFamiliesGood(families) && AllHelpIsComment(families)
    requires c < |families| && k < |families[c].metric|
    ensures ReadText(FamiliesText(fmt, families)).Some?
    ensures Printed(fmt, families[c].name, families[c].metricType, families[c].metric[k],
                    ReadText(FamiliesText(fmt, families)).value)
  {
    hide PlainFormat, GoodFamily, HelpIsComment, ReadText, FamiliesText, FamilyText, Printed, MetricSays;
    var a, f, b := families[..c], families[c], families[c + 1..];
    assert families == a + [f] + b;
    FamilyByFamily(fmt, a, f, b);
    FamilyTextSays(fmt, f);
    PrintedBetween(fmt, f, k, ReadText(FamiliesText(fmt, a)).value, ReadText(FamilyText(fmt, f)).value,
                   ReadText(FamiliesText(fmt, b)).value);
  }

  /**
    From the reading of a metric to the text: after every run of calls, whatever a registered metric
    reports is read from the text of a scrape under the name of its family, with the family's constant
    labels and its own, field by field.
   */
  lemma {:induction false} EveryReadingIsPrinted<F, M>(
    fmt: Format, behavior: InsertBehavior, ops: seq<Op<F, M>>,
    orders: seq<seq<Labels>>, readings: seq<seq<ClientMetric>>, i: nat, k: nat)
    requires PlainFormat(fmt)
    requires var slots := AllSlots(Run(behavior, ops));
             && Iterated(slots, orders, readings) && AllHelpIsComment(Scrape(slots, orders, readings))
             && i < |slots| && k < |orders[i]|
    ensures var slots := AllSlots(Run(behavior, ops));
            var f, text := slots[i].family, FamiliesText(fmt, Scrape(slots, orders, readings));
            && ReadText(text).Some?
            && Printed(fmt, f.name, f.metricType, readings[i][k].(labels := f.constantLabels + orders[i][k]),
                       ReadText(text).value)
  {
    hide WellFormed, PlainFormat, FamilyValid, GoodFamily, Iterates, Scrape, HelpIsComment, Printed, ReadText;
    var slots := AllSlots(Run(behavior, ops));
    var families := Scrape(slots, orders, readings);
    EveryRunIsWellFormed(behavior, ops);
    AllSlotsUnique(Run(behavior, ops));
    ScrapeIsGood(slots, orders, readings);
    ScrapeIsAll(slots, orders, readings);
    assert CollectedAt(families, slots, orders, readings, i);
    MetricIsPrinted(fmt, families, Shown(orders, i), k);
  }

  /** The calls that register a summary, and a counter named like one of the summary's lines. */
  function CollidingCalls(): seq<Op<nat, nat>> {
    [AddFamilyOp(Summary, 0, "a", "", []),
     AddFamilyOp(Counter, 1, "a_count", "", []),
     AddSeriesOp(Summary, 0, [], 0),
     AddSeriesOp(Counter, 1, [], 1)]
  }

  lemma {:induction false} RunSnoc<F, M>(behavior: InsertBehavior, ops: seq<Op<F, M>>, op: Op<F, M>)
    ensures Run(behavior, ops + [op]) == Step(Run(behavior, ops), op)
  {
    assert (ops + [op])[..|ops|] == ops;
  }

  function OneSlot(t: MetricType, id: nat, name: string, metrics: map<Labels, nat>): seq<Slot<nat, nat>> {
    [Slot(id, FamilyState(t, name, "", [], metrics))]
  }

  lemma {:induction false} CollidingRun(behavior: InsertBehavior)
    ensures Run(behavior, CollidingCalls())
            == RegistryState(behavior, OneSlot(Counter, 1, "a_count", map[[] := 1]), [], [], [],
                             OneSlot(Summary, 0, "a", map[[] := 0]))
  {
    var c := CollidingCalls();
    var none: seq<Op<nat, nat>> := [];
    assert c == none + [c[0]] + [c[1]] + [c[2]] + [c[3]];
    RunSnoc(behavior, none, c[0]);
    RunSnoc(behavior, none + [c[0]], c[1]);
    RunSnoc(behavior, none + [c[0]] + [c[1]], c[2]);
    RunSnoc(behavior, none + [c[0]] + [c[1]] + [c[2]], c[3]);
    hide Run, Step;
    var s0: RegistryState<nat, nat> := RegistryState(behavior, [], [], [], [], []);
    EmptyRun(s0);
    FirstCall(s0);
    var s1 := s0.(summaries := OneSlot(Summary, 0, "a", map[]));
    SecondCall(s1);
    var s2 := s1.(counters := OneSlot(Counter, 1, "a_count", map[]));
    ThirdCall(s2);
    FourthCall(s2.(summaries := OneSlot(Summary, 0, "a", map[[] := 0])));
  }

  lemma {:induction false} EmptyRun<F, M>(s: RegistryState<F, M>)
    requires AllSlots(s) == []
    ensures Run(s.behavior, []) == s
  {
  }

  lemma {:induction false} FirstCall(s: RegistryState<nat, nat>)
    requires AllSlots(s) == []
    ensures Step(s, CollidingCalls()[0]) == s.(summaries := OneSlot(Summary, 0, "a", map[]))
  {
    assert CheckMetricName("a");
  }

  lemma {:induction false} SecondCall(s: RegistryState<nat, nat>)
    requires s == RegistryState(s.behavior, [], [], [], [], OneSlot(Summary, 0, "a", map[]))
    ensures Step(s, CollidingCalls()[1]) == s.(counters := OneSlot(Counter, 1, "a_count", map[]))
  {
    assert CheckMetricName("a_count");
    assert !NamedElsewhere(s, Counter, "a_count") by {
      assert s.summaries[0].family.name == "a";
    }
  }

  lemma {:induction false} ThirdCall(s: RegistryState<nat, nat>)
    requires s.summaries == OneSlot(Summary, 0, "a", map[])
    ensures Step(s, CollidingCalls()[2]) == s.(summaries := OneSlot(Summary, 0, "a", map[[] := 0]))
  {
    assert FindId(s.summaries, 0) == 0;
    assert s.summaries[0 := OneSlot(Summary, 0, "a", map[[] := 0])[0]] == OneSlot(Summary, 0, "a", map[[] := 0]);
  }

  lemma {:induction false} FourthCall(s: RegistryState<nat, nat>)
    requires s.counters == OneSlot(Counter, 1, "a_count", map[])
    ensures Step(s, CollidingCalls()[3]) == s.(counters := OneSlot(Counter, 1, "a_count", map[[] := 1]))
  {
    assert FindId(s.counters, 1) == 0;
    assert s.counters[0 := OneSlot(Counter, 1, "a_count", map[[] := 1])[0]]
        == OneSlot(Counter, 1, "a_count", map[[] := 1]);
  }

  /** Both slots hold one metric without labels. */
  lemma {:induction false} TwoSlotsScrape(
    c: Slot<nat, nat>, s: Slot<nat, nat>, counter: ClientMetric, summary: ClientMetric)
    requires c.family.metrics.Keys == s.family.metrics.Keys == {[]}
    ensures Iterated([c] + [s], [[[]], [[]]], [[counter], [summary]])
    ensures Scrape([c] + [s], [[[]], [[]]], [[counter], [summary]])
            == CollectedFamily(c.family, [[]], [counter]) + CollectedFamily(s.family, [[]], [summary])
  {
    var none: seq<Slot<nat, nat>> := [];
    var order: seq<Labels> := [[]];
    ScrapeSnoc(none, [], [], c, order, [counter]);
    ScrapeSnoc([c], [order], [[counter]], s, order, [summary]);
    assert [order] + [order] == [order, order] && [[counter]] + [[summary]] == [[counter], [summary]];
    assert none + [c] == [c];
  }

  lemma {:induction false} CollidingScrape(behavior: InsertBehavior, counter: ClientMetric, summary: ClientMetric)
    ensures var slots := AllSlots(Run(behavior, CollidingCalls()));
            && Iterated(slots, [[[]], [[]]], [[counter], [summary]])
            && Scrape(slots, [[[]], [[]]], [[counter], [summary]])
               == [MetricFamily("a_count", "", Counter, [counter.(labels := [])])]
                  + [MetricFamily("a", "", Summary, [summary.(labels := [])])]
  {
    hide Run, Scrape;
    CollidingRun(behavior);
    var c, s := OneSlot(Counter, 1, "a_count", map[[] := 1])[0], OneSlot(Summary, 0, "a", map[[] := 0])[0];
    assert AllSlots(Run(behavior, CollidingCalls())) == [c] + [s];
    TwoSlotsScrape(c, s, counter, summary);
    OneSeries(c.family, counter);
    OneSeries(s.family, summary);
  }

  lemma {:induction false} OneSeries(f: FamilyState<nat>, reading: ClientMetric)
    requires f.constantLabels == []
    ensures CollectedFamily(f, [[]], [reading])
            == [MetricFamily(f.name, f.help, f.metricType, [reading.(labels := [])])]
  {
    var order: seq<Labels>, readings := [[]], [reading];
    var collected := CollectedFamily(f, order, readings)[0];
    assert order[0] == [] && f.constantLabels + order[0] == [];
    assert collected.metric[0] == CollectedMetric(f, order[0], readings[0]) == reading.(labels := []);
    assert collected.metric == [reading.(labels := [])];
  }

  /** Family names are unique, the names of the printed lines need not be: the registry accepts both families. */
  lemma {:induction false} LinesCanCollide(
    fmt: Format, behavior: InsertBehavior, counter: ClientMetric, summary: ClientMetric)
    ensures var slots := AllSlots(Run(behavior, CollidingCalls()));
            && Iterated(slots, [[[]], [[]]], [[counter], [summary]])
            && var samples := AllSamples(fmt, Scrape(slots, [[[]], [[]]], [[counter], [summary]]));
               && |samples| >= 2 && samples[0].name == samples[1].name == "a_count"
               && samples[0].labels == samples[1].labels == []
  {
    hide Run, AllSlots, CollidingCalls, Scrape, Iterated, NumberText, NatText, FamilySamples, AllSamples;
    CollidingScrape(behavior, counter, summary);
    var f := MetricFamily("a_count", "", Counter, [counter.(labels := [])]);
    var g := MetricFamily("a", "", Summary, [summary.(labels := [])]);
    OneMetric(fmt, f);
    OneMetric(fmt, g);
    TwoFamilies(fmt, f, g);
    assert "a" + "_count" == "a_count";
  }

  lemma {:induction false} OneMetric(fmt: Format, f: MetricFamily)
    requires |f.metric| == 1
    ensures FamilySamples(fmt, f) == MetricSamples(fmt, f.name, f.metricType, f.metric[0])
  {
    hide MetricSamples;
    var one := MetricSamples(fmt, f.name, f.metricType, f.metric[0]);
    assert f.metric[1..] == [] && MetricsSamples(fmt, f, []) == [];
    assert one + [] == one;
  }

  lemma {:induction false} TwoFamilies(fmt: Format, f: MetricFamily, g: MetricFamily)
    ensures AllSamples(fmt, [f] + [g]) == FamilySamples(fmt, f) + FamilySamples(fmt, g)
  {
    hide FamilySamples;
    var first, second := FamilySamples(fmt, f), FamilySamples(fmt, g);
    assert ([f] + [g])[1..] == [g] && [g][1..] == [] && AllSamples(fmt, []) == [];
    assert second + [] == second;
  }
}
