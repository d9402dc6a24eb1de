/** When no two printed lines report the same series: the same name with the same labels. */
module PrintedLines {
  import opened Names
  import opened TextFormat
  import opened LabelSets
  import opened Families
  import opened Registries

  // ----- lines

  ghost predicate SameLine(a: Sample, b: Sample) {
    a.name == b.name && Pairs(a.labels) == Pairs(b.labels)
  }

  ghost predicate DistinctLines(samples: seq<Sample>) {
    forall i, j :: 0 <= i < j < |samples| ==> !SameLine(samples[i], samples[j])
  }

  ghost predicate NoCommonLine(a: seq<Sample>, b: seq<Sample>) {
    forall i, j :: 0 <= i < |a| && 0 <= j < |b| ==> !SameLine(a[i], b[j])
  }

  lemma {:induction false} DistinctAppend(a: seq<Sample>, b: seq<Sample>)
    ensures DistinctLines(a + b) <==> DistinctLines(a) && DistinctLines(b) && NoCommonLine(a, b)
  {
    hide SameLine;
    var c := a + b;
    if DistinctLines(c) {
      forall i, j | 0 <= i < j < |b|
        ensures !SameLine(b[i], b[j])
      {
        assert !SameLine(c[|a| + i], c[|a| + j]);
      }
      forall i, j | 0 <= i < |a| && 0 <= j < |b|
        ensures !SameLine(a[i], b[j])
      {
        assert !SameLine(c[i], c[|a| + j]);
      }
      forall i, j | 0 <= i < j < |a|
        ensures !SameLine(a[i], a[j])
      {
        assert !SameLine(c[i], c[j]);
      }
    }
  }

  lemma {:induction false} NoCommonAppend(a: seq<Sample>, b: seq<Sample>, c: seq<Sample>)
    ensures NoCommonLine(a, b + c) <==> NoCommonLine(a, b) && NoCommonLine(a, c)
    ensures NoCommonLine(b + c, a) <==> NoCommonLine(b, a) && NoCommonLine(c, a)
  {
    hide SameLine;
    var d := b + c;
    assert forall j :: 0 <= j < |b| ==> d[j] == b[j];
    assert forall j :: 0 <= j < |c| ==> d[|b| + j] == c[j];
  }

  // ----- what a metric prints: a suffix behind the family's name, and a label behind the metric's own

  const SUFFIXES: set<string> := {"", "_sum", "_info", "_count", "_bucket"}

  ghost predicate Prints(t: MetricType, suffix: string, extra: seq<Label>) {
    match t
    case Info => suffix == "_info" && extra == []
    case Summary =>
      || (suffix == "_count" && extra == [])
      || (suffix == "_sum" && extra == [])
      || (suffix == "" && |extra| == 1 && extra[0].name == "quantile")
    case Histogram =>
      || (suffix == "_count" && extra == [])
      || (suffix == "_sum" && extra == [])
      || (suffix == "_bucket" && |extra| == 1 && extra[0].name == "le")
    case _ => suffix == "" && extra == []
  }

  ghost predicate IsLine(
    s: Sample, name: string, t: MetricType, labels: seq<Label>, suffix: string, extra: seq<Label>)
  {
    Prints(t, suffix, extra) && suffix in SUFFIXES && s.name == name + suffix && s.labels == labels + extra
  }

  lemma {:induction false} LineShape(fmt: Format, name: string, t: MetricType, m: ClientMetric, i: nat)
    returns (suffix: string, extra: seq<Label>)
    requires i < |MetricSamples(fmt, name, t, m)|
    ensures IsLine(MetricSamples(fmt, name, t, m)[i], name, t, m.labels, suffix, extra)
  {
    var s := MetricSamples(fmt, name, t, m)[i];
    suffix, extra := s.name[|name|..], s.labels[|m.labels|..];
    assert s.labels == m.labels + extra;
    if t.Summary? && 2 <= i {
      assert name == name + "";
    }
  }

  lemma {:induction false} SuffixCancels(name: string, a: string, b: string)
    requires name + a == name + b
    ensures a == b
  {
    assert (name + a)[|name|..] == a && (name + b)[|name|..] == b;
  }

  lemma {:induction false} NameCancels(a: string, b: string, suffix: string)
    requires a + suffix == b + suffix
    ensures a == b
  {
    assert |a| == |b| && (a + suffix)[..|a|] == a && (b + suffix)[..|b|] == b;
  }

  /** Under two names the same suffix cannot meet, and different ones only if one of them is none at all. */
  lemma {:induction false} SuffixesMeet(n: string, a: string, n': string, b: string)
    requires n != n' && a in SUFFIXES && b in SUFFIXES && n + a == n' + b
    ensures (a == "" && b != "" && n == n' + b) || (b == "" && a != "" && n' == n + a)
  {
    if a == b {
      NameCancels(n, n', a);
    } else if a == "" {
      assert n + a == n;
    } else if b == "" {
      assert n' + b == n';
    } else {
      SameEnd(n, a, n', b);
    }
  }

  lemma {:induction false} SameEnd(n: string, a: string, n': string, b: string)
    requires n + a == n' + b && 2 <= |a| && 2 <= |b|
    ensures a[|a| - 1] == b[|b| - 1] && a[|a| - 2] == b[|b| - 2]
  {
    var x := n + a;
    assert x[|x| - 1] == a[|a| - 1] && x[|x| - 2] == a[|a| - 2];
    assert x == n' + b && x[|x| - 1] == b[|b| - 1] && x[|x| - 2] == b[|b| - 2];
  }

  lemma {:induction false} ValidLabelsReserve(t: MetricType, labels: seq<Label>, i: nat)
    requires ValidNames(t, labels) && i < |labels|
    ensures t.Histogram? ==> labels[i].name != "le"
    ensures t.Summary? ==> labels[i].name != "quantile"
  {
    assert CheckLabelName(labels[i].name, t);
  }

  lemma {:induction false} PairsAppend(a: seq<Label>, b: seq<Label>)
    ensures Pairs(a + b) == Pairs(a) + Pairs(b)
  {
  }

  // ----- one metric

  /** The texts of the quantiles, or of the bucket boundaries, which tell the lines of a metric apart. */
  function Texts(fmt: Format, t: MetricType, m: ClientMetric): seq<string> {
    match t
    case Summary =>
      var q := m.summary.quantile;
      seq(|q|, i requires 0 <= i < |q| => NumberText(fmt, q[i].quantile))
    case Histogram =>
      var b := CompleteBuckets(m.histogram);
      seq(|b|, i requires 0 <= i < |b| => NumberText(fmt, b[i].upperBound))
    case _ => []
  }

  ghost predicate DistinctTexts(fmt: Format, t: MetricType, m: ClientMetric) {
    Different(Texts(fmt, t, m))
  }

  ghost predicate Different(texts: seq<string>) {
    forall i, j :: 0 <= i < j < |texts| ==> texts[i] != texts[j]
  }

  /** With a label behind them that has a name of its own, labels are told apart by it and by themselves. */
  lemma {:induction false} ExtraApart(labels: seq<Label>, labels': seq<Label>, l: Label, l': Label)
    requires l.name == l'.name && !HasName(labels, l.name) && !HasName(labels', l.name)
    ensures Pairs(labels + [l]) == Pairs(labels' + [l']) <==> Pairs(labels) == Pairs(labels') && l == l'
  {
    PairsAppend(labels, [l]);
    PairsAppend(labels', [l']);
    assert Pairs([l]) == {l} && Pairs([l']) == {l'};
    NotAmong(labels, l.name);
    NotAmong(labels', l.name);
    if Pairs(labels + [l]) == Pairs(labels' + [l']) {
      assert l in Pairs(labels' + [l']);
      assert Pairs(labels) == Pairs(labels + [l]) - {l};
      assert Pairs(labels') == Pairs(labels' + [l']) - {l'};
    }
  }

  lemma {:induction false} NotAmong(labels: seq<Label>, name: string)
    requires !HasName(labels, name)
    ensures forall l :: l in labels ==> l.name != name
  {
    forall l | l in labels
      ensures l.name != name
    {
      var i :| 0 <= i < |labels| && labels[i] == l;
    }
  }

  lemma {:induction false} ExtraIsNew(t: MetricType, labels: seq<Label>, suffix: string, extra: seq<Label>)
    requires ValidNames(t, labels) && Prints(t, suffix, extra) && extra != []
    ensures |extra| == 1 && !HasName(labels, extra[0].name)
  {
    hide CheckLabelName;
    forall i | 0 <= i < |labels|
      ensures labels[i].name != extra[0].name
    {
      ValidLabelsReserve(t, labels, i);
    }
  }

  /** Two lines of one type and name: alike exactly if their metrics' labels and their extra labels are. */
  lemma {:induction false} LinesOfFamily(
    s: Sample, s': Sample, name: string, t: MetricType, labels: seq<Label>, labels': seq<Label>,
    suffix: string, extra: seq<Label>, suffix': string, extra': seq<Label>)
    requires ValidNames(t, labels) && ValidNames(t, labels')
    requires IsLine(s, name, t, labels, suffix, extra) && IsLine(s', name, t, labels', suffix', extra')
    ensures SameLine(s, s') <==> suffix == suffix' && extra == extra' && Pairs(labels) == Pairs(labels')
  {
    hide CheckLabelName, HasName, Pairs;
    if s.name == s'.name {
      SuffixCancels(name, suffix, suffix');
      if extra != [] {
        ExtraIsNew(t, labels, suffix, extra);
        ExtraIsNew(t, labels', suffix', extra');
        ExtraApart(labels, labels', extra[0], extra'[0]);
        assert extra == [extra[0]] && extra' == [extra'[0]];
      } else {
        assert labels + extra == labels && labels' + extra' == labels';
      }
    }
  }

  lemma {:induction false} MetricLinesDistinct(fmt: Format, name: string, t: MetricType, m: ClientMetric)
    requires ValidNames(t, m.labels)
    ensures DistinctLines(MetricSamples(fmt, name, t, m)) <==> DistinctTexts(fmt, t, m)
  {
    hide CheckLabelName, ValidNames, IsLine, Pairs, NumberText, NatText, CompleteBuckets;
    match t {
      case Summary => SummaryLinesDistinct(fmt, name, m);
      case Histogram => HistogramLinesDistinct(fmt, name, m);
      case _ =>
    }
  }

  /** The first two lines differ from each other and, by their names, from all behind them. */
  lemma {:induction false} TotalsDiffer(name: string, samples: seq<Sample>, suffix: string)
    requires 2 <= |samples| && samples[0].name == name + "_count" && samples[1].name == name + "_sum"
    requires (suffix == "" || suffix == "_bucket") && forall i :: 2 <= i < |samples| ==>
               samples[i].name == name + suffix
    ensures DistinctLines(samples) <==> forall i, j :: 2 <= i < j < |samples| ==> !SameLine(samples[i], samples[j])
  {
    hide Pairs;
    forall i, j | 0 <= i < j < |samples| && i < 2
      ensures !SameLine(samples[i], samples[j])
    {
      assert |samples[i].name| != |samples[j].name|;
    }
  }

  lemma {:induction false} SummaryLinesDistinct(fmt: Format, name: string, m: ClientMetric)
    requires ValidNames(Summary, m.labels)
    ensures DistinctLines(MetricSamples(fmt, name, Summary, m)) <==> DistinctTexts(fmt, Summary, m)
  {
    hide CheckLabelName, ValidNames, Pairs, NumberText, NatText, SameLine, DistinctLines;
    var samples, q := MetricSamples(fmt, name, Summary, m), m.summary.quantile;
    assert name + "" == name;
    TotalsDiffer(name, samples, "");
    forall i, j | 2 <= i < j < |samples|
      ensures SameLine(samples[i], samples[j])
              <==> NumberText(fmt, q[i - 2].quantile) == NumberText(fmt, q[j - 2].quantile)
    {
      var a := Label("quantile", NumberText(fmt, q[i - 2].quantile));
      var b := Label("quantile", NumberText(fmt, q[j - 2].quantile));
      LinesOfFamily(samples[i], samples[j], name, Summary, m.labels, m.labels, "", [a], "", [b]);
    }
    FromTwo(samples, Texts(fmt, Summary, m));
  }

  lemma {:induction false} HistogramLinesDistinct(fmt: Format, name: string, m: ClientMetric)
    requires ValidNames(Histogram, m.labels)
    ensures DistinctLines(MetricSamples(fmt, name, Histogram, m)) <==> DistinctTexts(fmt, Histogram, m)
  {
    hide CheckLabelName, ValidNames, Pairs, NumberText, NatText, CompleteBuckets, SameLine, DistinctLines;
    var samples, b := MetricSamples(fmt, name, Histogram, m), CompleteBuckets(m.histogram);
    TotalsDiffer(name, samples, "_bucket");
    forall i, j | 2 <= i < j < |samples|
      ensures SameLine(samples[i], samples[j])
              <==> NumberText(fmt, b[i - 2].upperBound) == NumberText(fmt, b[j - 2].upperBound)
    {
      var x, y := Label("le", NumberText(fmt, b[i - 2].upperBound)), Label("le", NumberText(fmt, b[j - 2].upperBound));
      LinesOfFamily(samples[i], samples[j], name, Histogram, m.labels, m.labels, "_bucket", [x], "_bucket", [y]);
    }
    FromTwo(samples, Texts(fmt, Histogram, m));
  }

  /** The lines behind the first two, by the texts that tell them apart. */
  lemma {:induction false} FromTwo(samples: seq<Sample>, texts: seq<string>)
    requires |samples| == |texts| + 2
    requires forall i, j :: 2 <= i < j < |samples| ==>
               (SameLine(samples[i], samples[j]) <==> texts[i - 2] == texts[j - 2])
    ensures (forall i, j :: 2 <= i < j < |samples| ==> !SameLine(samples[i], samples[j]))
            <==> Different(texts)
  {
    hide SameLine;
    if forall i, j :: 2 <= i < j < |samples| ==> !SameLine(samples[i], samples[j]) {
      forall i, j | 0 <= i < j < |texts|
        ensures texts[i] != texts[j]
      {
        assert !SameLine(samples[i + 2], samples[j + 2]);
      }
    }
  }

  // ----- from metrics to families to everything: the lines are distinct exactly if their parts are, and pairwise apart

  function LinesOf(fmt: Format, f: MetricFamily, m: ClientMetric): seq<Sample> {
    MetricSamples(fmt, f.name, f.metricType, m)
  }

  lemma {:induction false} MetricApart(fmt: Format, a: seq<Sample>, f: MetricFamily, metrics: seq<ClientMetric>)
    ensures NoCommonLine(a, MetricsSamples(fmt, f, metrics))
            <==> forall k :: 0 <= k < |metrics| ==> NoCommonLine(a, LinesOf(fmt, f, metrics[k]))
    decreases |metrics|
  {
    hide MetricSamples, SameLine;
    if metrics != [] {
      hide NoCommonLine;
      MetricApart(fmt, a, f, metrics[1..]);
      NoCommonAppend(a, LinesOf(fmt, f, metrics[0]), MetricsSamples(fmt, f, metrics[1..]));
      assert forall k :: 1 <= k < |metrics| ==> metrics[k] == metrics[1..][k - 1];
      assert forall k :: 0 <= k < |metrics| - 1 ==> metrics[1..][k] == metrics[k + 1];
    }
  }

  ghost predicate MetricsApart(fmt: Format, f: MetricFamily, metrics: seq<ClientMetric>, g: MetricFamily) {
    forall k, l :: 0 <= k < |metrics| && 0 <= l < |g.metric| ==>
      NoCommonLine(LinesOf(fmt, f, metrics[k]), LinesOf(fmt, g, g.metric[l]))
  }

  lemma {:induction false} FamiliesApart(fmt: Format, f: MetricFamily, metrics: seq<ClientMetric>, g: MetricFamily)
    ensures NoCommonLine(MetricsSamples(fmt, f, metrics), FamilySamples(fmt, g)) <==> MetricsApart(fmt, f, metrics, g)
    decreases |metrics|
  {
    hide LinesOf, SameLine, FamilySamples;
    if metrics != [] {
      hide NoCommonLine;
      FamiliesApart(fmt, f, metrics[1..], g);
      var first := LinesOf(fmt, f, metrics[0]);
      FirstLines(fmt, f, metrics);
      NoCommonAppend(FamilySamples(fmt, g), first, MetricsSamples(fmt, f, metrics[1..]));
      FirstApart(fmt, f, metrics, g);
      assert forall k :: 1 <= k < |metrics| ==> metrics[k] == metrics[1..][k - 1];
      assert forall k :: 0 <= k < |metrics| - 1 ==> metrics[1..][k] == metrics[k + 1];
    }
  }

  lemma {:induction false} FirstLines(fmt: Format, f: MetricFamily, metrics: seq<ClientMetric>)
    requires metrics != []
    ensures MetricsSamples(fmt, f, metrics) == LinesOf(fmt, f, metrics[0]) + MetricsSamples(fmt, f, metrics[1..])
  {
  }

  lemma {:induction false} FirstApart(fmt: Format, f: MetricFamily, metrics: seq<ClientMetric>, g: MetricFamily)
    requires metrics != []
    ensures NoCommonLine(LinesOf(fmt, f, metrics[0]), FamilySamples(fmt, g))
            <==> forall l :: 0 <= l < |g.metric| ==>
                   NoCommonLine(LinesOf(fmt, f, metrics[0]), LinesOf(fmt, g, g.metric[l]))
  {
    hide LinesOf, NoCommonLine;
    MetricApart(fmt, LinesOf(fmt, f, metrics[0]), g, g.metric);
  }

  ghost predicate AllApart(fmt: Format, f: MetricFamily, families: seq<MetricFamily>) {
    forall j :: 0 <= j < |families| ==> NoCommonLine(FamilySamples(fmt, f), FamilySamples(fmt, families[j]))
  }

  lemma {:induction false} ApartFromAll(fmt: Format, f: MetricFamily, families: seq<MetricFamily>)
    ensures NoCommonLine(FamilySamples(fmt, f), AllSamples(fmt, families)) <==> AllApart(fmt, f, families)
    decreases |families|
  {
    hide FamilySamples, SameLine;
    if families != [] {
      hide NoCommonLine;
      ApartFromAll(fmt, f, families[1..]);
      NoCommonAppend(FamilySamples(fmt, f), FamilySamples(fmt, families[0]), AllSamples(fmt, families[1..]));
      assert forall k :: 1 <= k < |families| ==> families[k] == families[1..][k - 1];
      assert forall k :: 0 <= k < |families| - 1 ==> families[1..][k] == families[k + 1];
    }
  }

  ghost predicate PairwiseApart(fmt: Format, families: seq<MetricFamily>) {
    forall i, j :: 0 <= i < j < |families| ==>
      NoCommonLine(FamilySamples(fmt, families[i]), FamilySamples(fmt, families[j]))
  }

  lemma {:induction false} AllDistinct(fmt: Format, families: seq<MetricFamily>)
    ensures DistinctLines(AllSamples(fmt, families))
            <==> PairwiseApart(fmt, families)
                 && forall i :: 0 <= i < |families| ==> DistinctLines(FamilySamples(fmt, families[i]))
    decreases |families|
  {
    hide FamilySamples, SameLine;
    if families != [] {
      hide NoCommonLine, DistinctLines;
      AllDistinct(fmt, families[1..]);
      DistinctAppend(FamilySamples(fmt, families[0]), AllSamples(fmt, families[1..]));
      ApartFromAll(fmt, families[0], families[1..]);
      assert forall k :: 1 <= k < |families| ==> families[k] == families[1..][k - 1];
      assert forall k :: 0 <= k < |families| - 1 ==> families[1..][k] == families[k + 1];
    }
  }

  // ----- one family

  lemma {:induction false} SeriesApart(fmt: Format, name: string, t: MetricType, m: ClientMetric, m': ClientMetric)
    requires ValidNames(t, m.labels) && ValidNames(t, m'.labels) && Pairs(m.labels) != Pairs(m'.labels)
    ensures NoCommonLine(MetricSamples(fmt, name, t, m), MetricSamples(fmt, name, t, m'))
  {
    hide ValidNames, Pairs, SameLine, MetricSamples, IsLine;
    var a, b := MetricSamples(fmt, name, t, m), MetricSamples(fmt, name, t, m');
    forall i, j | 0 <= i < |a| && 0 <= j < |b|
      ensures !SameLine(a[i], b[j])
    {
      var suffix, extra := LineShape(fmt, name, t, m, i);
      var suffix', extra' := LineShape(fmt, name, t, m', j);
      LinesOfFamily(a[i], b[j], name, t, m.labels, m'.labels, suffix, extra, suffix', extra');
    }
  }

  lemma {:induction false} MetricsDistinct(fmt: Format, f: MetricFamily, metrics: seq<ClientMetric>)
    requires DistinctSeries(f.(metric := metrics))
    ensures DistinctLines(MetricsSamples(fmt, f, metrics))
            <==> forall k :: 0 <= k < |metrics| ==> DistinctTexts(fmt, f.metricType, metrics[k])
    decreases |metrics|
  {
    hide MetricSamples, SameLine, DistinctTexts, Pairs, ValidNames;
    if metrics != [] {
      hide NoCommonLine, DistinctLines;
      var m := metrics[0];
      assert forall k :: 1 <= k < |metrics| ==> metrics[k] == metrics[1..][k - 1];
      assert forall k :: 0 <= k < |metrics| - 1 ==> metrics[1..][k] == metrics[k + 1];
      MetricsDistinct(fmt, f, metrics[1..]);
      DistinctAppend(MetricSamples(fmt, f.name, f.metricType, m), MetricsSamples(fmt, f, metrics[1..]));
      MetricLinesDistinct(fmt, f.name, f.metricType, m);
      forall k | 1 <= k < |metrics|
        ensures NoCommonLine(LinesOf(fmt, f, m), LinesOf(fmt, f, metrics[k]))
      {
        SeriesApart(fmt, f.name, f.metricType, m, metrics[k]);
      }
      MetricApart(fmt, LinesOf(fmt, f, m), f, metrics[1..]);
    }
  }

  // ----- two families

  /** What a family of a type prints behind its name. */
  function Suffixes(t: MetricType): set<string> {
    match t
    case Summary => {"_count", "_sum"}
    case Histogram => {"_count", "_sum", "_bucket"}
    case Info => {"_info"}
    case _ => {}
  }

  /** Types that print lines under the bare name of the family. */
  predicate PrintsBare(t: MetricType) {
    t != Histogram && t != Info
  }

  /** The labels that a metric's lines under a suffix have behind the metric's own. */
  function Extras(fmt: Format, t: MetricType, m: ClientMetric, suffix: string): seq<seq<Label>> {
    var texts := Texts(fmt, t, m);
    if suffix == "" && t.Summary? then
      seq(|texts|, i requires 0 <= i < |texts| => [Label("quantile", texts[i])])
    else if suffix == "_bucket" && t.Histogram? then
      seq(|texts|, i requires 0 <= i < |texts| => [Label("le", texts[i])])
    else if suffix in Suffixes(t) || (suffix == "" && PrintsBare(t)) then [[]]
    else []
  }

  lemma {:induction false} LineHasExtra(fmt: Format, name: string, t: MetricType, m: ClientMetric, i: nat)
    returns (suffix: string, k: nat)
    requires i < |MetricSamples(fmt, name, t, m)|
    ensures suffix in SUFFIXES && k < |Extras(fmt, t, m, suffix)|
    ensures MetricSamples(fmt, name, t, m)[i].name == name + suffix
    ensures MetricSamples(fmt, name, t, m)[i].labels == m.labels + Extras(fmt, t, m, suffix)[k]
  {
    hide CompleteBuckets, NumberText, NatText;
    var s := MetricSamples(fmt, name, t, m)[i];
    assert name + "" == name && m.labels + [] == m.labels;
    suffix, k := s.name[|name|..], if 2 <= i then i - 2 else 0;
  }

  lemma {:induction false} ExtraHasLine(
    fmt: Format, name: string, t: MetricType, m: ClientMetric, suffix: string, k: nat)
    returns (i: nat)
    requires k < |Extras(fmt, t, m, suffix)|
    ensures i < |MetricSamples(fmt, name, t, m)|
    ensures MetricSamples(fmt, name, t, m)[i].name == name + suffix
    ensures MetricSamples(fmt, name, t, m)[i].labels == m.labels + Extras(fmt, t, m, suffix)[k]
  {
    hide CompleteBuckets, NumberText, NatText;
    assert name + "" == name && m.labels + [] == m.labels;
    i := if suffix == "_sum" then 1 else if suffix == "_bucket" || (suffix == "" && t.Summary?) then k + 2 else 0;
  }

  /** One of the labels printed for a metric under a suffix are, as a set, those of another one under its bare name. */
  ghost predicate LabelsMeet(
    fmt: Format, t: MetricType, m: ClientMetric, suffix: string, t': MetricType, m': ClientMetric)
  {
    exists k, l :: 0 <= k < |Extras(fmt, t, m, suffix)| && 0 <= l < |Extras(fmt, t', m', "")|
      && Pairs(m.labels + Extras(fmt, t, m, suffix)[k]) == Pairs(m'.labels + Extras(fmt, t', m', "")[l])
  }

  /** The second name is that of a line of the first metric, and the labels meet. */
  ghost predicate Meets(
    fmt: Format, n: string, t: MetricType, m: ClientMetric, n': string, t': MetricType, m': ClientMetric)
  {
    exists suffix :: suffix in Suffixes(t) && n' == n + suffix && LabelsMeet(fmt, t, m, suffix, t', m')
  }

  lemma {:induction false} NoCommonSymmetric(a: seq<Sample>, b: seq<Sample>)
    ensures NoCommonLine(a, b) <==> NoCommonLine(b, a)
  {
  }

  lemma {:induction false} MeetingHasCommon(
    fmt: Format, n: string, t: MetricType, m: ClientMetric, n': string, t': MetricType, m': ClientMetric)
    requires Meets(fmt, n, t, m, n', t', m')
    ensures !NoCommonLine(MetricSamples(fmt, n, t, m), MetricSamples(fmt, n', t', m'))
  {
    hide MetricSamples, Extras, Pairs, Suffixes;
    var suffix :| suffix in Suffixes(t) && n' == n + suffix && LabelsMeet(fmt, t, m, suffix, t', m');
    var k: nat, l: nat :| k < |Extras(fmt, t, m, suffix)| && l < |Extras(fmt, t', m', "")|
      && Pairs(m.labels + Extras(fmt, t, m, suffix)[k]) == Pairs(m'.labels + Extras(fmt, t', m', "")[l]);
    var i := ExtraHasLine(fmt, n, t, m, suffix, k);
    var j := ExtraHasLine(fmt, n', t', m', "", l);
    assert n' + "" == n';
    assert SameLine(MetricSamples(fmt, n, t, m)[i], MetricSamples(fmt, n', t', m')[j]);
  }

  lemma {:induction false} OtherSuffixes(fmt: Format, t: MetricType, m: ClientMetric, suffix: string)
    requires suffix != "" && Extras(fmt, t, m, suffix) != []
    ensures suffix in Suffixes(t)
  {
  }

  lemma {:induction false} CommonIsMeeting(
    fmt: Format, n: string, t: MetricType, m: ClientMetric, i: nat,
    n': string, t': MetricType, m': ClientMetric, j: nat)
    requires n != n' && i < |MetricSamples(fmt, n, t, m)| && j < |MetricSamples(fmt, n', t', m')|
    requires SameLine(MetricSamples(fmt, n, t, m)[i], MetricSamples(fmt, n', t', m')[j])
    ensures Meets(fmt, n, t, m, n', t', m') || Meets(fmt, n', t', m', n, t, m)
  {
    hide MetricSamples, Extras, Pairs, Suffixes;
    var suffix, k := LineHasExtra(fmt, n, t, m, i);
    var suffix', l := LineHasExtra(fmt, n', t', m', j);
    SuffixesMeet(n, suffix, n', suffix');
    if suffix == "" {
      OtherSuffixes(fmt, t', m', suffix');
      assert LabelsMeet(fmt, t', m', suffix', t, m);
    } else {
      OtherSuffixes(fmt, t, m, suffix);
      assert LabelsMeet(fmt, t, m, suffix, t', m');
    }
  }

  /** Under two names, two metrics print a line of the same series if and only if they meet. */
  lemma {:induction false} MeetExactly(
    fmt: Format, n: string, t: MetricType, m: ClientMetric, n': string, t': MetricType, m': ClientMetric)
    requires n != n'
    ensures NoCommonLine(MetricSamples(fmt, n, t, m), MetricSamples(fmt, n', t', m'))
            <==> !Meets(fmt, n, t, m, n', t', m') && !Meets(fmt, n', t', m', n, t, m)
  {
    hide MetricSamples, SameLine, Meets;
    var a, b := MetricSamples(fmt, n, t, m), MetricSamples(fmt, n', t', m');
    NoCommonSymmetric(a, b);
    if Meets(fmt, n, t, m, n', t', m') { MeetingHasCommon(fmt, n, t, m, n', t', m'); }
    if Meets(fmt, n', t', m', n, t, m) { MeetingHasCommon(fmt, n', t', m', n, t, m); }
    if !NoCommonLine(a, b) {
      var i: nat, j: nat :| i < |a| && j < |b| && SameLine(a[i], b[j]);
      CommonIsMeeting(fmt, n, t, m, i, n', t', m', j);
    }
  }

  // ----- all families of a scrape

  /** Some metrics of the two families meet. */
  ghost predicate FamiliesMeet(fmt: Format, f: MetricFamily, g: MetricFamily) {
    exists k, l :: 0 <= k < |f.metric| && 0 <= l < |g.metric| && MetricsMeet(fmt, f, k, g, l)
  }

  ghost predicate MetricsMeet(fmt: Format, f: MetricFamily, k: nat, g: MetricFamily, l: nat)
    requires k < |f.metric| && l < |g.metric|
  {
    Meets(fmt, f.name, f.metricType, f.metric[k], g.name, g.metricType, g.metric[l])
  }

  lemma {:induction false} FamiliesMeetExactly(fmt: Format, f: MetricFamily, g: MetricFamily)
    requires f.name != g.name
    ensures NoCommonLine(FamilySamples(fmt, f), FamilySamples(fmt, g))
            <==> !FamiliesMeet(fmt, f, g) && !FamiliesMeet(fmt, g, f)
  {
    hide NoCommonLine, MetricSamples, MetricsSamples, Meets;
    FamiliesApart(fmt, f, f.metric, g);
    forall k, l | 0 <= k < |f.metric| && 0 <= l < |g.metric|
      ensures NoCommonLine(LinesOf(fmt, f, f.metric[k]), LinesOf(fmt, g, g.metric[l]))
              <==> !MetricsMeet(fmt, f, k, g, l) && !MetricsMeet(fmt, g, l, f, k)
    {
      MeetExactly(fmt, f.name, f.metricType, f.metric[k], g.name, g.metricType, g.metric[l]);
    }
  }

  lemma {:induction false} MeetingNames(fmt: Format, f: MetricFamily, g: MetricFamily)
    requires FamiliesMeet(fmt, f, g)
    ensures f.name != g.name
  {
    hide LabelsMeet;
  }

  ghost predicate NoneMeet(fmt: Format, families: seq<MetricFamily>) {
    forall i, j :: 0 <= i < |families| && 0 <= j < |families| && i != j ==> !FamiliesMeet(fmt, families[i], families[j])
  }

  /** The texts that tell the lines of each metric apart do so. */
  ghost predicate AllTextsDistinct(fmt: Format, families: seq<MetricFamily>) {
    forall i, k :: 0 <= i < |families| && 0 <= k < |families[i].metric| ==>
      DistinctTexts(fmt, families[i].metricType, families[i].metric[k])
  }

  /**
    All lines are distinct exactly if no metric has two quantiles, or two bucket boundaries, that are
    printed alike, and wherever a family is named like a line of another one, their labels do not meet.
   */
  lemma {:induction false} LinesDistinctExactly(fmt: Format, families: seq<MetricFamily>)
    requires DistinctFamilies(families)
    ensures DistinctLines(AllSamples(fmt, families)) <==> AllTextsDistinct(fmt, families) && NoneMeet(fmt, families)
  {
    hide DistinctLines, DistinctSeries, DistinctTexts, FamilySamples, AllSamples, CheckMetricName, FamiliesMeet;
    hide NoCommonLine;
    AllDistinct(fmt, families);
    forall i, j | 0 <= i < j < |families|
      ensures NoCommonLine(FamilySamples(fmt, families[i]), FamilySamples(fmt, families[j]))
              <==> !FamiliesMeet(fmt, families[i], families[j]) && !FamiliesMeet(fmt, families[j], families[i])
    {
      FamiliesMeetExactly(fmt, families[i], families[j]);
    }
    forall i | 0 <= i < |families|
      ensures DistinctLines(FamilySamples(fmt, families[i]))
              <==> forall k :: 0 <= k < |families[i].metric| ==>
                     DistinctTexts(fmt, families[i].metricType, families[i].metric[k])
    {
      OneFamily(fmt, families[i]);
    }
  }

  lemma {:induction false} OneFamily(fmt: Format, f: MetricFamily)
    requires DistinctSeries(f)
    ensures DistinctLines(FamilySamples(fmt, f))
            <==> forall k :: 0 <= k < |f.metric| ==> DistinctTexts(fmt, f.metricType, f.metric[k])
  {
    hide DistinctSeries, DistinctLines, DistinctTexts, MetricsSamples;
    assert f.(metric := f.metric) == f;
    MetricsDistinct(fmt, f, f.metric);
  }

  // ----- which names and types can meet at all

  /**
    The second family is named like a line of the first, and prints lines of that name. Of two
    summaries only the second one's lines have a quantile, which no label of the first can be.
   */
  ghost predicate Clash(n: string, t: MetricType, n': string, t': MetricType) {
    PrintsBare(t') && !(t.Summary? && t'.Summary?) && exists suffix :: suffix in Suffixes(t) && n' == n + suffix
  }

  lemma {:induction false} BareExtras(fmt: Format, t: MetricType, m: ClientMetric, k: nat)
    requires k < |Extras(fmt, t, m, "")|
    ensures PrintsBare(t)
    ensures t.Summary? ==> |Extras(fmt, t, m, "")[k]| == 1 && Extras(fmt, t, m, "")[k][0].name == "quantile"
  {
    hide Texts;
  }

  lemma {:induction false} TotalExtras(fmt: Format, m: ClientMetric, suffix: string, k: nat)
    requires suffix in Suffixes(Summary) && k < |Extras(fmt, Summary, m, suffix)|
    ensures Extras(fmt, Summary, m, suffix)[k] == []
  {
    hide Texts;
  }

  /** The labels of a summary do not have a quantile among them. */
  lemma {:induction false} QuantileIsNew(labels: seq<Label>, labels': seq<Label>, quantile: Label)
    requires ValidNames(Summary, labels) && quantile.name == "quantile"
    ensures Pairs(labels + []) != Pairs(labels' + [quantile])
  {
    hide CheckLabelName, ValidNames;
    PairsAppend(labels, []);
    PairsAppend(labels', [quantile]);
    assert quantile in Pairs(labels' + [quantile]);
    if quantile in Pairs(labels) {
      var i :| 0 <= i < |labels| && labels[i] == quantile;
      ValidLabelsReserve(Summary, labels, i);
    }
  }

  lemma {:induction false} MeetingClashes(
    fmt: Format, n: string, t: MetricType, m: ClientMetric, n': string, t': MetricType, m': ClientMetric)
    requires ValidNames(t, m.labels) && Meets(fmt, n, t, m, n', t', m')
    ensures Clash(n, t, n', t')
  {
    hide ValidNames, Extras, Suffixes, Pairs;
    var suffix :| suffix in Suffixes(t) && n' == n + suffix && LabelsMeet(fmt, t, m, suffix, t', m');
    var k: nat, l: nat :| k < |Extras(fmt, t, m, suffix)| && l < |Extras(fmt, t', m', "")|
      && Pairs(m.labels + Extras(fmt, t, m, suffix)[k]) == Pairs(m'.labels + Extras(fmt, t', m', "")[l]);
    BareExtras(fmt, t', m', l);
    if t.Summary? && t'.Summary? {
      var extra := Extras(fmt, t', m', "")[l];
      TotalExtras(fmt, m, suffix, k);
      assert extra == [extra[0]];
      QuantileIsNew(m.labels, m'.labels, extra[0]);
    }
  }

  /** Whether two families can have metrics, with labels that they accept, of which two lines report the same series. */
  ghost predicate CanMeet(fmt: Format, n: string, t: MetricType, n': string, t': MetricType) {
    exists m: ClientMetric, m': ClientMetric :: CanMeetIn(fmt, n, t, m, n', t', m')
  }

  ghost predicate CanMeetIn(
    fmt: Format, n: string, t: MetricType, m: ClientMetric, n': string, t': MetricType, m': ClientMetric)
  {
    && ValidNames(t, m.labels) && ValidNames(t', m'.labels) && DistinctNames(m.labels) && DistinctNames(m'.labels)
    && !NoCommonLine(MetricSamples(fmt, n, t, m), MetricSamples(fmt, n', t', m'))
  }

  /** The metric of a summary with one quantile and of a histogram with no boundaries, of which only these matter. */
  function Plain(labels: seq<Label>): ClientMetric {
    var zero := Finite(0.0);
    ClientMetric(labels, zero, zero, zero,
                 SummaryData(0, zero, [QuantileValue(Finite(0.5), zero)]), HistogramData(0, zero, []), zero, 0)
  }

  lemma {:induction false} ReservedNames(t: MetricType, value: string)
    ensures t != Histogram ==> ValidNames(t, [Label("le", value)])
    ensures t != Summary ==> ValidNames(t, [Label("quantile", value)])
  {
  }

  lemma {:induction false} ClashMeets(fmt: Format, n: string, t: MetricType, n': string, t': MetricType)
    requires Clash(n, t, n', t')
    ensures CanMeet(fmt, n, t, n', t') && CanMeet(fmt, n', t', n, t)
  {
    hide CheckLabelName, CanMeet, MetricSamples;
    var suffix :| suffix in Suffixes(t) && n' == n + suffix;
    var le, quantile := Label("le", "+Inf"), Label("quantile", NumberText(fmt, Finite(0.5)));
    ReservedNames(t, quantile.value);
    ReservedNames(t', le.value);
    var m := Plain(if t'.Summary? then [quantile] else []);
    var m' := Plain(if suffix == "_bucket" then [le] else []);
    assert Extras(fmt, t, m, suffix)[0] == m'.labels;
    assert Extras(fmt, t', m', "")[0] == m.labels;
    PairsAppend(m.labels, m'.labels);
    PairsAppend(m'.labels, m.labels);
    assert LabelsMeet(fmt, t, m, suffix, t', m');
    MeetingHasCommon(fmt, n, t, m, n', t', m');
    NoCommonSymmetric(MetricSamples(fmt, n, t, m), MetricSamples(fmt, n', t', m'));
    MeetIn(fmt, n, t, m, n', t', m');
    MeetIn(fmt, n', t', m', n, t, m);
  }

  lemma {:induction false} MeetIn(
    fmt: Format, n: string, t: MetricType, m: ClientMetric, n': string, t': MetricType, m': ClientMetric)
    requires CanMeetIn(fmt, n, t, m, n', t', m')
    ensures CanMeet(fmt, n, t, n', t')
  {
  }

  /**
    Under two different names two families can print the same series exactly if one is named like a
    line of the other.
   */
  lemma {:induction false} ClashExactly(fmt: Format, n: string, t: MetricType, n': string, t': MetricType)
    requires n != n'
    ensures CanMeet(fmt, n, t, n', t') <==> Clash(n, t, n', t') || Clash(n', t', n, t)
  {
    hide Clash, Meets, MetricSamples, ValidNames, DistinctNames, NoCommonLine;
    if Clash(n, t, n', t') { ClashMeets(fmt, n, t, n', t'); }
    if Clash(n', t', n, t) { ClashMeets(fmt, n', t', n, t); }
    if CanMeet(fmt, n, t, n', t') {
      var m: ClientMetric, m': ClientMetric :| CanMeetIn(fmt, n, t, m, n', t', m');
      MeetExactly(fmt, n, t, m, n', t', m');
      if Meets(fmt, n, t, m, n', t', m') { MeetingClashes(fmt, n, t, m, n', t', m'); }
      else { MeetingClashes(fmt, n', t', m', n, t, m); }
    }
  }

  ghost predicate NoClashes(families: seq<MetricFamily>) {
    forall i, j :: 0 <= i < |families| && 0 <= j < |families| && i != j ==>
      !Clash(families[i].name, families[i].metricType, families[j].name, families[j].metricType)
  }

  lemma {:induction false} NoClashNoMeeting(fmt: Format, families: seq<MetricFamily>)
    requires DistinctFamilies(families) && NoClashes(families)
    ensures NoneMeet(fmt, families)
  {
    hide Clash, Meets, ValidNames, CheckMetricName, Pairs;
    forall i, j | 0 <= i < |families| && 0 <= j < |families| && i != j
      ensures !FamiliesMeet(fmt, families[i], families[j])
    {
      var f, g := families[i], families[j];
      forall k, l | 0 <= k < |f.metric| && 0 <= l < |g.metric|
        ensures !MetricsMeet(fmt, f, k, g, l)
      {
        if MetricsMeet(fmt, f, k, g, l) {
          MeetingClashes(fmt, f.name, f.metricType, f.metric[k], g.name, g.metricType, g.metric[l]);
        }
      }
    }
  }

  /**
    If no family is named like a line of another, then all lines are distinct exactly if no metric
    has two quantiles, or two bucket boundaries, that are printed alike.
   */
  lemma {:induction false} LinesDistinct(fmt: Format, families: seq<MetricFamily>)
    requires DistinctFamilies(families) && NoClashes(families)
    ensures DistinctLines(AllSamples(fmt, families)) <==> AllTextsDistinct(fmt, families)
  {
    hide DistinctFamilies, NoClashes, DistinctLines, AllTextsDistinct, NoneMeet;
    NoClashNoMeeting(fmt, families);
    LinesDistinctExactly(fmt, families);
  }

  // ----- on every run of a registry

  /** No registered family is named like a line of another one. */
  ghost predicate NamesApart<F, M>(slots: seq<Slot<F, M>>) {
    forall i, j :: 0 <= i < |slots| && 0 <= j < |slots| && i != j ==>
      !Clash(slots[i].family.name, slots[i].family.metricType, slots[j].family.name, slots[j].family.metricType)
  }

  ghost predicate FromSlot<F, M>(slots: seq<Slot<F, M>>, c: MetricFamily, i: nat) {
    i < |slots| && c.name == slots[i].family.name && c.metricType == slots[i].family.metricType
  }

  lemma {:induction false} ScrapeFromSlots<F, M>(
    slots: seq<Slot<F, M>>, orders: seq<seq<Labels>>, readings: seq<seq<ClientMetric>>, c: MetricFamily)
    returns (i: nat)
    requires Iterated(slots, orders, readings) && c in Scrape(slots, orders, readings)
    ensures FromSlot(slots, c, i)
    decreases |slots|
  {
    var n := |slots| - 1;
    if c in Scrape(slots[..n], orders[..n], readings[..n]) {
      i := ScrapeFromSlots(slots[..n], orders[..n], readings[..n], c);
    } else {
      i := n;
    }
  }

  lemma {:induction false} ScrapeNamesApart<F, M>(
    slots: seq<Slot<F, M>>, orders: seq<seq<Labels>>, readings: seq<seq<ClientMetric>>)
    requires Iterated(slots, orders, readings) && NamesApart(slots) && DistinctFamilies(Scrape(slots, orders, readings))
    ensures NoClashes(Scrape(slots, orders, readings))
  {
    hide Iterated, Scrape, Clash, DistinctSeries, CheckMetricName;
    var families := Scrape(slots, orders, readings);
    forall i, j | 0 <= i < |families| && 0 <= j < |families| && i != j
      ensures !Clash(families[i].name, families[i].metricType, families[j].name, families[j].metricType)
    {
      var a := ScrapeFromSlots(slots, orders, readings, families[i]);
      var b := ScrapeFromSlots(slots, orders, readings, families[j]);
    }
  }

  /**
    After every run of calls the lines of a scrape are distinct exactly if no metric has two quantiles
    or boundaries that are printed alike, and no metrics meet under clashing names. The latter need not
    be looked at if no registered family is named like a line of another one.
   */
  lemma {:induction false} EveryScrapeLinesDistinct<F, M>(
    fmt: Format, behavior: InsertBehavior, ops: seq<Op<F, M>>,
    orders: seq<seq<Labels>>, readings: seq<seq<ClientMetric>>)
    requires Iterated(AllSlots(Run(behavior, ops)), orders, readings)
    ensures var families := Scrape(AllSlots(Run(behavior, ops)), orders, readings);
            && (DistinctLines(AllSamples(fmt, families))
                <==> AllTextsDistinct(fmt, families) && NoneMeet(fmt, families))
            && (NamesApart(AllSlots(Run(behavior, ops))) ==> NoneMeet(fmt, families))
  {
    hide Run, AllSlots, Iterated, Scrape, DistinctFamilies, DistinctLines, AllTextsDistinct, NoneMeet, NamesApart;
    hide NoClashes;
    EveryScrapeIsDistinct(behavior, ops, orders, readings);
    var slots := AllSlots(Run(behavior, ops));
    var families := Scrape(slots, orders, readings);
    LinesDistinctExactly(fmt, families);
    if NamesApart(slots) {
      ScrapeNamesApart(slots, orders, readings);
      NoClashNoMeeting(fmt, families);
    }
  }

  /** Lines do collide, whatever else is collected, as soon as two metrics meet. */
  lemma {:induction false} ClashCollides(fmt: Format, families: seq<MetricFamily>, i: nat, j: nat)
    requires i < |families| && j < |families| && i != j && FamiliesMeet(fmt, families[i], families[j])
    ensures !DistinctLines(AllSamples(fmt, families))
  {
    MeetingNames(fmt, families[i], families[j]);
    hide DistinctLines, FamilySamples, AllSamples, FamiliesMeet, NoCommonLine;
    AllDistinct(fmt, families);
    FamiliesMeetExactly(fmt, families[i], families[j]);
    NoCommonSymmetric(FamilySamples(fmt, families[i]), FamilySamples(fmt, families[j]));
  }
}
