/** What the printed text says about a metric, line by line: which field stands where, under which name. */
module PrintedValues {
  import opened Names
  import opened TextFormat
  import opened TextReader

  /** The text of a number, as far as it is known. */
  ghost predicate Shows(fmt: Format, v: Number, text: string) {
    && (v == NaN ==> text == "Nan")
    && (v == PosInf ==> text == "+Inf")
    && (v == NegInf ==> text == "-Inf")
    && (v.Finite? ==> text == fmt(v.value))
  }

  /** The text of a count: digits, and its decimal value. */
  ghost predicate ShowsCount(n: nat, text: string) {
    IsNumber(text) && ReadNat(text) == n
  }

  ghost predicate IsTotals(
    fmt: Format, name: string, labels: seq<Label>, count: nat, sum: Number, lines: seq<Sample>)
  {
    && 2 <= |lines|
    && lines[0].name == name + "_count" && lines[0].labels == labels && ShowsCount(count, lines[0].value)
    && lines[1].name == name + "_sum" && lines[1].labels == labels && Shows(fmt, sum, lines[1].value)
  }

  ghost predicate IsQuantile(fmt: Format, name: string, labels: seq<Label>, q: QuantileValue, line: Sample) {
    && line.name == name
    && |line.labels| == |labels| + 1 && line.labels[..|labels|] == labels
    && line.labels[|labels|].name == "quantile" && Shows(fmt, q.quantile, line.labels[|labels|].value)
    && Shows(fmt, q.value, line.value)
  }

  ghost predicate IsBucket(
    fmt: Format, name: string, labels: seq<Label>, cumulativeCount: nat, upperBound: Number, line: Sample)
  {
    && line.name == name + "_bucket"
    && |line.labels| == |labels| + 1 && line.labels[..|labels|] == labels
    && line.labels[|labels|].name == "le" && Shows(fmt, upperBound, line.labels[|labels|].value)
    && ShowsCount(cumulativeCount, line.value)
  }

  predicate EndsAtInfinity(h: HistogramData) {
    h.bucket != [] && h.bucket[|h.bucket| - 1].upperBound == PosInf
  }

  /** How many lines a metric has. */
  function LineCount(t: MetricType, m: ClientMetric): nat {
    match t
    case Summary => 2 + |m.summary.quantile|
    case Histogram => 2 + |m.histogram.bucket| + if EndsAtInfinity(m.histogram) then 0 else 1
    case _ => 1
  }

  /** The lines of one metric: the fields of its own type, in this order, all with its labels and its timestamp. */
  ghost predicate Says(fmt: Format, name: string, t: MetricType, m: ClientMetric, lines: seq<Sample>) {
    && |lines| == LineCount(t, m)
    && (forall i :: 0 <= i < |lines| ==> lines[i].timestampMs == m.timestampMs)
    && match t
       case Counter => lines[0].name == name && lines[0].labels == m.labels && Shows(fmt, m.counter, lines[0].value)
       case Gauge => lines[0].name == name && lines[0].labels == m.labels && Shows(fmt, m.gauge, lines[0].value)
       case Untyped => lines[0].name == name && lines[0].labels == m.labels && Shows(fmt, m.untyped, lines[0].value)
       case Info =>
         lines[0].name == name + "_info" && lines[0].labels == m.labels && Shows(fmt, m.info, lines[0].value)
       case Summary =>
         var q := m.summary.quantile;
         && IsTotals(fmt, name, m.labels, m.summary.sampleCount, m.summary.sampleSum, lines)
         && forall i :: 0 <= i < |q| ==> IsQuantile(fmt, name, m.labels, q[i], lines[i + 2])
       case Histogram =>
         var h, b := m.histogram, m.histogram.bucket;
         && IsTotals(fmt, name, m.labels, h.sampleCount, h.sampleSum, lines)
         && (forall i :: 0 <= i < |b| ==>
               IsBucket(fmt, name, m.labels, b[i].cumulativeCount, b[i].upperBound, lines[i + 2]))
         && (!EndsAtInfinity(h) ==> IsBucket(fmt, name, m.labels, h.sampleCount, PosInf, lines[|b| + 2]))
  }

  lemma {:induction false} NatTextShows(n: nat)
    ensures ShowsCount(n, NatText(n))
  {
    NatRoundTrip(n);
  }

  lemma {:induction false} TotalsSay(
    fmt: Format, name: string, m: ClientMetric, count: nat, sum: Number, lines: seq<Sample>)
    requires 2 <= |lines|
    requires lines[0] == Sample(name + "_count", m.labels, NatText(count), m.timestampMs)
    requires lines[1] == Sample(name + "_sum", m.labels, NumberText(fmt, sum), m.timestampMs)
    ensures IsTotals(fmt, name, m.labels, count, sum, lines)
  {
    hide ShowsCount, NatText;
    NatTextShows(count);
  }

  lemma {:induction false} SummarySays(fmt: Format, name: string, m: ClientMetric)
    ensures Says(fmt, name, Summary, m, MetricSamples(fmt, name, Summary, m))
  {
    hide IsTotals, IsQuantile, IsBucket, NatText, NumberText;
    var lines, q := MetricSamples(fmt, name, Summary, m), m.summary.quantile;
    TotalsSay(fmt, name, m, m.summary.sampleCount, m.summary.sampleSum, lines);
    forall i | 0 <= i < |q|
      ensures IsQuantile(fmt, name, m.labels, q[i], lines[i + 2])
    {
      QuantileSays(fmt, name, m, i);
      assert lines[i + 2] == QuantileSamples(fmt, name, m, q)[i];
    }
  }

  lemma {:induction false} HistogramLines(fmt: Format, name: string, m: ClientMetric)
    ensures var lines, all := MetricSamples(fmt, name, Histogram, m), CompleteBuckets(m.histogram);
            && |lines| == |all| + 2
            && lines[0] == Sample(name + "_count", m.labels, NatText(m.histogram.sampleCount), m.timestampMs)
            && lines[1] == Sample(name + "_sum", m.labels, NumberText(fmt, m.histogram.sampleSum), m.timestampMs)
            && (forall i :: 0 <= i < |lines| ==> lines[i].timestampMs == m.timestampMs)
            && forall i :: 0 <= i < |all| ==> lines[i + 2] == BucketSamples(fmt, name, m, all)[i]
  {
    hide CompleteBuckets, NatText, NumberText;
  }

  lemma {:induction false} CompletedBuckets(h: HistogramData)
    ensures var b, all := h.bucket, CompleteBuckets(h);
            && |all| == |b| + (if EndsAtInfinity(h) then 0 else 1)
            && (forall i :: 0 <= i < |b| ==> all[i] == b[i])
            && (!EndsAtInfinity(h) ==> all[|b|] == Bucket(h.sampleCount, PosInf))
  {
  }

  lemma {:induction false} HistogramSays(fmt: Format, name: string, m: ClientMetric)
    ensures Says(fmt, name, Histogram, m, MetricSamples(fmt, name, Histogram, m))
  {
    hide IsTotals, IsBucket, NatText, NumberText, MetricSamples, BucketSamples, CompleteBuckets, EndsAtInfinity;
    var lines, h, b := MetricSamples(fmt, name, Histogram, m), m.histogram, m.histogram.bucket;
    var all := CompleteBuckets(h);
    HistogramLines(fmt, name, m);
    CompletedBuckets(h);
    TotalsSay(fmt, name, m, h.sampleCount, h.sampleSum, lines);
    forall i | 0 <= i < |b|
      ensures IsBucket(fmt, name, m.labels, b[i].cumulativeCount, b[i].upperBound, lines[i + 2])
    {
      BucketSays(fmt, name, m, all, i);
    }
    if !EndsAtInfinity(h) {
      BucketSays(fmt, name, m, all, |b|);
      assert IsBucket(fmt, name, m.labels, h.sampleCount, PosInf, lines[|b| + 2]);
    }
    assert |lines| == LineCount(Histogram, m);
  }

  lemma {:induction false} SamplesSay(fmt: Format, name: string, t: MetricType, m: ClientMetric)
    ensures Says(fmt, name, t, m, MetricSamples(fmt, name, t, m))
  {
    match t {
      case Summary => SummarySays(fmt, name, m);
      case Histogram => HistogramSays(fmt, name, m);
      case _ =>
    }
  }

  lemma {:induction false} QuantileSays(fmt: Format, name: string, m: ClientMetric, i: nat)
    requires i < |m.summary.quantile|
    ensures var q := m.summary.quantile; IsQuantile(fmt, name, m.labels, q[i], QuantileSamples(fmt, name, m, q)[i])
  {
  }

  lemma {:induction false} BucketSays(fmt: Format, name: string, m: ClientMetric, all: seq<Bucket>, i: nat)
    requires i < |all|
    ensures IsBucket(fmt, name, m.labels, all[i].cumulativeCount, all[i].upperBound,
                     BucketSamples(fmt, name, m, all)[i])
  {
    hide ShowsCount, NatText;
    NatTextShows(all[i].cumulativeCount);
  }

  // ----- one family

  /** How many lines the first k metrics have. */
  function Offset(t: MetricType, metrics: seq<ClientMetric>, k: nat): nat
    requires k <= |metrics|
  {
    if k == 0 then 0 else Offset(t, metrics, k - 1) + LineCount(t, metrics[k - 1])
  }

  lemma {:induction false} OffsetFromFirst(t: MetricType, metrics: seq<ClientMetric>, k: nat)
    requires 0 < k <= |metrics|
    ensures Offset(t, metrics, k) == LineCount(t, metrics[0]) + Offset(t, metrics[1..], k - 1)
    decreases k
  {
    hide LineCount;
    if 1 < k { OffsetFromFirst(t, metrics, k - 1); }
  }

  ghost predicate MetricSays(fmt: Format, f: MetricFamily, metrics: seq<ClientMetric>, k: nat, lines: seq<Sample>)
    requires k < |metrics|
  {
    var i, j := Offset(f.metricType, metrics, k), Offset(f.metricType, metrics, k + 1);
    j <= |lines| && Says(fmt, f.name, f.metricType, metrics[k], lines[i..j])
  }

  lemma {:induction false} MetricSamplesSay(fmt: Format, f: MetricFamily, metrics: seq<ClientMetric>, k: nat)
    requires k < |metrics|
    ensures MetricSays(fmt, f, metrics, k, MetricsSamples(fmt, f, metrics))
    decreases k
  {
    hide MetricSamples, Says, LineCount;
    var t, all := f.metricType, MetricsSamples(fmt, f, metrics);
    var first, more := MetricSamples(fmt, f.name, t, metrics[0]), MetricsSamples(fmt, f, metrics[1..]);
    assert all == first + more;
    FirstSays(fmt, f.name, t, metrics[0]);
    if k == 0 {
      assert Offset(t, metrics, 0) == 0 && Offset(t, metrics, 1) == |first|;
      assert all[..|first|] == first;
    } else {
      MetricSamplesSay(fmt, f, metrics[1..], k - 1);
      OffsetFromFirst(t, metrics, k);
      OffsetFromFirst(t, metrics, k + 1);
      var i, j := Offset(t, metrics[1..], k - 1), Offset(t, metrics[1..], k);
      assert all[|first| + i..|first| + j] == more[i..j];
    }
  }

  lemma {:induction false} FirstSays(fmt: Format, name: string, t: MetricType, m: ClientMetric)
    ensures Says(fmt, name, t, m, MetricSamples(fmt, name, t, m))
    ensures |MetricSamples(fmt, name, t, m)| == LineCount(t, m)
  {
    hide MetricSamples;
    SamplesSay(fmt, name, t, m);
  }

  lemma {:induction false} SamplesCount(fmt: Format, f: MetricFamily, metrics: seq<ClientMetric>)
    ensures |MetricsSamples(fmt, f, metrics)| == Offset(f.metricType, metrics, |metrics|)
    decreases |metrics|
  {
    hide MetricSamples, LineCount;
    if metrics != [] {
      FirstSays(fmt, f.name, f.metricType, metrics[0]);
      SamplesCount(fmt, f, metrics[1..]);
      OffsetFromFirst(f.metricType, metrics, |metrics|);
    }
  }

  /** What is read from the text of a family: the lines of each metric, one metric after the other, and no others. */
  lemma {:induction false} FamilyTextSays(fmt: Format, f: MetricFamily)
    requires PlainFormat(fmt) && GoodFamily(f) && HelpIsComment(f.help)
    ensures var read := ReadText(FamilyText(fmt, f));
            && read.Some? && |read.value| == Offset(f.metricType, f.metric, |f.metric|)
            && forall k :: 0 <= k < |f.metric| ==> MetricSays(fmt, f, f.metric, k, read.value)
  {
    hide PlainFormat, GoodFamily, HelpIsComment, FamilyText, ReadText, MetricSays, MetricsSamples;
    FamilyRoundTrip(fmt, f);
    SamplesCount(fmt, f, f.metric);
    forall k | 0 <= k < |f.metric|
      ensures MetricSays(fmt, f, f.metric, k, FamilySamples(fmt, f))
    {
      MetricSamplesSay(fmt, f, f.metric, k);
    }
  }

  /** The comments in front: the help text, if there is any, and the word for the type. */
  lemma {:induction false} CommentsSay(fmt: Format, f: MetricFamily, word: string)
    requires f.metricType.Counter? ==> word == "counter"
    requires f.metricType.Gauge? || f.metricType.Info? ==> word == "gauge"
    requires f.metricType.Summary? ==> word == "summary"
    requires f.metricType.Untyped? ==> word == "untyped"
    requires f.metricType.Histogram? ==> word == "histogram"
    ensures f.help == "" ==> "# TYPE " + f.name + " " + word + "\n" <= FamilyText(fmt, f)
    ensures f.help != "" ==>
              "# HELP " + f.name + " " + f.help + "\n" + "# TYPE " + f.name + " " + word + "\n" <= FamilyText(fmt, f)
  {
    hide LinesText, FamilySamples;
    CommentIs(f);
    assert "" + "# TYPE " == "# TYPE ";
  }

  // ----- several families

  /** The families follow each other, in the text and in what is read from it. */
  lemma {:induction false} FamilyByFamily(
    fmt: Format, before: seq<MetricFamily>, f: MetricFamily, behind: seq<MetricFamily>)
    requires PlainFormat(fmt) && AllFamiliesGood(before + [f] + behind) && AllHelpIsComment(before + [f] + behind)
    ensures FamiliesText(fmt, before + [f] + behind)
            == FamiliesText(fmt, before) + FamilyText(fmt, f) + FamiliesText(fmt, behind)
    ensures var all, a, b := ReadText(FamiliesText(fmt, before + [f] + behind)), ReadText(FamiliesText(fmt, before)),
                             ReadText(FamiliesText(fmt, behind));
            var read := ReadText(FamilyText(fmt, f));
            && all.Some? && a.Some? && read.Some? && b.Some?
            && all.value == a.value + read.value + b.value
  {
    hide PlainFormat, GoodFamily, HelpIsComment, FamilyText, ReadText, FamilySamples;
    var all := before + [f] + behind;
    assert all[|before|] == f;
    assert forall i :: 0 <= i < |before| ==> before[i] == all[i];
    assert forall i :: 0 <= i < |behind| ==> behind[i] == all[|before| + 1 + i];
    TextRoundTrip(fmt, all);
    TextRoundTrip(fmt, before);
    TextRoundTrip(fmt, behind);
    FamilyRoundTrip(fmt, f);
    InParts(fmt, before, [f] + behind);
    InParts(fmt, [f], behind);
    assert all == before + ([f] + behind);
    assert [f][1..] == [];
    assert FamilyText(fmt, f) + "" == FamilyText(fmt, f) && FamilySamples(fmt, f) + [] == FamilySamples(fmt, f);
  }

  lemma {:induction false} InParts(fmt: Format, a: seq<MetricFamily>, b: seq<MetricFamily>)
    ensures FamiliesText(fmt, a + b) == FamiliesText(fmt, a) + FamiliesText(fmt, b)
    ensures AllSamples(fmt, a + b) == AllSamples(fmt, a) + AllSamples(fmt, b)
    decreases |a|
  {
    hide FamilyText, FamilySamples;
    if a == [] {
      assert a + b == b;
    } else {
      InParts(fmt, a[1..], b);
      assert (a + b)[1..] == a[1..] + b;
      var t, s := FamilyText(fmt, a[0]), FamilySamples(fmt, a[0]);
      Regrouped(t, FamiliesText(fmt, a[1..]), FamiliesText(fmt, b));
      Regrouped(s, AllSamples(fmt, a[1..]), AllSamples(fmt, b));
    }
  }

  lemma {:induction false} Regrouped<T>(a: seq<T>, b: seq<T>, c: seq<T>)
    ensures a + (b + c) == a + b + c
  {
  }
}
