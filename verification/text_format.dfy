/** The text exposition format, as it is written to a stream. */
module TextFormat {
  import opened Options
  import opened Names

  /** A double: printing a finite one is left to the format function. */
  datatype Number = Finite(value: real) | PosInf | NegInf | NaN

  datatype Label = Label(name: string, value: string)

  datatype QuantileValue = QuantileValue(quantile: Number, value: Number)

  datatype Bucket = Bucket(cumulativeCount: nat, upperBound: Number)

  datatype SummaryData = SummaryData(sampleCount: nat, sampleSum: Number, quantile: seq<QuantileValue>)

  datatype HistogramData = HistogramData(sampleCount: nat, sampleSum: Number, bucket: seq<Bucket>)

  datatype ClientMetric = ClientMetric(
    labels: seq<Label>,
    counter: Number,
    gauge: Number,
    info: Number,
    summary: SummaryData,
    histogram: HistogramData,
    untyped: Number,
    timestampMs: int)

  datatype MetricFamily = MetricFamily(name: string, help: string, metricType: MetricType, metric: seq<ClientMetric>)

  /** One line of measurement: what a reader of the format is meant to get. */
  datatype Sample = Sample(name: string, labels: seq<Label>, value: string, timestampMs: int)

  type Format = real -> string

  // ----- numbers

  function Digit(d: nat): char
    requires d < 10
  {
    '0' + d as char
  }

  function NatText(n: nat): string {
    if n < 10 then [Digit(n)] else NatText(n / 10) + [Digit(n % 10)]
  }

  function IntText(n: int): string {
    if n < 0 then "-" + NatText(-n) else NatText(n)
  }

  function NumberText(fmt: Format, v: Number): string {
    match v
    case NaN => "Nan"
    case NegInf => "-Inf"
    case PosInf => "+Inf"
    case Finite(x) => fmt(x)
  }

  // ----- lines

  function EscapedChar(c: char): string {
    if c == '\n' then "\\n" else if c == '\\' || c == '"' then ['\\', c] else [c]
  }

  function Escaped(s: string): string {
    if s == "" then "" else EscapedChar(s[0]) + Escaped(s[1..])
  }

  function LabelText(l: Label): string {
    l.name + "=\"" + Escaped(l.value) + "\""
  }

  function LabelsText(labels: seq<Label>): string {
    if labels == [] then ""
    else if |labels| == 1 then LabelText(labels[0])
    else LabelText(labels[0]) + "," + LabelsText(labels[1..])
  }

  function HeadText(name: string, labels: seq<Label>): string {
    name + (if labels == [] then "" else "{" + LabelsText(labels) + "}") + " "
  }

  function TailText(timestampMs: int): string {
    if timestampMs != 0 then " " + IntText(timestampMs) + "\n" else "\n"
  }

  function LineText(s: Sample): string {
    HeadText(s.name, s.labels) + s.value + TailText(s.timestampMs)
  }

  function LinesText(samples: seq<Sample>): string {
    if samples == [] then "" else LineText(samples[0]) + LinesText(samples[1..])
  }

  // ----- the samples of a family

  function QuantileSamples(fmt: Format, name: string, m: ClientMetric, quantiles: seq<QuantileValue>): seq<Sample> {
    seq(|quantiles|, i requires 0 <= i < |quantiles| =>
      Sample(name, m.labels + [Label("quantile", NumberText(fmt, quantiles[i].quantile))],
             NumberText(fmt, quantiles[i].value), m.timestampMs))
  }

  function BucketSamples(fmt: Format, name: string, m: ClientMetric, buckets: seq<Bucket>): seq<Sample> {
    seq(|buckets|, i requires 0 <= i < |buckets| =>
      Sample(name + "_bucket", m.labels + [Label("le", NumberText(fmt, buckets[i].upperBound))],
             NatText(buckets[i].cumulativeCount), m.timestampMs))
  }

  /** A histogram always ends with a bucket for infinity; one is added unless the last bucket is that already. */
  function CompleteBuckets(h: HistogramData): seq<Bucket> {
    if h.bucket != [] && h.bucket[|h.bucket| - 1].upperBound == PosInf then h.bucket
    else h.bucket + [Bucket(h.sampleCount, PosInf)]
  }

  function MetricSamples(fmt: Format, name: string, metricType: MetricType, m: ClientMetric): seq<Sample> {
    match metricType
    case Counter => [Sample(name, m.labels, NumberText(fmt, m.counter), m.timestampMs)]
    case Gauge => [Sample(name, m.labels, NumberText(fmt, m.gauge), m.timestampMs)]
    case Info => [Sample(name + "_info", m.labels, NumberText(fmt, m.info), m.timestampMs)]
    case Untyped => [Sample(name, m.labels, NumberText(fmt, m.untyped), m.timestampMs)]
    case Summary =>
      [Sample(name + "_count", m.labels, NatText(m.summary.sampleCount), m.timestampMs),
       Sample(name + "_sum", m.labels, NumberText(fmt, m.summary.sampleSum), m.timestampMs)]
      + QuantileSamples(fmt, name, m, m.summary.quantile)
    case Histogram =>
      [Sample(name + "_count", m.labels, NatText(m.histogram.sampleCount), m.timestampMs),
       Sample(name + "_sum", m.labels, NumberText(fmt, m.histogram.sampleSum), m.timestampMs)]
      + BucketSamples(fmt, name, m, CompleteBuckets(m.histogram))
  }

  function MetricsSamples(fmt: Format, f: MetricFamily, metrics: seq<ClientMetric>): seq<Sample> {
    if metrics == [] then []
    else MetricSamples(fmt, f.name, f.metricType, metrics[0]) + MetricsSamples(fmt, f, metrics[1..])
  }

  function FamilySamples(fmt: Format, f: MetricFamily): seq<Sample> {
    MetricsSamples(fmt, f, f.metric)
  }

  function AllSamples(fmt: Format, families: seq<MetricFamily>): seq<Sample> {
    if families == [] then [] else FamilySamples(fmt, families[0]) + AllSamples(fmt, families[1..])
  }

  function TypeName(t: MetricType): string {
    match t
    case Counter => "counter"
    case Gauge => "gauge"
    case Info => "gauge"
    case Summary => "summary"
    case Untyped => "untyped"
    case Histogram => "histogram"
  }

  function CommentText(f: MetricFamily): string {
    (if f.help != "" then "# HELP " + f.name + " " + f.help + "\n" else "")
    + "# TYPE " + f.name + " " + TypeName(f.metricType) + "\n"
  }

  function FamilyText(fmt: Format, f: MetricFamily): string {
    CommentText(f) + LinesText(FamilySamples(fmt, f))
  }

  function FamiliesText(fmt: Format, families: seq<MetricFamily>): string {
    if families == [] then "" else FamilyText(fmt, families[0]) + FamiliesText(fmt, families[1..])
  }

  // ----- writing to a stream

  class TextStream {
    var text: string

    method Write(s: string)
      modifies this
      ensures text == old(text) + s
    {
      text := text + s;
    }
  }

  /** Character by character, with the three that a label value must escape. */
  method WriteEscaped(out: TextStream, value: string)
    modifies out
    ensures out.text == old(out.text) + Escaped(value)
  {
    assert value[0..] == value;
    for i := 0 to |value|
      invariant out.text + Escaped(value[i..]) == old(out.text) + Escaped(value)
    {
      EscapedNext(out.text, value, i);
      match value[i] {
        case '\n' => out.Write("\\n");
        case '\\' => out.Write("\\\\");
        case '"' => out.Write("\\\"");
        case c => out.Write([c]);
      }
    }
  }

  lemma {:induction false} EscapedNext(done: string, value: string, i: nat)
    requires i < |value|
    ensures done + Escaped(value[i..]) == done + EscapedChar(value[i]) + Escaped(value[i + 1..])
  {
    assert value[i..][1..] == value[i + 1..];
  }

  /** A label whose value is written as it is: a number, in which there is nothing to escape. */
  ghost predicate Unescaped(l: Label) {
    l.name != "" && Escaped(l.value) == l.value
  }

  /** Name, suffix and labels; the extra label, if any, comes last. */
  method WriteHead(out: TextStream, family: MetricFamily, metric: ClientMetric, suffix: string, extra: Option<Label>)
    requires extra.Some? ==> Unescaped(extra.value)
    modifies out
    ensures out.text == old(out.text)
                        + HeadText(family.name + suffix, metric.labels + if extra.Some? then [extra.value] else [])
  {
    hide LabelsText;
    ghost var all := metric.labels + if extra.Some? then [extra.value] else [];
    out.Write(family.name + suffix);
    if metric.labels != [] || extra.Some? {
      out.Write("{");
      WriteLabels(out, metric.labels, extra);
      out.Write("}");
      BracedText(old(out.text), family.name + suffix, LabelsText(all));
    }
    out.Write(" ");
    assert old(out.text) + (family.name + suffix) + " " == old(out.text) + (family.name + suffix + "" + " ");
  }

  method WriteLabels(out: TextStream, labels: seq<Label>, extra: Option<Label>)
    requires extra.Some? ==> Unescaped(extra.value)
    modifies out
    ensures out.text == old(out.text) + LabelsText(labels + if extra.Some? then [extra.value] else [])
  {
    hide LabelText, LabelsText;
    ghost var all := labels + if extra.Some? then [extra.value] else [];
    ghost var begin := out.text;
    RemainingEnds(all, begin);
    var prefix := "";
    for i := 0 to |labels|
      invariant prefix == if i == 0 then "" else ","
      invariant out.text + Remaining(all, i) == begin + LabelsText(all)
    {
      LabelsNext(out.text, all, i);
      WriteLabel(out, prefix, labels[i]);
      prefix := ",";
    }
    if extra.Some? {
      LabelsNext(out.text, all, |labels|);
      ghost var before := out.text;
      out.Write(prefix + extra.value.name + "=\"");
      out.Write(extra.value.value);
      out.Write("\"");
      ExtraText(before, prefix, extra.value);
    }
  }

  lemma {:induction false} RemainingEnds(labels: seq<Label>, done: string)
    ensures Remaining(labels, 0) == LabelsText(labels)
    ensures done + Remaining(labels, |labels|) == done
  {
    assert labels[0..] == labels;
  }

  lemma {:induction false} ExtraText(done: string, prefix: string, l: Label)
    requires Unescaped(l)
    ensures done + (prefix + l.name + "=\"") + l.value + "\"" == done + prefix + LabelText(l)
  {
  }

  lemma {:induction false} BracedText(done: string, name: string, labels: string)
    ensures done + name + "{" + labels + "}" + " " == done + (name + ("{" + labels + "}") + " ")
  {
  }

  method WriteLabel(out: TextStream, prefix: string, l: Label)
    modifies out
    ensures out.text == old(out.text) + prefix + LabelText(l)
  {
    out.Write(prefix + l.name + "=\"");
    WriteEscaped(out, l.value);
    out.Write("\"");
  }

  /** What is still to be written of the labels from position i on, with the separator in front. */
  function Remaining(labels: seq<Label>, i: nat): string
    requires i <= |labels|
  {
    if i == |labels| then "" else (if i == 0 then "" else ",") + LabelsText(labels[i..])
  }

  lemma {:induction false} LabelsNext(done: string, labels: seq<Label>, i: nat)
    requires i < |labels|
    ensures done + Remaining(labels, i)
            == done + (if i == 0 then "" else ",") + LabelText(labels[i]) + Remaining(labels, i + 1)
  {
    hide LabelText;
    LabelsFirst(labels[i..]);
    assert labels[i..][0] == labels[i] && labels[i..][1..] == labels[i + 1..];
    Regroup(done, if i == 0 then "" else ",", LabelText(labels[i]), Remaining(labels, i + 1));
  }

  lemma {:induction false} LabelsFirst(labels: seq<Label>)
    requires labels != []
    ensures LabelsText(labels) == LabelText(labels[0]) + if |labels| == 1 then "" else "," + LabelsText(labels[1..])
  {
    hide LabelText;
    if |labels| == 1 {
      assert LabelText(labels[0]) + "" == LabelText(labels[0]);
    } else {
      var first, more := LabelText(labels[0]), LabelsText(labels[1..]);
      assert first + "," + more == first + ("," + more);
    }
  }

  lemma {:induction false} Regroup(a: string, b: string, c: string, d: string)
    ensures a + (b + (c + d)) == a + b + c + d
  {
  }

  method WriteTail(out: TextStream, metric: ClientMetric)
    modifies out
    ensures out.text == old(out.text) + TailText(metric.timestampMs)
  {
    if metric.timestampMs != 0 {
      out.Write(" ");
      out.Write(IntText(metric.timestampMs));
    }
    out.Write("\n");
  }

  /** Head, value and tail: one line. */
  method WriteLine(
    out: TextStream, family: MetricFamily, metric: ClientMetric, suffix: string, extra: Option<Label>, value: string)
    requires extra.Some? ==> Unescaped(extra.value)
    modifies out
    ensures out.text == old(out.text)
                        + LineText(Sample(family.name + suffix,
                                          metric.labels + if extra.Some? then [extra.value] else [],
                                          value, metric.timestampMs))
  {
    hide HeadText, TailText;
    WriteHead(out, family, metric, suffix, extra);
    out.Write(value);
    WriteTail(out, metric);
  }

  // ----- metrics, families, everything

  lemma {:induction false} LinesAppend(a: seq<Sample>, b: seq<Sample>)
    ensures LinesText(a + b) == LinesText(a) + LinesText(b)
    decreases |a|
  {
    hide LineText;
    if a == [] {
      assert a + b == b;
    } else {
      LinesAppend(a[1..], b);
      assert (a + b)[1..] == a[1..] + b;
      assert LineText(a[0]) + (LinesText(a[1..]) + LinesText(b)) == LineText(a[0]) + LinesText(a[1..]) + LinesText(b);
    }
  }

  lemma {:induction false} OneLine(s: Sample)
    ensures LinesText([s]) == LineText(s)
  {
    hide LineText;
  }

  lemma {:induction false} LinesSnoc(done: string, a: seq<Sample>, s: Sample)
    ensures done + LinesText(a) + LineText(s) == done + LinesText(a + [s])
  {
    hide LineText;
    LinesAppend(a, [s]);
    OneLine(s);
    assert done + LinesText(a) + LineText(s) == done + (LinesText(a) + LineText(s));
  }

  /** A number that is printed without anything a reader of the format could trip over. */
  ghost predicate PlainToken(s: string) {
    s != "" && forall i :: 0 <= i < |s| ==> s[i] != ' ' && s[i] != '\n' && s[i] != '\\' && s[i] != '"'
  }

  ghost predicate PlainFormat(fmt: Format) {
    forall x :: PlainToken(fmt(x))
  }

  lemma {:induction false} PlainIsUnescaped(s: string)
    requires forall i :: 0 <= i < |s| ==> s[i] != '\n' && s[i] != '\\' && s[i] != '"'
    ensures Escaped(s) == s
    decreases |s|
  {
    if s != "" {
      PlainIsUnescaped(s[1..]);
      assert s == [s[0]] + s[1..];
    }
  }

  lemma {:induction false} NumberIsPlain(fmt: Format, v: Number)
    requires PlainFormat(fmt)
    ensures PlainToken(NumberText(fmt, v)) && Escaped(NumberText(fmt, v)) == NumberText(fmt, v)
  {
    PlainIsUnescaped(NumberText(fmt, v));
  }

  method SerializeSimple(fmt: Format, out: TextStream, family: MetricFamily, metric: ClientMetric)
    requires || family.metricType.Counter? || family.metricType.Gauge?
             || family.metricType.Info? || family.metricType.Untyped?
    modifies out
    ensures out.text == old(out.text) + LinesText(MetricSamples(fmt, family.name, family.metricType, metric))
  {
    hide LineText, LinesText, NumberText;
    OneLine(MetricSamples(fmt, family.name, family.metricType, metric)[0]);
    assert metric.labels + [] == metric.labels && family.name + "" == family.name;
    match family.metricType {
      case Counter => WriteLine(out, family, metric, "", None, NumberText(fmt, metric.counter));
      case Gauge => WriteLine(out, family, metric, "", None, NumberText(fmt, metric.gauge));
      case Info => WriteLine(out, family, metric, "_info", None, NumberText(fmt, metric.info));
      case Untyped => WriteLine(out, family, metric, "", None, NumberText(fmt, metric.untyped));
    }
  }

  /** The two lines summaries and histograms start with. */
  method WriteTotals(fmt: Format, out: TextStream, family: MetricFamily, metric: ClientMetric, count: nat, sum: Number)
    modifies out
    ensures out.text == old(out.text) + LinesText(
              [Sample(family.name + "_count", metric.labels, NatText(count), metric.timestampMs),
               Sample(family.name + "_sum", metric.labels, NumberText(fmt, sum), metric.timestampMs)])
  {
    hide LineText, LinesText, NumberText, NatText;
    ghost var a := Sample(family.name + "_count", metric.labels, NatText(count), metric.timestampMs);
    ghost var b := Sample(family.name + "_sum", metric.labels, NumberText(fmt, sum), metric.timestampMs);
    assert metric.labels + [] == metric.labels;
    OneLine(a);
    LinesSnoc(out.text, [a], b);
    assert [a] + [b] == [a, b];
    WriteLine(out, family, metric, "_count", None, NatText(count));
    WriteLine(out, family, metric, "_sum", None, NumberText(fmt, sum));
  }

  method SerializeSummary(fmt: Format, out: TextStream, family: MetricFamily, metric: ClientMetric)
    requires PlainFormat(fmt) && family.metricType.Summary?
    modifies out
    ensures out.text == old(out.text) + LinesText(MetricSamples(fmt, family.name, family.metricType, metric))
  {
    hide LineText, LinesText, NumberText, NatText, PlainToken, Escaped;
    ghost var lines := MetricSamples(fmt, family.name, family.metricType, metric);
    WriteTotals(fmt, out, family, metric, metric.summary.sampleCount, metric.summary.sampleSum);
    var quantiles := metric.summary.quantile;
    assert |lines| == |quantiles| + 2;
    assert lines[..2] == [lines[0], lines[1]];
    for i := 0 to |quantiles|
      invariant out.text == old(out.text) + LinesText(lines[..i + 2])
    {
      var q := quantiles[i];
      NumberIsPlain(fmt, q.quantile);
      LinesSnoc(old(out.text), lines[..i + 2], lines[i + 2]);
      assert lines[..i + 2] + [lines[i + 2]] == lines[..i + 3];
      assert family.name + "" == family.name;
      WriteLine(
        out, family, metric, "", Some(Label("quantile", NumberText(fmt, q.quantile))), NumberText(fmt, q.value));
    }
    assert lines[..|quantiles| + 2] == lines;
  }

  method SerializeHistogram(fmt: Format, out: TextStream, family: MetricFamily, metric: ClientMetric)
    requires PlainFormat(fmt) && family.metricType.Histogram?
    modifies out
    ensures out.text == old(out.text) + LinesText(MetricSamples(fmt, family.name, family.metricType, metric))
  {
    hide LineText, LinesText, NumberText, NatText, PlainToken, Escaped;
    ghost var lines := MetricSamples(fmt, family.name, family.metricType, metric);
    WriteTotals(fmt, out, family, metric, metric.histogram.sampleCount, metric.histogram.sampleSum);
    var buckets := metric.histogram.bucket;
    ghost var all := CompleteBuckets(metric.histogram);
    assert |lines| == |all| + 2 && |buckets| <= |all| <= |buckets| + 1;
    assert lines[..2] == [lines[0], lines[1]];
    var last := NegInf;
    for i := 0 to |buckets|
      invariant last == if i == 0 then NegInf else buckets[i - 1].upperBound
      invariant out.text == old(out.text) + LinesText(lines[..i + 2])
    {
      var b := buckets[i];
      assert all[i] == b;
      NumberIsPlain(fmt, b.upperBound);
      LinesSnoc(old(out.text), lines[..i + 2], lines[i + 2]);
      assert lines[..i + 2] + [lines[i + 2]] == lines[..i + 3];
      WriteLine(
        out, family, metric, "_bucket", Some(Label("le", NumberText(fmt, b.upperBound))), NatText(b.cumulativeCount));
      last := b.upperBound;
    }
    if last != PosInf {
      ghost var n := |buckets|;
      assert all[n] == Bucket(metric.histogram.sampleCount, PosInf);
      NumberIsPlain(fmt, PosInf);
      LinesSnoc(old(out.text), lines[..n + 2], lines[n + 2]);
      assert lines[..n + 2] + [lines[n + 2]] == lines[..n + 3] == lines;
      WriteLine(
        out, family, metric, "_bucket", Some(Label("le", NumberText(fmt, PosInf))),
        NatText(metric.histogram.sampleCount));
    } else {
      assert lines[..|buckets| + 2] == lines;
    }
  }

  method SerializeFamily(fmt: Format, out: TextStream, family: MetricFamily)
    requires PlainFormat(fmt)
    modifies out
    ensures out.text == old(out.text) + FamilyText(fmt, family)
  {
    hide LineText, LinesText, PlainFormat, MetricSamples, NumberText, CommentText;
    CommentIs(family);
    if family.help != "" {
      out.Write("# HELP " + family.name + " " + family.help + "\n");
    }
    out.Write("# TYPE " + family.name + " " + TypeName(family.metricType) + "\n");
    assert out.text == old(out.text) + CommentText(family);
    assert family.metric[0..] == family.metric;
    for i := 0 to |family.metric|
      invariant out.text + LinesText(MetricsSamples(fmt, family, family.metric[i..]))
                == old(out.text) + FamilyText(fmt, family)
    {
      MetricNext(fmt, out.text, family, i);
      var metric := family.metric[i];
      match family.metricType {
        case Summary => SerializeSummary(fmt, out, family, metric);
        case Histogram => SerializeHistogram(fmt, out, family, metric);
        case _ => SerializeSimple(fmt, out, family, metric);
      }
    }
    NoLines();
  }

  lemma {:induction false} CommentIs(f: MetricFamily)
    ensures CommentText(f) == (if f.help != "" then "# HELP " + f.name + " " + f.help + "\n" else "")
                              + ("# TYPE " + f.name + " " + TypeName(f.metricType) + "\n")
  {
  }

  lemma {:induction false} NoLines()
    ensures LinesText([]) == ""
  {
  }

  lemma {:induction false} MetricNext(fmt: Format, done: string, f: MetricFamily, i: nat)
    requires i < |f.metric|
    ensures done + LinesText(MetricsSamples(fmt, f, f.metric[i..]))
            == done + LinesText(MetricSamples(fmt, f.name, f.metricType, f.metric[i]))
               + LinesText(MetricsSamples(fmt, f, f.metric[i + 1..]))
  {
    hide LinesText, MetricSamples;
    assert f.metric[i..][1..] == f.metric[i + 1..];
    LinesAppend(MetricSamples(fmt, f.name, f.metricType, f.metric[i]), MetricsSamples(fmt, f, f.metric[i + 1..]));
  }

  method Serialize(fmt: Format, out: TextStream, families: seq<MetricFamily>)
    requires PlainFormat(fmt)
    modifies out
    ensures out.text == old(out.text) + FamiliesText(fmt, families)
  {
    hide FamilyText, PlainFormat;
    assert families[0..] == families;
    for i := 0 to |families|
      invariant out.text + FamiliesText(fmt, families[i..]) == old(out.text) + FamiliesText(fmt, families)
    {
      FamilyNext(fmt, out.text, families, i);
      SerializeFamily(fmt, out, families[i]);
    }
  }

  lemma {:induction false} FamilyNext(fmt: Format, done: string, families: seq<MetricFamily>, i: nat)
    requires i < |families|
    ensures done + FamiliesText(fmt, families[i..])
            == done + FamilyText(fmt, families[i]) + FamiliesText(fmt, families[i + 1..])
  {
    hide FamilyText;
    assert families[i..][1..] == families[i + 1..];
  }
}
