/** A reader of the text exposition format, and that it gets back what was written. */
module TextReader {
  import opened Options
  import opened Names
  import opened TextFormat

  datatype Read<T> = Failed | Got(value: T, rest: string)

  // ----- the reader

  /** The longest prefix of characters of a kind. */
  datatype Kind = InMetricName | InLabelName | InToken

  predicate Belongs(kind: Kind, c: char) {
    match kind
    case InMetricName => MetricChar(c)
    case InLabelName => LabelChar(c)
    case InToken => c != ' ' && c != '\n'
  }

  function Span(kind: Kind, s: string): (n: nat)
    ensures n <= |s|
  {
    if s == "" || !Belongs(kind, s[0]) then 0 else 1 + Span(kind, s[1..])
  }

  /** The inside of a quoted value, up to the closing quote on the same line. */
  function ReadQuoted(s: string): (r: Read<string>)
    ensures r.Got? ==> |r.rest| < |s|
  {
    if s == "" || s[0] == '\n' then Failed
    else if s[0] == '"' then Got("", s[1..])
    else if s[0] == '\\' then
      if |s| < 2 || (s[1] != 'n' && s[1] != '\\' && s[1] != '"') then Failed
      else
        match ReadQuoted(s[2..])
        case Failed => Failed
        case Got(more, rest) => Got([if s[1] == 'n' then '\n' else s[1]] + more, rest)
    else
      match ReadQuoted(s[1..])
      case Failed => Failed
      case Got(more, rest) => Got([s[0]] + more, rest)
  }

  function ReadLabel(s: string): (r: Read<Label>)
    ensures r.Got? ==> |r.rest| < |s|
  {
    var n := Span(InLabelName, s);
    if n + 2 > |s| || s[n..n + 2] != "=\"" then Failed
    else
      match ReadQuoted(s[n + 2..])
      case Failed => Failed
      case Got(value, rest) => Got(Label(s[..n], value), rest)
  }

  /** Labels with commas in between, up to the closing brace. */
  function ReadLabels(s: string): (r: Read<seq<Label>>)
    ensures r.Got? ==> |r.rest| < |s|
    decreases |s|
  {
    match ReadLabel(s)
    case Failed => Failed
    case Got(first, rest) =>
      if rest == "" then Failed
      else if rest[0] == '}' then Got([first], rest[1..])
      else if rest[0] != ',' then Failed
      else
        match ReadLabels(rest[1..])
        case Failed => Failed
        case Got(more, rest') => Got([first] + more, rest')
  }

  predicate IsNumber(s: string) {
    s != "" && forall i :: 0 <= i < |s| ==> IsDigit(s[i])
  }

  function DigitValue(c: char): nat
    requires IsDigit(c)
  {
    (c - '0') as nat
  }

  function ReadNat(s: string): nat
    requires forall i :: 0 <= i < |s| ==> IsDigit(s[i])
  {
    if s == "" then 0
    else
      assert IsDigit(s[|s| - 1]);
      10 * ReadNat(s[..|s| - 1]) + DigitValue(s[|s| - 1])
  }

  function ReadInt(s: string): Option<int> {
    if s != "" && s[0] == '-' then
      if IsNumber(s[1..]) then Some(0 - ReadNat(s[1..])) else None
    else if IsNumber(s) then Some(ReadNat(s)) else None
  }

  /** What follows a value: the end of the line, or a timestamp and the end of the line. */
  function ReadTail(s: string): (r: Read<int>)
    ensures r.Got? ==> |r.rest| < |s|
  {
    if s == "" then Failed
    else if s[0] == '\n' then Got(0, s[1..])
    else
      var n := Span(InToken, s[1..]);
      if s[0] != ' ' || n + 1 == |s| || s[n + 1] != '\n' then Failed
      else
        match ReadInt(s[1..n + 1])
        case None => Failed
        case Some(t) => Got(t, s[n + 2..])
  }

  function ReadHead(s: string): (r: Read<(string, seq<Label>)>)
    ensures r.Got? ==> |r.rest| < |s|
  {
    var n := Span(InMetricName, s);
    if n == 0 || n == |s| then Failed
    else if s[n] == ' ' then Got((s[..n], []), s[n + 1..])
    else if s[n] != '{' then Failed
    else
      match ReadLabels(s[n + 1..])
      case Failed => Failed
      case Got(labels, rest) => if rest != "" && rest[0] == ' ' then Got((s[..n], labels), rest[1..]) else Failed
  }

  function ReadLine(s: string): (r: Read<Sample>)
    ensures r.Got? ==> |r.rest| < |s|
  {
    match ReadHead(s)
    case Failed => Failed
    case Got(head, rest) =>
      var n := Span(InToken, rest);
      match ReadTail(rest[n..])
      case Failed => Failed
      case Got(timestampMs, rest') => Got(Sample(head.0, head.1, rest[..n], timestampMs), rest')
  }

  /** Skip a comment, up to and including the end of its line. */
  function SkipLine(s: string): (rest: string)
    ensures s != "" ==> |rest| < |s|
  {
    if s == "" then "" else if s[0] == '\n' then s[1..] else SkipLine(s[1..])
  }

  function ReadText(s: string): Option<seq<Sample>>
    decreases |s|
  {
    if s == "" then Some([])
    else if s[0] == '#' then ReadText(SkipLine(s))
    else
      match ReadLine(s)
      case Failed => None
      case Got(first, rest) =>
        match ReadText(rest)
        case None => None
        case Some(more) => Some([first] + more)
  }

  // ----- reading tokens

  lemma {:induction false} SpanAll(kind: Kind, s: string, t: string)
    requires (forall i :: 0 <= i < |s| ==> Belongs(kind, s[i])) && t != "" && !Belongs(kind, t[0])
    ensures Span(kind, s + t) == |s| && (s + t)[..|s|] == s && (s + t)[|s|..] == t
    decreases |s|
  {
    if s == "" {
      assert s + t == t;
    } else {
      assert (s + t)[1..] == s[1..] + t;
      SpanAll(kind, s[1..], t);
    }
  }

  lemma {:induction false} ReadEscapedChar(c: char, more: string)
    requires ReadQuoted(more).Got?
    ensures ReadQuoted(EscapedChar(c) + more) == Got([c] + ReadQuoted(more).value, ReadQuoted(more).rest)
  {
    var e := EscapedChar(c);
    assert (e + more)[|e|..] == more;
  }

  /** Whatever characters a value is made of, the reader stops at the quote that closes it. */
  lemma {:induction false} QuotedRoundTrip(v: string, t: string)
    ensures ReadQuoted(Escaped(v) + "\"" + t) == Got(v, t)
    decreases |v|
  {
    hide EscapedChar;
    if v == "" {
      ReadClosing(t);
      assert Escaped(v) + "\"" + t == "\"" + t;
    } else {
      hide ReadQuoted;
      var more := Escaped(v[1..]) + "\"" + t;
      QuotedRoundTrip(v[1..], t);
      ReadEscapedChar(v[0], more);
      assert Escaped(v) + "\"" + t == EscapedChar(v[0]) + more;
      assert [v[0]] + v[1..] == v;
    }
  }

  lemma {:induction false} ReadClosing(t: string)
    ensures ReadQuoted("\"" + t) == Got("", t)
  {
  }

  /** Escaping loses nothing. */
  lemma {:induction false} EscapedInjective(v: string, w: string)
    requires Escaped(v) == Escaped(w)
    ensures v == w
  {
    QuotedRoundTrip(v, "");
    QuotedRoundTrip(w, "");
  }

  /** An escaped value stays on its line. */
  lemma {:induction false} EscapedOnOneLine(v: string)
    ensures '\n' !in Escaped(v)
    decreases |v|
  {
    if v != "" {
      EscapedOnOneLine(v[1..]);
      assert '\n' !in EscapedChar(v[0]);
    }
  }

  ghost predicate GoodLabel(l: Label) {
    forall i :: 0 <= i < |l.name| ==> LabelChar(l.name[i])
  }

  lemma {:induction false} LabelRoundTrip(l: Label, t: string)
    requires GoodLabel(l)
    ensures ReadLabel(LabelText(l) + t) == Got(l, t)
  {
    hide LabelChar, Escaped, ReadQuoted, Span;
    var s, v := LabelText(l) + t, Escaped(l.value) + "\"" + t;
    assert s == l.name + ("=\"" + v);
    QuoteEndsName();
    SpanAll(InLabelName, l.name, "=\"" + v);
    assert ("=\"" + v)[2..] == v && ("=\"" + v)[..2] == "=\"";
    var n := |l.name|;
    assert s[n..n + 2] == s[n..][..2] && s[n + 2..] == s[n..][2..];
    QuotedRoundTrip(l.value, t);
  }

  lemma {:induction false} QuoteEndsName()
    ensures !Belongs(InLabelName, '=') && !Belongs(InMetricName, '{') && !Belongs(InMetricName, ' ')
  {
  }

  lemma {:induction false} LabelsTextStarts(labels: seq<Label>, rest: string)
    requires labels != []
    ensures LabelsText(labels) + rest
            == LabelText(labels[0]) + if |labels| == 1 then rest else "," + (LabelsText(labels[1..]) + rest)
  {
    hide LabelText;
    if 1 < |labels| {
      var first, more := LabelText(labels[0]), LabelsText(labels[1..]);
      assert first + "," + more + rest == first + ("," + (more + rest));
    }
  }

  lemma {:induction false} LabelsRoundTrip(labels: seq<Label>, t: string)
    requires labels != [] && forall i :: 0 <= i < |labels| ==> GoodLabel(labels[i])
    ensures ReadLabels(LabelsText(labels) + "}" + t) == Got(labels, t)
    decreases |labels|
  {
    hide ReadLabel, LabelText, LabelsText, GoodLabel;
    assert LabelsText(labels) + "}" + t == LabelsText(labels) + ("}" + t);
    LabelsTextStarts(labels, "}" + t);
    if |labels| == 1 {
      LabelRoundTrip(labels[0], "}" + t);
      assert ("}" + t)[1..] == t;
      assert labels == [labels[0]];
    } else {
      var more := LabelsText(labels[1..]) + ("}" + t);
      assert more == LabelsText(labels[1..]) + "}" + t;
      LabelsRoundTrip(labels[1..], t);
      LabelRoundTrip(labels[0], "," + more);
      assert ("," + more)[1..] == more;
      assert labels == [labels[0]] + labels[1..];
    }
  }

  // ----- reading numbers

  lemma {:induction false} NatRoundTrip(n: nat)
    ensures IsNumber(NatText(n)) && ReadNat(NatText(n)) == n
    decreases n
  {
    var s := NatText(n);
    DigitRoundTrip(n % 10);
    if 10 <= n {
      NatRoundTrip(n / 10);
      assert s[..|s| - 1] == NatText(n / 10);
    } else {
      assert s[..0] == "";
    }
  }

  lemma {:induction false} DigitRoundTrip(d: nat)
    requires d < 10
    ensures IsDigit(Digit(d)) && DigitValue(Digit(d)) == d
  {
  }

  lemma {:induction false} IntRoundTrip(n: int)
    ensures ReadInt(IntText(n)) == Some(n)
    ensures IntText(n) != "" && forall i :: 0 <= i < |IntText(n)| ==> Belongs(InToken, IntText(n)[i])
  {
    hide NatText, ReadNat;
    if n < 0 {
      NatRoundTrip(-n);
      assert IntText(n)[1..] == NatText(-n);
    } else {
      NatRoundTrip(n);
    }
  }

  lemma {:induction false} TailRoundTrip(timestampMs: int, t: string)
    ensures ReadTail(TailText(timestampMs) + t) == Got(timestampMs, t)
    ensures !Belongs(InToken, (TailText(timestampMs) + t)[0])
  {
    hide IntText, ReadInt;
    var s := TailText(timestampMs) + t;
    if timestampMs == 0 {
      assert s[1..] == t;
    } else {
      var token, end := IntText(timestampMs), "\n" + t;
      IntRoundTrip(timestampMs);
      assert s[1..] == token + end;
      SpanAll(InToken, token, end);
      assert s[1..|token| + 1] == s[1..][..|token|];
      assert s[|token| + 2..] == s[1..][|token|..][1..] == t;
      assert s[|token| + 1] == s[1..][|token|..][0];
    }
  }

  // ----- reading lines

  ghost predicate GoodSample(s: Sample) {
    && s.name != "" && (forall i :: 0 <= i < |s.name| ==> MetricChar(s.name[i]))
    && (forall i :: 0 <= i < |s.labels| ==> GoodLabel(s.labels[i]))
    && PlainToken(s.value)
  }

  ghost predicate AllGood(samples: seq<Sample>) {
    forall i :: 0 <= i < |samples| ==> GoodSample(samples[i])
  }

  lemma {:induction false} HeadRoundTrip(name: string, labels: seq<Label>, t: string)
    requires name != "" && forall i :: 0 <= i < |name| ==> MetricChar(name[i])
    requires forall i :: 0 <= i < |labels| ==> GoodLabel(labels[i])
    ensures ReadHead(HeadText(name, labels) + t) == Got((name, labels), t)
  {
    hide ReadLabels, LabelsText, MetricChar, GoodLabel;
    var s := HeadText(name, labels) + t;
    QuoteEndsName();
    if labels == [] {
      assert s == name + (" " + t);
      SpanAll(InMetricName, name, " " + t);
      assert s[|name| + 1..] == s[|name|..][1..] == t;
    } else {
      var rest := LabelsText(labels) + "}" + (" " + t);
      assert s == name + ("{" + rest);
      SpanAll(InMetricName, name, "{" + rest);
      assert s[|name| + 1..] == s[|name|..][1..] == rest;
      LabelsRoundTrip(labels, " " + t);
      assert (" " + t)[1..] == t;
    }
  }

  lemma {:induction false} LineRoundTrip(s: Sample, t: string)
    requires GoodSample(s)
    ensures ReadLine(LineText(s) + t) == Got(s, t)
  {
    hide ReadHead, HeadText, ReadTail, TailText, MetricChar, GoodLabel;
    var end := TailText(s.timestampMs) + t;
    var rest := s.value + end;
    assert LineText(s) + t == HeadText(s.name, s.labels) + rest;
    HeadRoundTrip(s.name, s.labels, rest);
    TailRoundTrip(s.timestampMs, t);
    SpanAll(InToken, s.value, end);
  }

  lemma {:induction false} LineStarts(s: Sample, t: string)
    requires GoodSample(s)
    ensures LineText(s) + t != "" && (LineText(s) + t)[0] != '#'
  {
    hide TailText, LabelsText;
    assert (LineText(s) + t)[0] == s.name[0];
    assert MetricChar(s.name[0]);
  }

  lemma {:induction false} LinesRoundTrip(samples: seq<Sample>, t: string)
    requires AllGood(samples) && ReadText(t).Some?
    ensures ReadText(LinesText(samples) + t) == Some(samples + ReadText(t).value)
    decreases |samples|
  {
    hide GoodSample, ReadLine, LineText;
    if samples == [] {
      assert LinesText(samples) + t == t;
      assert samples + ReadText(t).value == ReadText(t).value;
    } else {
      var more := LinesText(samples[1..]) + t;
      LinesRoundTrip(samples[1..], t);
      assert LinesText(samples) + t == LineText(samples[0]) + more;
      LineRoundTrip(samples[0], more);
      LineStarts(samples[0], more);
      assert [samples[0]] + (samples[1..] + ReadText(t).value) == samples + ReadText(t).value;
    }
  }

  lemma {:induction false} SkipComment(s: string, t: string)
    requires '\n' !in s
    ensures SkipLine(s + "\n" + t) == t
    decreases |s|
  {
    if s == "" {
      assert s + "\n" + t == "\n" + t;
    } else {
      assert (s + "\n" + t)[1..] == s[1..] + "\n" + t;
      SkipComment(s[1..], t);
    }
  }

  lemma {:induction false} ReadComment(s: string, t: string)
    requires s != "" && s[0] == '#' && '\n' !in s
    ensures ReadText(s + "\n" + t) == ReadText(t)
  {
    SkipComment(s, t);
  }

  // ----- reading families

  /** A family whose names are valid. */
  ghost predicate GoodFamily(f: MetricFamily) {
    && f.name != "" && (forall i :: 0 <= i < |f.name| ==> MetricChar(f.name[i]))
    && (forall i, j :: 0 <= i < |f.metric| && 0 <= j < |f.metric[i].labels| ==> GoodLabel(f.metric[i].labels[j]))
  }

  /** Every line of a help text behind the first starts like a comment; none is left over behind the last line end. */
  ghost predicate HelpIsComment(help: string) {
    forall i :: 0 <= i < |help| && help[i] == '\n' ==> i + 1 < |help| && help[i + 1] == '#'
  }

  /** Then the reader skips it, line by line. */
  lemma {:induction false} HelpSkipped(help: string, t: string)
    requires HelpIsComment(help)
    ensures ReadText(SkipLine(help + "\n" + t)) == ReadText(t)
    decreases |help|
  {
    hide ReadLine;
    if help == "" {
      assert help + "\n" + t == "\n" + t;
    } else {
      assert (help + "\n" + t)[1..] == help[1..] + "\n" + t;
      HelpTail(help);
      HelpSkipped(help[1..], t);
      if help[0] == '\n' {
        assert (help[1..] + "\n" + t)[0] == help[1] == '#';
      }
    }
  }

  lemma {:induction false} HelpTail(help: string)
    requires help != ""
    ensures HelpIsComment(help) <==> HelpIsComment(help[1..]) && (help[0] == '\n' ==> 1 < |help| && help[1] == '#')
  {
    var rest := help[1..];
    if HelpIsComment(help) {
      forall i | 0 <= i < |rest| && rest[i] == '\n'
        ensures i + 1 < |rest| && rest[i + 1] == '#'
      {
        assert help[i + 1] == '\n';
      }
    }
    if HelpIsComment(rest) {
      forall i | 1 <= i < |help| && help[i] == '\n'
        ensures i + 1 < |help| && help[i + 1] == '#'
      {
        assert rest[i - 1] == '\n';
      }
    }
  }

  lemma {:induction false} NoNewlineInName(f: MetricFamily)
    requires GoodFamily(f)
    ensures '\n' !in f.name
  {
    assert !MetricChar('\n');
  }

  function TypeLine(f: MetricFamily): string {
    "# TYPE " + f.name + " " + TypeName(f.metricType)
  }

  function HelpStart(f: MetricFamily): string {
    "# HELP " + f.name + " "
  }

  lemma {:induction false} CommentStarts(f: MetricFamily)
    requires GoodFamily(f)
    ensures TypeLine(f) != "" && TypeLine(f)[0] == '#' && '\n' !in TypeLine(f)
    ensures HelpStart(f) != "" && HelpStart(f)[0] == '#' && '\n' !in HelpStart(f)
  {
    NoNewlineInName(f);
  }

  lemma {:induction false} CommentSplits(f: MetricFamily, t: string)
    ensures CommentText(f) + t
            == if f.help == "" then TypeLine(f) + "\n" + t
               else HelpStart(f) + (f.help + "\n" + (TypeLine(f) + "\n" + t))
  {
    var line := TypeLine(f) + "\n";
    assert "# TYPE " + f.name + " " + TypeName(f.metricType) + "\n" == line;
    if f.help == "" {
      assert CommentText(f) == line;
    } else {
      assert CommentText(f) == HelpStart(f) + f.help + "\n" + line by { CommentIs(f); }
    }
  }

  lemma {:induction false} CommentRoundTrip(f: MetricFamily, t: string)
    requires GoodFamily(f) && HelpIsComment(f.help)
    ensures ReadText(CommentText(f) + t) == ReadText(t)
  {
    hide ReadText, HelpIsComment, GoodFamily, CommentText, TypeLine, HelpStart, SkipLine;
    CommentStarts(f);
    CommentSplits(f, t);
    ReadComment(TypeLine(f), t);
    if f.help != "" {
      var behind := f.help + "\n" + (TypeLine(f) + "\n" + t);
      HelpSkipped(f.help, TypeLine(f) + "\n" + t);
      SkipPrefix(HelpStart(f), behind);
      ReadSkips(HelpStart(f) + behind);
    }
  }

  lemma {:induction false} SkipPrefix(s: string, t: string)
    requires '\n' !in s
    ensures SkipLine(s + t) == SkipLine(t)
    decreases |s|
  {
    if s == "" {
      assert s + t == t;
    } else {
      assert (s + t)[1..] == s[1..] + t;
      SkipPrefix(s[1..], t);
    }
  }

  lemma {:induction false} ReadSkips(s: string)
    requires s != "" && s[0] == '#'
    ensures ReadText(s) == ReadText(SkipLine(s))
  {
  }

  lemma {:induction false} NatIsPlain(n: nat)
    ensures PlainToken(NatText(n))
  {
    NatRoundTrip(n);
  }

  /** A sample whose name has a suffix of name characters, and that has a few more labels than its metric. */
  lemma {:induction false} SampleIsGood(
    name: string, suffix: string, labels: seq<Label>, extra: seq<Label>, value: string, timestampMs: int)
    requires name != "" && PlainToken(value)
    requires forall i :: 0 <= i < |name| ==> MetricChar(name[i])
    requires forall i :: 0 <= i < |suffix| ==> MetricChar(suffix[i])
    requires forall i :: 0 <= i < |labels| ==> GoodLabel(labels[i])
    requires forall i :: 0 <= i < |extra| ==> GoodLabel(extra[i])
    ensures GoodSample(Sample(name + suffix, labels + extra, value, timestampMs))
  {
    hide MetricChar, GoodLabel, PlainToken;
  }

  lemma {:induction false} SimpleIsGood(
    name: string, suffix: string, labels: seq<Label>, value: string, timestampMs: int)
    requires name != "" && PlainToken(value)
    requires forall i :: 0 <= i < |name| ==> MetricChar(name[i])
    requires forall i :: 0 <= i < |suffix| ==> MetricChar(suffix[i])
    requires forall i :: 0 <= i < |labels| ==> GoodLabel(labels[i])
    ensures GoodSample(Sample(name + suffix, labels, value, timestampMs))
  {
    hide MetricChar, GoodLabel, PlainToken, GoodSample;
    SampleIsGood(name, suffix, labels, [], value, timestampMs);
    assert labels + [] == labels;
  }

  lemma {:induction false} ExtraLabelsGood(v: string)
    ensures GoodLabel(Label("quantile", v)) && GoodLabel(Label("le", v))
  {
  }

  lemma {:induction false} QuantileSamplesGood(fmt: Format, name: string, m: ClientMetric)
    requires PlainFormat(fmt) && name != "" && forall i :: 0 <= i < |name| ==> MetricChar(name[i])
    requires forall i :: 0 <= i < |m.labels| ==> GoodLabel(m.labels[i])
    ensures AllGood(QuantileSamples(fmt, name, m, m.summary.quantile))
  {
    hide MetricChar, GoodLabel, PlainToken, GoodSample, NumberText, PlainFormat, Escaped;
    var quantiles := m.summary.quantile;
    var samples := QuantileSamples(fmt, name, m, quantiles);
    forall k | 0 <= k < |samples|
      ensures GoodSample(samples[k])
    {
      NumberIsPlain(fmt, quantiles[k].value);
      var extra := Label("quantile", NumberText(fmt, quantiles[k].quantile));
      ExtraLabelsGood(extra.value);
      SampleIsGood(name, "", m.labels, [extra], samples[k].value, m.timestampMs);
      assert name + "" == name;
    }
  }

  lemma {:induction false} BucketSamplesGood(fmt: Format, name: string, m: ClientMetric, buckets: seq<Bucket>)
    requires name != "" && forall i :: 0 <= i < |name| ==> MetricChar(name[i])
    requires forall i :: 0 <= i < |m.labels| ==> GoodLabel(m.labels[i])
    ensures AllGood(BucketSamples(fmt, name, m, buckets))
  {
    hide GoodLabel, PlainToken, GoodSample, NumberText, NatText;
    var samples := BucketSamples(fmt, name, m, buckets);
    forall k | 0 <= k < |samples|
      ensures GoodSample(samples[k])
    {
      NatIsPlain(buckets[k].cumulativeCount);
      var extra := Label("le", NumberText(fmt, buckets[k].upperBound));
      ExtraLabelsGood(extra.value);
      SampleIsGood(name, "_bucket", m.labels, [extra], samples[k].value, m.timestampMs);
    }
  }

  lemma {:induction false} SuffixesGood()
    ensures forall i :: 0 <= i < |"_count"| ==> MetricChar("_count"[i])
    ensures forall i :: 0 <= i < |"_sum"| ==> MetricChar("_sum"[i])
    ensures forall i :: 0 <= i < |"_info"| ==> MetricChar("_info"[i])
  {
  }

  lemma {:induction false} TotalsGood(fmt: Format, name: string, m: ClientMetric, count: nat, sum: Number)
    requires PlainFormat(fmt) && name != "" && forall i :: 0 <= i < |name| ==> MetricChar(name[i])
    requires forall i :: 0 <= i < |m.labels| ==> GoodLabel(m.labels[i])
    ensures AllGood([Sample(name + "_count", m.labels, NatText(count), m.timestampMs),
                     Sample(name + "_sum", m.labels, NumberText(fmt, sum), m.timestampMs)])
  {
    hide MetricChar, GoodLabel, PlainToken, GoodSample, NumberText, NatText, PlainFormat, Escaped;
    SuffixesGood();
    NatIsPlain(count);
    NumberIsPlain(fmt, sum);
    SimpleIsGood(name, "_count", m.labels, NatText(count), m.timestampMs);
    SimpleIsGood(name, "_sum", m.labels, NumberText(fmt, sum), m.timestampMs);
  }

  lemma {:induction false} AppendGood(a: seq<Sample>, b: seq<Sample>)
    requires AllGood(a) && AllGood(b)
    ensures AllGood(a + b)
  {
    hide GoodSample;
  }

  lemma {:induction false} MetricSamplesGood(fmt: Format, name: string, t: MetricType, m: ClientMetric)
    requires PlainFormat(fmt) && name != "" && forall i :: 0 <= i < |name| ==> MetricChar(name[i])
    requires forall i :: 0 <= i < |m.labels| ==> GoodLabel(m.labels[i])
    ensures AllGood(MetricSamples(fmt, name, t, m))
  {
    hide MetricChar, GoodLabel, PlainToken, GoodSample, NumberText, NatText, PlainFormat, Escaped, QuantileSamples;
    hide BucketSamples;
    SuffixesGood();
    assert name + "" == name;
    match t {
      case Summary =>
        hide AllGood;
        TotalsGood(fmt, name, m, m.summary.sampleCount, m.summary.sampleSum);
        QuantileSamplesGood(fmt, name, m);
        AppendGood(MetricSamples(fmt, name, t, m)[..2], QuantileSamples(fmt, name, m, m.summary.quantile));
      case Histogram =>
        hide AllGood;
        TotalsGood(fmt, name, m, m.histogram.sampleCount, m.histogram.sampleSum);
        BucketSamplesGood(fmt, name, m, CompleteBuckets(m.histogram));
        AppendGood(MetricSamples(fmt, name, t, m)[..2], BucketSamples(fmt, name, m, CompleteBuckets(m.histogram)));
      case Counter =>
        NumberIsPlain(fmt, m.counter);
        SimpleIsGood(name, "", m.labels, NumberText(fmt, m.counter), m.timestampMs);
      case Gauge =>
        NumberIsPlain(fmt, m.gauge);
        SimpleIsGood(name, "", m.labels, NumberText(fmt, m.gauge), m.timestampMs);
      case Info =>
        NumberIsPlain(fmt, m.info);
        SimpleIsGood(name, "_info", m.labels, NumberText(fmt, m.info), m.timestampMs);
      case Untyped =>
        NumberIsPlain(fmt, m.untyped);
        SimpleIsGood(name, "", m.labels, NumberText(fmt, m.untyped), m.timestampMs);
    }
  }

  lemma {:induction false} MetricsSamplesGood(fmt: Format, f: MetricFamily, i: nat)
    requires PlainFormat(fmt) && GoodFamily(f) && i <= |f.metric|
    ensures AllGood(MetricsSamples(fmt, f, f.metric[i..]))
    decreases |f.metric| - i
  {
    hide MetricSamples, GoodSample, PlainFormat, MetricChar, GoodLabel;
    if i < |f.metric| {
      assert f.metric[i..][1..] == f.metric[i + 1..];
      MetricSamplesGood(fmt, f.name, f.metricType, f.metric[i]);
      MetricsSamplesGood(fmt, f, i + 1);
      AppendGood(MetricSamples(fmt, f.name, f.metricType, f.metric[i]), MetricsSamples(fmt, f, f.metric[i + 1..]));
    }
  }

  lemma {:induction false} FamilySamplesGood(fmt: Format, f: MetricFamily)
    requires PlainFormat(fmt) && GoodFamily(f)
    ensures AllGood(FamilySamples(fmt, f))
  {
    hide PlainFormat, GoodFamily, AllGood;
    MetricsSamplesGood(fmt, f, 0);
    assert f.metric[0..] == f.metric;
  }

  lemma {:induction false} ReadTextEmpty()
    ensures ReadText("") == Some([])
  {
  }

  ghost predicate AllHelpIsComment(families: seq<MetricFamily>) {
    forall i :: 0 <= i < |families| ==> HelpIsComment(families[i].help)
  }

  ghost predicate AllFamiliesGood(families: seq<MetricFamily>) {
    forall i :: 0 <= i < |families| ==> GoodFamily(families[i])
  }

  lemma {:induction false} CommentedTextIsRead(fmt: Format, families: seq<MetricFamily>)
    requires PlainFormat(fmt) && AllFamiliesGood(families) && AllHelpIsComment(families)
    ensures ReadText(FamiliesText(fmt, families)) == Some(AllSamples(fmt, families))
    decreases |families|
  {
    hide GoodFamily, HelpIsComment, PlainFormat, AllGood, LinesText, CommentText, FamilySamples, ReadText;
    ReadTextEmpty();
    if families != [] {
      var f, tail := families[0], FamiliesText(fmt, families[1..]);
      CommentedTextIsRead(fmt, families[1..]);
      FamilySamplesGood(fmt, f);
      LinesRoundTrip(FamilySamples(fmt, f), tail);
      CommentRoundTrip(f, LinesText(FamilySamples(fmt, f)) + tail);
      assert FamiliesText(fmt, families) == CommentText(f) + (LinesText(FamilySamples(fmt, f)) + tail);
    } else {
      assert FamiliesText(fmt, families) == "";
    }
  }

  // ----- every line that is no comment is a sample of its own

  lemma {:induction false} SpanSkips(kind: Kind, s: string)
    ensures SkipLine(s) == SkipLine(s[Span(kind, s)..])
    decreases |s|
  {
    if s != "" && Belongs(kind, s[0]) {
      assert s[1..][Span(kind, s[1..])..] == s[Span(kind, s)..];
      SpanSkips(kind, s[1..]);
    }
  }

  lemma {:induction false} QuotedSkips(s: string)
    requires ReadQuoted(s).Got?
    ensures SkipLine(s) == SkipLine(ReadQuoted(s).rest)
    decreases |s|
  {
    if s[0] == '\\' {
      assert s[1..][1..] == s[2..];
      QuotedSkips(s[2..]);
    } else if s[0] != '"' {
      QuotedSkips(s[1..]);
    }
  }

  lemma {:induction false} LabelSkips(s: string)
    requires ReadLabel(s).Got?
    ensures SkipLine(s) == SkipLine(ReadLabel(s).rest)
  {
    hide ReadQuoted, Span;
    var n := Span(InLabelName, s);
    SpanSkips(InLabelName, s);
    QuotedSkips(s[n + 2..]);
    assert s[n..][..2] == s[n..n + 2] == "=\"";
    assert s[n..] == "=\"" + s[n + 2..];
    SkipPrefix("=\"", s[n + 2..]);
  }

  lemma {:induction false} LabelsSkip(s: string)
    requires ReadLabels(s).Got?
    ensures SkipLine(s) == SkipLine(ReadLabels(s).rest)
    decreases |s|
  {
    hide ReadLabel;
    LabelSkips(s);
    var rest := ReadLabel(s).rest;
    if rest[0] == ',' { LabelsSkip(rest[1..]); }
  }

  lemma {:induction false} HeadSkips(s: string)
    requires ReadHead(s).Got?
    ensures SkipLine(s) == SkipLine(ReadHead(s).rest)
  {
    hide ReadLabels, Span;
    var n := Span(InMetricName, s);
    SpanSkips(InMetricName, s);
    assert s[n..][1..] == s[n + 1..];
    if s[n] == '{' { LabelsSkip(s[n + 1..]); }
  }

  lemma {:induction false} TailIsRest(s: string)
    requires ReadTail(s).Got?
    ensures ReadTail(s).rest == SkipLine(s)
  {
    hide ReadInt, Span;
    if s[0] != '\n' {
      var n := Span(InToken, s[1..]);
      SpanSkips(InToken, s[1..]);
      assert s[1..][n..] == s[n + 1..] && s[n + 1..][1..] == s[n + 2..];
    }
  }

  /** A sample is read from one line: what is left starts with the next. */
  lemma {:induction false} LineIsOneLine(s: string)
    requires ReadLine(s).Got?
    ensures ReadLine(s).rest == SkipLine(s)
  {
    hide ReadHead, ReadTail, Span;
    HeadSkips(s);
    var rest := ReadHead(s).rest;
    SpanSkips(InToken, rest);
    TailIsRest(rest[Span(InToken, rest)..]);
  }

  /** The number of lines that are no comments. */
  function DataLines(s: string): nat
    decreases |s|
  {
    if s == "" then 0 else (if s[0] == '#' then 0 else 1) + DataLines(SkipLine(s))
  }

  lemma {:induction false} OneSampleALine(s: string)
    requires ReadText(s).Some?
    ensures |ReadText(s).value| == DataLines(s)
    decreases |s|
  {
    hide ReadLine;
    if s != "" {
      if s[0] != '#' { LineIsOneLine(s); }
      OneSampleALine(SkipLine(s));
    }
  }

  lemma {:induction false} DataLinesOfSamples(samples: seq<Sample>, t: string)
    requires AllGood(samples)
    ensures DataLines(LinesText(samples) + t) == |samples| + DataLines(t)
    decreases |samples|
  {
    hide GoodSample, ReadLine, LineText;
    if samples == [] {
      assert LinesText(samples) + t == t;
    } else {
      var more := LinesText(samples[1..]) + t;
      DataLinesOfSamples(samples[1..], t);
      assert LinesText(samples) + t == LineText(samples[0]) + more;
      LineRoundTrip(samples[0], more);
      LineStarts(samples[0], more);
      LineIsOneLine(LineText(samples[0]) + more);
    }
  }

  /** The lines of a help text behind the first that are no comments. */
  function StrayLines(help: string): nat {
    DataLines(SkipLine(help + "\n"))
  }

  lemma {:induction false} NoStrayLines(help: string)
    ensures StrayLines(help) == 0 <==> HelpIsComment(help)
    decreases |help|
  {
    if help == "" {
      assert help + "\n" == "\n";
    } else {
      assert (help + "\n")[1..] == help[1..] + "\n";
      HelpTail(help);
      NoStrayLines(help[1..]);
    }
  }

  lemma {:induction false} DataLinesOfHelp(help: string, t: string)
    ensures DataLines(SkipLine(help + "\n" + t)) == StrayLines(help) + DataLines(t)
    decreases |help|
  {
    if help == "" {
      assert help + "\n" + t == "\n" + t && help + "\n" == "\n";
    } else {
      assert (help + "\n" + t)[1..] == help[1..] + "\n" + t && (help + "\n")[1..] == help[1..] + "\n";
      DataLinesOfHelp(help[1..], t);
      if help[0] == '\n' {
        assert (help[1..] + "\n" + t)[0] == (help[1..] + "\n")[0];
      }
    }
  }

  lemma {:induction false} DataLinesOfComment(f: MetricFamily, t: string)
    requires GoodFamily(f)
    ensures DataLines(CommentText(f) + t) == StrayLines(f.help) + DataLines(t)
  {
    hide DataLines, StrayLines, GoodFamily, CommentText, TypeLine, HelpStart, SkipLine;
    CommentStarts(f);
    CommentSplits(f, t);
    DataLinesOfLine(TypeLine(f), t);
    if f.help == "" {
      NoStrayLines(f.help);
    } else {
      var behind := f.help + "\n" + (TypeLine(f) + "\n" + t);
      DataLinesOfHelp(f.help, TypeLine(f) + "\n" + t);
      SkipPrefix(HelpStart(f), behind);
      CommentIsNoData(HelpStart(f) + behind);
    }
  }

  lemma {:induction false} CommentIsNoData(s: string)
    requires s != "" && s[0] == '#'
    ensures DataLines(s) == DataLines(SkipLine(s))
  {
  }

  lemma {:induction false} DataLinesOfLine(s: string, t: string)
    requires s != "" && s[0] == '#' && '\n' !in s
    ensures DataLines(s + "\n" + t) == DataLines(t)
  {
    SkipComment(s, t);
  }

  function AllStrayLines(families: seq<MetricFamily>): nat {
    if families == [] then 0 else StrayLines(families[0].help) + AllStrayLines(families[1..])
  }

  lemma {:induction false} DataLinesOfText(fmt: Format, families: seq<MetricFamily>)
    requires PlainFormat(fmt) && AllFamiliesGood(families)
    ensures DataLines(FamiliesText(fmt, families)) == |AllSamples(fmt, families)| + AllStrayLines(families)
    decreases |families|
  {
    hide GoodFamily, PlainFormat, AllGood, LinesText, CommentText, FamilySamples, DataLines;
    if families == [] {
      NoDataLines();
    } else {
      var f, tail := families[0], FamiliesText(fmt, families[1..]);
      DataLinesOfText(fmt, families[1..]);
      FamilySamplesGood(fmt, f);
      DataLinesOfSamples(FamilySamples(fmt, f), tail);
      DataLinesOfComment(f, LinesText(FamilySamples(fmt, f)) + tail);
      assert FamiliesText(fmt, families) == CommentText(f) + (LinesText(FamilySamples(fmt, f)) + tail);
    }
  }

  lemma {:induction false} NoDataLines()
    ensures DataLines("") == 0
  {
  }

  lemma {:induction false} NoStrayLinesAtAll(families: seq<MetricFamily>)
    ensures AllStrayLines(families) == 0 <==> AllHelpIsComment(families)
    decreases |families|
  {
    hide StrayLines, HelpIsComment;
    if families != [] {
      NoStrayLines(families[0].help);
      NoStrayLinesAtAll(families[1..]);
      assert families == [families[0]] + families[1..];
    }
  }

  /**
    Reading what was serialized gives back every sample and nothing else, that is its name with suffix,
    its labels with their values whatever these are made of, its value and its timestamp, in order,
    if and only if every line of a help text behind its first starts like a comment.
   */
  lemma {:induction false} TextRoundTrip(fmt: Format, families: seq<MetricFamily>)
    requires PlainFormat(fmt) && AllFamiliesGood(families)
    ensures ReadText(FamiliesText(fmt, families)) == Some(AllSamples(fmt, families)) <==> AllHelpIsComment(families)
  {
    hide PlainFormat, AllFamiliesGood, AllHelpIsComment, ReadText, DataLines, FamiliesText, AllSamples;
    if AllHelpIsComment(families) {
      CommentedTextIsRead(fmt, families);
    } else if ReadText(FamiliesText(fmt, families)).Some? {
      OneSampleALine(FamiliesText(fmt, families));
      DataLinesOfText(fmt, families);
      NoStrayLinesAtAll(families);
    }
  }

  /** The same for a single family. */
  lemma {:induction false} FamilyRoundTrip(fmt: Format, f: MetricFamily)
    requires PlainFormat(fmt) && GoodFamily(f)
    ensures ReadText(FamilyText(fmt, f)) == Some(FamilySamples(fmt, f)) <==> HelpIsComment(f.help)
  {
    hide PlainFormat, GoodFamily, HelpIsComment, ReadText, FamilySamples, FamilyText;
    TextRoundTrip(fmt, [f]);
    assert [f][0] == f && [f][1..] == [];
    assert FamiliesText(fmt, [f]) == FamilyText(fmt, f) by { assert FamilyText(fmt, f) + "" == FamilyText(fmt, f); }
    assert AllSamples(fmt, [f]) == FamilySamples(fmt, f) by {
      assert FamilySamples(fmt, f) + [] == FamilySamples(fmt, f);
    }
  }

  /** Help is not escaped: a second line in it is read as a sample that no metric reported. */
  lemma {:induction false} HelpLineIsRead(fmt: Format, f: MetricFamily, first: string, forged: Sample)
    requires PlainFormat(fmt) && GoodFamily(f.(help := "")) && GoodSample(forged) && '\n' !in first
    requires f.help + "\n" == first + "\n" + LineText(forged) && f.help != ""
    ensures ReadText(FamilyText(fmt, f)) == Some([forged] + FamilySamples(fmt, f))
  {
    hide PlainFormat, GoodSample, LinesText, LineText, ReadText, MetricSamples;
    var bare, samples := f.(help := ""), FamilySamples(fmt, f);
    var lines, typeLine := LinesText(samples), CommentText(bare);
    FamilySamplesGood(fmt, bare);
    SameSamples(fmt, f, bare, f.metric);
    ReadTextEmpty();
    LinesRoundTrip(samples, "");
    assert lines + "" == lines && samples + [] == samples;
    CommentRoundTrip(bare, lines);
    assert AllGood([forged]);
    LinesRoundTrip([forged], typeLine + lines);
    OneLine(forged);
    ForgedHelp(f, first, LineText(forged), typeLine, lines);
  }

  lemma {:induction false} ForgedHelp(f: MetricFamily, first: string, forged: string, typeLine: string, lines: string)
    requires GoodFamily(f.(help := "")) && '\n' !in first
    requires f.help + "\n" == first + "\n" + forged && f.help != "" && typeLine == CommentText(f.(help := ""))
    ensures ReadText(CommentText(f) + lines) == ReadText(forged + (typeLine + lines))
  {
    hide ReadText;
    NoNewlineInName(f.(help := ""));
    var helpLine := "# HELP " + f.name + " " + first;
    ReadComment(helpLine, forged + (typeLine + lines));
    assert CommentText(f) == "# HELP " + f.name + " " + (f.help + "\n") + typeLine;
    assert CommentText(f) + lines == helpLine + "\n" + (forged + (typeLine + lines));
  }

  lemma {:induction false} SameSamples(fmt: Format, f: MetricFamily, g: MetricFamily, metrics: seq<ClientMetric>)
    requires f.name == g.name && f.metricType == g.metricType
    ensures MetricsSamples(fmt, f, metrics) == MetricsSamples(fmt, g, metrics)
    decreases |metrics|
  {
    hide MetricSamples;
    if metrics != [] { SameSamples(fmt, f, g, metrics[1..]); }
  }
}
