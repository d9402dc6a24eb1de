/** The path under which metrics are pushed: one pair of segments per label of the grouping key. */
module LabelPath {
  import opened Options
  import opened Base64
  import Base64Laws

  datatype Label = Label(name: Bytes, value: Bytes)

  const SLASH: bv8 := 0x2F
  const BASE64_MARK: Bytes := [0x40, 0x62, 0x61, 0x73, 0x65, 0x36, 0x34]  // @base64

  /** A character outside the unreserved ones of RFC 3986, section 2.3. */
  predicate NeedsEncoding(c: bv8) {
    !(0x61 <= c <= 0x7A || 0x41 <= c <= 0x5A || 0x30 <= c <= 0x39 || c == 0x2D || c == 0x2E || c == 0x5F || c == 0x7E)
  }

  predicate AnyNeedsEncoding(s: Bytes) {
    exists i :: 0 <= i < |s| && NeedsEncoding(s[i])
  }

  /** An empty value would leave an empty segment. */
  predicate IsEncoded(value: Bytes) {
    value == [] || AnyNeedsEncoding(value)
  }

  function ToUrl(c: bv8): bv8 {
    if c == 0x2B then 0x2D else if c == 0x2F then 0x5F else c
  }

  function FromUrl(c: bv8): bv8 {
    if c == 0x2D then 0x2B else if c == 0x5F then 0x2F else c
  }

  /** The URL-safe alphabet of RFC 4648, section 5. */
  function UrlEncode(x: Bytes): Bytes {
    var s := Encode(x);
    seq(|s|, i requires 0 <= i < |s| => ToUrl(s[i]))
  }

  function UrlDecode(s: Bytes): Result {
    Decode(seq(|s|, i requires 0 <= i < |s| => FromUrl(s[i])))
  }

  function NameSegment(entry: Label): Bytes {
    if IsEncoded(entry.value) then entry.name + BASE64_MARK else entry.name
  }

  function ValueSegment(entry: Label): Bytes {
    if entry.value == [] then [PAD]
    else if AnyNeedsEncoding(entry.value) then UrlEncode(entry.value)
    else entry.value
  }

  function EncodedLabel(entry: Label): Bytes {
    [SLASH] + NameSegment(entry) + [SLASH] + ValueSegment(entry)
  }

  function Path(labels: seq<Label>): Bytes {
    if labels == [] then [] else EncodedLabel(labels[0]) + Path(labels[1..])
  }

  class OutputStream {
    var text: Bytes

    constructor ()
      ensures text == []
    {
      text := [];
    }

    method Write(s: Bytes)
      modifies this
      ensures text == old(text) + s
    {
      text := text + s;
    }
  }

  method EncodeLabel(os: OutputStream, entry: Label)
    modifies os
    ensures os.text == old(os.text) + EncodedLabel(entry)
  {
    hide AnyNeedsEncoding, ToUrl, Encode;
    if entry.value == [] {
      os.Write([SLASH] + entry.name + BASE64_MARK + [SLASH, PAD]);
    } else if AnyNeedsEncoding(entry.value) {
      var encoded := Base64Encode(entry.value);
      encoded := seq(|encoded|, i requires 0 <= i < |encoded| => ToUrl(encoded[i]));
      os.Write([SLASH] + entry.name + BASE64_MARK + [SLASH] + encoded);
    } else {
      os.Write([SLASH] + entry.name + [SLASH] + entry.value);
    }
  }

  lemma {:induction false} PathNext(done: Bytes, labels: seq<Label>, i: nat)
    requires i < |labels|
    ensures done + Path(labels[i..]) == done + EncodedLabel(labels[i]) + Path(labels[i + 1..])
  {
    hide EncodedLabel;
    assert labels[i..][1..] == labels[i + 1..];
  }

  /** The labels of a gateway or a collectable, in iteration order. */
  method EncodeLabels(os: OutputStream, labels: seq<Label>)
    modifies os
    ensures os.text == old(os.text) + Path(labels)
  {
    hide EncodedLabel;
    assert labels[0..] == labels;
    for i := 0 to |labels|
      invariant os.text + Path(labels[i..]) == old(os.text) + Path(labels)
    {
      PathNext(os.text, labels, i);
      EncodeLabel(os, labels[i]);
    }
  }

  /** The address metrics are pushed to: job, gateway labels and collectable labels one after the other. */
  method Uri(url: Bytes, jobName: Bytes, labels: seq<Label>, collectableLabels: seq<Label>) returns (uri: Bytes)
    ensures uri == MetricsRoot(url) + Path([Label(JOB, jobName)] + labels + collectableLabels)
    ensures url == [] ==> SLASH_METRICS[1..] <= uri
    ensures url != [] ==> WithoutSlash(url) + SLASH_METRICS <= uri
    ensures MetricsRoot(url) + SLASH_JOB <= uri
  {
    hide EncodedLabel, Path;
    var os := new OutputStream();
    os.Write(url);
    if url != [] && url[|url| - 1] != SLASH {
      os.Write([SLASH]);
    }
    os.Write(METRICS);
    assert os.text == MetricsRoot(url);
    EncodeLabel(os, Label(JOB, jobName));
    EncodeLabels(os, labels);
    EncodeLabels(os, collectableLabels);
    uri := os.text;
    GroupingKeyPath(MetricsRoot(url), Label(JOB, jobName), labels, collectableLabels);
    RootExactly(url);
    StartsWithJob(MetricsRoot(url), jobName, labels + collectableLabels);
    assert [Label(JOB, jobName)] + labels + collectableLabels == [Label(JOB, jobName)] + (labels + collectableLabels);
  }

  const SLASH_JOB: Bytes := [0x2F, 0x6A, 0x6F, 0x62]  // /job

  lemma {:induction false} StartsWithJob(root: Bytes, job: Bytes, more: seq<Label>)
    ensures root + SLASH_JOB <= root + Path([Label(JOB, job)] + more)
  {
    hide ValueSegment, AnyNeedsEncoding;
    assert SLASH_JOB == [SLASH] + JOB;
    var entry := Label(JOB, job);
    var name, rest := NameSegment(entry), [SLASH] + ValueSegment(entry) + Path(more);
    assert ([entry] + more)[1..] == more;
    assert Path([entry] + more) == [SLASH] + name + rest;
    assert name[..|JOB|] == JOB;
    assert ([SLASH] + name + rest)[..|SLASH_JOB|] == SLASH_JOB;
  }

  lemma {:induction false} GroupingKeyPath(root: Bytes, job: Label, a: seq<Label>, b: seq<Label>)
    ensures root + EncodedLabel(job) + Path(a) + Path(b) == root + Path([job] + a + b)
  {
    hide EncodedLabel;
    PathAppend(a, b);
    assert [job] + a + b == [job] + (a + b);
    assert ([job] + (a + b))[1..] == a + b;
    assert Path([job] + (a + b)) == EncodedLabel(job) + Path(a + b);
    assert root + EncodedLabel(job) + Path(a) + Path(b) == root + (EncodedLabel(job) + (Path(a) + Path(b)));
  }

  const JOB: Bytes := [0x6A, 0x6F, 0x62]                                  // job
  const METRICS: Bytes := [0x6D, 0x65, 0x74, 0x72, 0x69, 0x63, 0x73]      // metrics

  function MetricsRoot(url: Bytes): Bytes {
    url + (if url != [] && url[|url| - 1] != SLASH then [SLASH] else []) + METRICS
  }

  // ----- the address, and the ways to write a label

  /** A text without the separator it may end with. */
  function WithoutSlash(url: Bytes): Bytes {
    if url != [] && url[|url| - 1] == SLASH then url[..|url| - 1] else url
  }

  const SLASH_METRICS: Bytes := [0x2F, 0x6D, 0x65, 0x74, 0x72, 0x69, 0x63, 0x73]  // /metrics

  /** Whether or not the URL ends with a slash, exactly one is behind it, and then the word. */
  lemma {:induction false} RootExactly(url: Bytes)
    ensures url == [] ==> MetricsRoot(url) == SLASH_METRICS[1..]
    ensures url != [] ==> MetricsRoot(url) == WithoutSlash(url) + SLASH_METRICS
  {
    assert SLASH_METRICS == [SLASH] + METRICS;
    if url != [] && url[|url| - 1] == SLASH {
      assert url == WithoutSlash(url) + [SLASH];
    }
  }

  const MARK_SLASH: Bytes := [0x40, 0x62, 0x61, 0x73, 0x65, 0x36, 0x34, 0x2F]  // @base64/

  /**
    An empty value is one padding character behind a mark; others are written as they are, or
    encoded behind a mark.
   */
  lemma {:induction false} LabelExactly(name: Bytes, value: Bytes)
    ensures value == [] ==> EncodedLabel(Label(name, value)) == [0x2F] + name + MARK_SLASH + [0x3D]
    ensures value != [] && AllUnreserved(value) ==> EncodedLabel(Label(name, value)) == [0x2F] + name + [0x2F] + value
    ensures !AllUnreserved(value) ==>
              EncodedLabel(Label(name, value)) == [0x2F] + name + MARK_SLASH + UrlEncode(value)
  {
    hide UrlEncode, NeedsEncoding, IsUnreserved;
    assert MARK_SLASH == BASE64_MARK + [SLASH];
    forall i | 0 <= i < |value|
      ensures NeedsEncoding(value[i]) <==> !IsUnreserved(value[i] as int)
    {
      UnreservedExactly(value[i]);
    }
  }

  ghost predicate AllUnreserved(value: Bytes) {
    forall i :: 0 <= i < |value| ==> IsUnreserved(value[i] as int)
  }

  /**
    The unreserved characters of RFC 3986, section 2.3, by their codes: letters, digits, hyphen,
    period, underscore, tilde.
   */
  predicate IsUnreserved(code: int) {
    97 <= code <= 122 || 65 <= code <= 90 || 48 <= code <= 57 || code == 45 || code == 46 || code == 95 || code == 126
  }

  lemma {:induction false} UnreservedExactly(c: bv8)
    ensures NeedsEncoding(c) <==> !IsUnreserved(c as int)
  {
  }

  /** Of the letters of the alphabet, plus becomes a hyphen and slash an underscore; all others stay. */
  lemma {:induction false} UrlEncodeExactly(x: Bytes, i: nat)
    requires i < |Encode(x)|
    ensures |UrlEncode(x)| == |Encode(x)|
    ensures UrlEncode(x)[i]
            == if Encode(x)[i] == 0x2B then 0x2D else if Encode(x)[i] == 0x2F then 0x5F else Encode(x)[i]
  {
    hide Encode;
  }

  lemma {:induction false} PathAppend(a: seq<Label>, b: seq<Label>)
    ensures Path(a + b) == Path(a) + Path(b)
    decreases |a|
  {
    hide EncodedLabel;
    if a == [] {
      assert a + b == b;
    } else {
      PathAppend(a[1..], b);
      assert (a + b)[1..] == a[1..] + b;
      assert EncodedLabel(a[0]) + (Path(a[1..]) + Path(b)) == EncodedLabel(a[0]) + Path(a[1..]) + Path(b);
    }
  }

  // ----- reading a path back

  function FirstIndex(s: Bytes, c: bv8): (k: nat)
    ensures k <= |s|
  {
    if s == [] || s[0] == c then 0 else 1 + FirstIndex(s[1..], c)
  }

  /** Ends with the mark of an encoded value. */
  predicate Marked(s: Bytes) {
    |BASE64_MARK| <= |s| && s[|s| - |BASE64_MARK|..] == BASE64_MARK
  }

  function ReadLabel(nameSegment: Bytes, valueSegment: Bytes): Option<Label> {
    if !Marked(nameSegment) then Some(Label(nameSegment, valueSegment))
    else
      var name := nameSegment[..|nameSegment| - |BASE64_MARK|];
      if valueSegment == [PAD] then Some(Label(name, []))
      else
        match UrlDecode(valueSegment)
        case Err(_) => None
        case Ok(value) => Some(Label(name, value))
  }

  function ReadPath(path: Bytes): Option<seq<Label>> {
    if path == [] then Some([])
    else if path[0] != SLASH then None
    else
      var rest := path[1..];
      var k := FirstIndex(rest, SLASH);
      if k == |rest| then None
      else
        var rest' := rest[k + 1..];
        var n := FirstIndex(rest', SLASH);
        var entry, more := ReadLabel(rest[..k], rest'[..n]), ReadPath(rest'[n..]);
        if entry.None? || more.None? then None else Some([entry.value] + more.value)
  }

  lemma {:induction false} FirstIndexAfter(s: Bytes, t: Bytes, c: bv8)
    requires c !in s && (t == [] || t[0] == c)
    ensures FirstIndex(s + t, c) == |s|
    decreases |s|
  {
    if s == [] {
      assert s + t == t;
    } else {
      assert (s + t)[1..] == s[1..] + t;
      FirstIndexAfter(s[1..], t, c);
    }
  }

  // ----- the encoded value has no separator in it

  lemma {:induction false} EncodeAlphabet(x: Bytes)
    ensures forall i :: 0 <= i < |Encode(x)| ==> IsLetter(Encode(x)[i]) || Encode(x)[i] == PAD
  {
    hide Encode, Decode, IsLetter, Base64Laws.PadIndex;
    Base64Laws.RoundTrip(x);
    Base64Laws.Acceptance(Encode(x));
    Base64Laws.Normalisation(Encode(x));
    var s := Encode(x);
    var p := Base64Laws.PadIndex(s);
    forall i | 0 <= i < |s|
      ensures IsLetter(s[i]) || s[i] == PAD
    {
      if p < i { assert s == Base64Laws.Normalised(s); }
    }
  }

  lemma {:induction false} UrlLetter(c: bv8)
    requires IsLetter(c) || c == PAD
    ensures FromUrl(ToUrl(c)) == c && ToUrl(c) != SLASH
  {
  }

  lemma {:induction false} UrlRoundTrip(x: Bytes)
    ensures UrlDecode(UrlEncode(x)) == Ok(x)
    ensures SLASH !in UrlEncode(x) && |UrlEncode(x)| % 4 == 0
  {
    var s, u := Encode(x), UrlEncode(x);
    Base64Laws.RoundTrip(x);
    EncodeAlphabet(x);
    forall i | 0 <= i < |s|
      ensures FromUrl(u[i]) == s[i] && u[i] != SLASH
    {
      UrlLetter(s[i]);
    }
    assert seq(|u|, i requires 0 <= i < |u| => FromUrl(u[i])) == s;
  }

  // ----- unique decodability

  /** No separator in the name, which may end with the mark only if another mark is put behind it. */
  predicate Readable(entry: Label) {
    SLASH !in entry.name && (Marked(entry.name) ==> IsEncoded(entry.value))
  }

  lemma {:induction false} SegmentsHaveNoSlash(entry: Label)
    requires SLASH !in entry.name
    ensures SLASH !in NameSegment(entry) && SLASH !in ValueSegment(entry)
  {
    UrlRoundTrip(entry.value);
    assert NeedsEncoding(SLASH);
  }

  lemma {:induction false} LabelRoundTrip(entry: Label)
    requires SLASH !in entry.name
    ensures ReadLabel(NameSegment(entry), ValueSegment(entry)) == Some(entry) <==> Readable(entry)
  {
    hide UrlEncode, UrlDecode, AnyNeedsEncoding, Marked;
    UrlRoundTrip(entry.value);
    MarkIsRead(entry.name);
    if Marked(entry.name) { MarkedIsLonger(entry.name); }
  }

  lemma {:induction false} MarkedIsLonger(name: Bytes)
    requires Marked(name)
    ensures |BASE64_MARK| <= |name| && |name[..|name| - |BASE64_MARK|]| < |name|
  {
  }

  lemma {:induction false} MarkIsRead(name: Bytes)
    ensures var s := name + BASE64_MARK; Marked(s) && s[..|s| - |BASE64_MARK|] == name
  {
    assert (name + BASE64_MARK)[|name|..] == BASE64_MARK;
    assert (name + BASE64_MARK)[..|name|] == name;
  }

  function Behind(first: Option<Label>, more: Option<seq<Label>>): Option<seq<Label>> {
    if first.None? || more.None? then None else Some([first.value] + more.value)
  }

  lemma {:induction false} ReadOne(entry: Label, tail: Bytes)
    requires SLASH !in entry.name && (tail == [] || tail[0] == SLASH)
    ensures ReadPath(EncodedLabel(entry) + tail)
            == Behind(ReadLabel(NameSegment(entry), ValueSegment(entry)), ReadPath(tail))
  {
    hide NameSegment, ValueSegment, ReadLabel;
    var path, name, value := EncodedLabel(entry) + tail, NameSegment(entry), ValueSegment(entry);
    var rest := path[1..];
    SegmentsHaveNoSlash(entry);
    SplitSegments(name, value, tail);
    assert path[0] == SLASH;
  }

  lemma {:induction false} SplitSegments(name: Bytes, value: Bytes, tail: Bytes)
    requires SLASH !in name && SLASH !in value && (tail == [] || tail[0] == SLASH)
    ensures var rest := ([SLASH] + name + [SLASH] + value + tail)[1..];
            && FirstIndex(rest, SLASH) == |name| < |rest|
            && rest[..|name|] == name
            && rest[|name| + 1..] == value + tail
            && FirstIndex(value + tail, SLASH) == |value|
            && (value + tail)[..|value|] == value
            && (value + tail)[|value|..] == tail
  {
    var rest := ([SLASH] + name + [SLASH] + value + tail)[1..];
    var after := [SLASH] + (value + tail);
    assert rest == name + after;
    FirstIndexAfter(name, after, SLASH);
    FirstIndexAfter(value, tail, SLASH);
  }

  lemma {:induction false} PathStarts(labels: seq<Label>)
    ensures Path(labels) == [] || Path(labels)[0] == SLASH
  {
    hide NameSegment, ValueSegment;
  }

  lemma {:induction false} ReadNothing()
    ensures ReadPath([]) == Some([])
  {
  }

  lemma {:induction false} PathRead(labels: seq<Label>)
    requires forall i :: 0 <= i < |labels| ==> SLASH !in labels[i].name
    ensures ReadPath(Path(labels)) == Some(labels) <==> forall i :: 0 <= i < |labels| ==> Readable(labels[i])
    decreases |labels|
  {
    hide EncodedLabel, ReadPath, ReadLabel, NameSegment, ValueSegment, Readable;
    ReadNothing();
    if labels != [] {
      var first, tail := labels[0], labels[1..];
      PathRead(tail);
      PathStarts(tail);
      ReadOne(first, Path(tail));
      LabelRoundTrip(first);
      assert labels == [first] + tail;
      Unbehind(ReadLabel(NameSegment(first), ValueSegment(first)), ReadPath(Path(tail)), first, tail);
    }
  }

  lemma {:induction false} Unbehind(first: Option<Label>, more: Option<seq<Label>>, entry: Label, tail: seq<Label>)
    ensures Behind(first, more) == Some([entry] + tail) <==> first == Some(entry) && more == Some(tail)
  {
    if first.Some? && more.Some? && [first.value] + more.value == [entry] + tail {
      assert ([first.value] + more.value)[0] == first.value && ([first.value] + more.value)[1..] == more.value;
      assert ([entry] + tail)[0] == entry && ([entry] + tail)[1..] == tail;
    }
  }

  lemma {:induction false} FirstIndexFinds(s: Bytes, c: bv8)
    ensures c !in s[..FirstIndex(s, c)]
    decreases |s|
  {
    if s != [] && s[0] != c {
      FirstIndexFinds(s[1..], c);
      assert s[..FirstIndex(s, c)] == [s[0]] + s[1..][..FirstIndex(s[1..], c)];
    }
  }

  lemma {:induction false} NameReadHasNoSlash(nameSegment: Bytes, valueSegment: Bytes)
    requires SLASH !in nameSegment && ReadLabel(nameSegment, valueSegment).Some?
    ensures SLASH !in ReadLabel(nameSegment, valueSegment).value.name
  {
    hide UrlDecode;
  }

  /** The first label that is read from a path, and the rest. */
  lemma {:induction false} ReadInSteps(path: Bytes) returns (k: nat, n: nat)
    requires path != [] && ReadPath(path).Some?
    ensures k < |path| - 1 && k + 2 + n <= |path| && SLASH !in path[1..][..k]
    ensures var rest' := path[1..][k + 1..];
            && |rest'[n..]| < |path|
            && ReadLabel(path[1..][..k], rest'[..n]).Some? && ReadPath(rest'[n..]).Some?
            && ReadPath(path).value
               == [ReadLabel(path[1..][..k], rest'[..n]).value] + ReadPath(rest'[n..]).value
  {
    hide FirstIndex, ReadLabel;
    var rest := path[1..];
    k := FirstIndex(rest, SLASH);
    FirstIndexFinds(rest, SLASH);
    n := FirstIndex(rest[k + 1..], SLASH);
  }

  lemma {:induction false} NamesReadHaveNoSlash(path: Bytes)
    requires ReadPath(path).Some?
    ensures forall i :: 0 <= i < |ReadPath(path).value| ==> SLASH !in ReadPath(path).value[i].name
    decreases |path|
  {
    ReadNothing();
    hide FirstIndex, ReadLabel, ReadPath;
    if path != [] {
      var k, n := ReadInSteps(path);
      var rest' := path[1..][k + 1..];
      NameReadHasNoSlash(path[1..][..k], rest'[..n]);
      NamesReadHaveNoSlash(rest'[n..]);
    }
  }

  /**
    A path leads back to the labels it was made from, whatever bytes their values are made of, if and
    only if no name has a separator, or ends with the mark while its value is not encoded.
   */
  lemma {:induction false} PathRoundTrip(labels: seq<Label>)
    ensures ReadPath(Path(labels)) == Some(labels) <==> forall i :: 0 <= i < |labels| ==> Readable(labels[i])
  {
    hide Path, ReadPath, Marked, IsEncoded;
    if forall i :: 0 <= i < |labels| ==> SLASH !in labels[i].name {
      PathRead(labels);
    } else if ReadPath(Path(labels)).Some? {
      NamesReadHaveNoSlash(Path(labels));
    }
  }

  // ----- what the condition on names is for

  lemma {:induction false} ValueHasNoSlash(entry: Label)
    ensures SLASH !in ValueSegment(entry)
  {
    UrlRoundTrip(entry.value);
    assert NeedsEncoding(SLASH);
  }

  lemma {:induction false} LastSlash(p: Bytes, v: Bytes, p': Bytes, v': Bytes)
    requires SLASH !in v && SLASH !in v' && p + [SLASH] + v == p' + [SLASH] + v'
    ensures p == p' && v == v'
  {
    var s, s' := p + [SLASH] + v, p' + [SLASH] + v';
    assert s[|p|] == SLASH && s'[|p'|] == SLASH;
    assert forall k :: |p| < k < |s| ==> s[k] == v[k - |p| - 1];
    assert forall k :: |p'| < k < |s'| ==> s'[k] == v'[k - |p'| - 1];
    assert |p| == |p'|;
    assert s[..|p|] == p && s'[..|p|] == p' && s[|p| + 1..] == v && s'[|p| + 1..] == v';
  }

  lemma {:induction false} SameSegments(a: Label, b: Label)
    requires EncodedLabel(a) == EncodedLabel(b)
    ensures NameSegment(a) == NameSegment(b) && ValueSegment(a) == ValueSegment(b)
  {
    hide NameSegment, ValueSegment;
    ValueHasNoSlash(a);
    ValueHasNoSlash(b);
    LastSlash([SLASH] + NameSegment(a), ValueSegment(a), [SLASH] + NameSegment(b), ValueSegment(b));
    assert NameSegment(a) == ([SLASH] + NameSegment(a))[1..] == ([SLASH] + NameSegment(b))[1..] == NameSegment(b);
  }

  const ZEROS: Bytes := [0x00, 0x00, 0x00]
  const AAAA: Bytes := [0x41, 0x41, 0x41, 0x41]

  lemma {:induction false} ZerosEncoded()
    ensures UrlEncode(ZEROS) == AAAA && AnyNeedsEncoding(ZEROS) && !AnyNeedsEncoding(AAAA)
  {
    assert Encode(ZEROS) == AAAA by {
      assert Encode(ZEROS[3..]) == [];
      assert EncodeTriple(0, 0, 0) + [] == AAAA;
    }
    assert NeedsEncoding(ZEROS[0]);
    assert UrlEncode(ZEROS) == AAAA;
  }

  /** A plain value may look like an encoded one, if the name ends with the mark. */
  lemma {:induction false} MarkedNameCollides(name: Bytes)
    ensures EncodedLabel(Label(name, ZEROS)) == EncodedLabel(Label(name + BASE64_MARK, AAAA))
  {
    hide UrlEncode, AnyNeedsEncoding;
    ZerosEncoded();
  }

  /**
    A label of one name can have the path of a label of another one exactly if one of the names is
    the other with the mark behind it.
   */
  lemma {:induction false} NamesCollideExactly(name: Bytes, name': Bytes)
    requires name != name'
    ensures (exists value, value' :: EncodedLabel(Label(name, value)) == EncodedLabel(Label(name', value')))
            <==> name' == name + BASE64_MARK || name == name' + BASE64_MARK
  {
    hide EncodedLabel, UrlEncode, AnyNeedsEncoding;
    MarkedNameCollides(name);
    MarkedNameCollides(name');
    if value, value' :| EncodedLabel(Label(name, value)) == EncodedLabel(Label(name', value')) {
      SameSegments(Label(name, value), Label(name', value'));
      MarkIsRead(name);
      MarkIsRead(name');
    }
  }

  // ----- unique decodability of whole paths

  ghost predicate NamesIn(labels: seq<Label>, names: set<Bytes>) {
    forall i :: 0 <= i < |labels| ==> labels[i].name in names
  }

  /** No name starts with another one and a separator, be there a mark between them or not. */
  ghost predicate SlashApart(names: set<Bytes>) {
    forall x, y :: x in names && y in names ==> !(x + [SLASH] <= y) && !(x + BASE64_MARK + [SLASH] <= y)
  }

  lemma {:induction false} PrefixHasSlash(x: Bytes, y: Bytes)
    requires x + [SLASH] <= y
    ensures SLASH in y
  {
    assert y[|x|] == SLASH;
  }

  lemma {:induction false} WithoutSlashesApart(names: set<Bytes>)
    requires forall name :: name in names ==> SLASH !in name
    ensures SlashApart(names)
  {
    forall x, y | x in names && y in names
      ensures !(x + [SLASH] <= y) && !(x + BASE64_MARK + [SLASH] <= y)
    {
      if x + [SLASH] <= y { PrefixHasSlash(x, y); }
      if x + BASE64_MARK + [SLASH] <= y { PrefixHasSlash(x + BASE64_MARK, y); }
    }
  }

  /** No name is another one followed by the mark. */
  ghost predicate MarkApart(names: set<Bytes>) {
    forall name :: name in names ==> name + BASE64_MARK !in names
  }

  /** A name that ends within the segments of another one ends before the mark behind that. */
  lemma {:induction false} EndsWithin(x: Bytes, rest: Bytes, b: Label, rest': Bytes)
    requires x + [SLASH] + rest == NameSegment(b) + [SLASH] + rest' && |x| < |NameSegment(b)|
    ensures x + [SLASH] <= b.name
  {
    hide IsEncoded;
    var y := NameSegment(b);
    var s, s' := x + [SLASH] + rest, y + [SLASH] + rest';
    assert s[|x|] == SLASH && s'[|x|] == y[|x|];
    assert forall k :: |b.name| <= k < |y| ==> y[k] == BASE64_MARK[k - |b.name|];
    assert s[..|x| + 1] == x + [SLASH] && s'[..|x| + 1] == y[..|x| + 1] == b.name[..|x| + 1];
  }

  /** The segments of a name do not end within those of another one. */
  lemma {:induction false} NotWithin(names: set<Bytes>, a: Label, rest: Bytes, b: Label, rest': Bytes)
    requires SlashApart(names) && a.name in names && b.name in names
    requires NameSegment(a) + [SLASH] + rest == NameSegment(b) + [SLASH] + rest'
    ensures |NameSegment(b)| <= |NameSegment(a)|
  {
    hide IsEncoded;
    if |NameSegment(a)| < |NameSegment(b)| {
      EndsWithin(NameSegment(a), rest, b, rest');
    }
  }

  /** The first entry of a path and what is behind it can be told from the path. */
  lemma {:induction false} FirstEntry(names: set<Bytes>, a: Label, tail: Bytes, b: Label, tail': Bytes)
    requires SlashApart(names) && a.name in names && b.name in names
    requires EncodedLabel(a) + tail == EncodedLabel(b) + tail'
    requires (tail == [] || tail[0] == SLASH) && (tail' == [] || tail'[0] == SLASH)
    ensures NameSegment(a) == NameSegment(b) && ValueSegment(a) == ValueSegment(b) && tail == tail'
  {
    hide NameSegment, ValueSegment, FirstIndex, SlashApart;
    var x, y, v, v' := NameSegment(a), NameSegment(b), ValueSegment(a), ValueSegment(b);
    ValueHasNoSlash(a);
    ValueHasNoSlash(b);
    Segments(x, v, tail);
    Segments(y, v', tail');
    NotWithin(names, a, v + tail, b, v' + tail');
    NotWithin(names, b, v' + tail', a, v + tail);
    FirstIndexAfter(v, tail, SLASH);
    FirstIndexAfter(v', tail', SLASH);
    var s, s' := x + [SLASH] + (v + tail), y + [SLASH] + (v' + tail');
    assert x == s[..|x|] == s'[..|x|] == y;
    assert v + tail == s[|x| + 1..] == s'[|x| + 1..] == v' + tail';
    assert v == (v + tail)[..|v|] && v' == (v' + tail')[..|v|];
    assert tail == (v + tail)[|v|..] && tail' == (v' + tail')[|v|..];
  }

  lemma {:induction false} Segments(name: Bytes, value: Bytes, tail: Bytes)
    ensures ([SLASH] + name + [SLASH] + value + tail)[1..] == name + [SLASH] + (value + tail)
  {
  }

  lemma {:induction false} SameNameSameValue(a: Label, b: Label)
    requires a.name == b.name && NameSegment(a) == NameSegment(b) && ValueSegment(a) == ValueSegment(b)
    ensures a == b
  {
    hide UrlEncode, UrlDecode, AnyNeedsEncoding;
    UrlRoundTrip(a.value);
    UrlRoundTrip(b.value);
  }

  lemma {:induction false} SegmentsTell(names: set<Bytes>, a: Label, b: Label)
    requires MarkApart(names) && a.name in names && b.name in names
    requires NameSegment(a) == NameSegment(b) && ValueSegment(a) == ValueSegment(b)
    ensures a == b
  {
    hide ValueSegment, AnyNeedsEncoding;
    MarkIsRead(a.name);
    MarkIsRead(b.name);
    SameNameSameValue(a, b);
  }

  lemma {:induction false} PathInjective(names: set<Bytes>, a: seq<Label>, b: seq<Label>)
    requires SlashApart(names) && MarkApart(names) && NamesIn(a, names) && NamesIn(b, names) && Path(a) == Path(b)
    ensures a == b
    decreases |a|
  {
    hide EncodedLabel, NameSegment, ValueSegment, SlashApart;
    PathEmpty(a);
    PathEmpty(b);
    if a != [] {
      var tail, tail' := Path(a[1..]), Path(b[1..]);
      PathStarts(a[1..]);
      PathStarts(b[1..]);
      FirstEntry(names, a[0], tail, b[0], tail');
      SegmentsTell(names, a[0], b[0]);
      PathInjective(names, a[1..], b[1..]);
      assert a == [a[0]] + a[1..] && b == [b[0]] + b[1..];
    }
  }

  lemma {:induction false} PathEmpty(labels: seq<Label>)
    ensures Path(labels) == [] <==> labels == []
  {
    hide NameSegment, ValueSegment;
  }

  /**
    Over names of which none starts with another one and a separator, lists of labels can be told from
    their paths, whatever bytes the values are made of, if and only if no name is another one followed
    by the mark.
   */
  lemma {:induction false} PathInjectiveExactly(names: set<Bytes>)
    requires SlashApart(names)
    ensures (forall a, b :: NamesIn(a, names) && NamesIn(b, names) && Path(a) == Path(b) ==> a == b)
            <==> MarkApart(names)
  {
    hide EncodedLabel, Path, SlashApart;
    if MarkApart(names) {
      forall a, b | NamesIn(a, names) && NamesIn(b, names) && Path(a) == Path(b)
        ensures a == b
      {
        PathInjective(names, a, b);
      }
    } else {
      var name :| name in names && name + BASE64_MARK in names;
      MarkedNameCollides(name);
      var a, b := [Label(name, ZEROS)], [Label(name + BASE64_MARK, AAAA)];
      OneLabel(a[0]);
      OneLabel(b[0]);
      assert a[0] != b[0];
      assert NamesIn(a, names) && NamesIn(b, names) && Path(a) == Path(b);
    }
  }

  // ----- names with separators

  /** Two separators around a plain value turn one label into two, whatever value it has. */
  lemma {:induction false} TwoSlashesSplit(x: Bytes, y: Bytes, z: Bytes, value: Bytes)
    requires !IsEncoded(y)
    ensures Path([Label(x + [SLASH] + y + [SLASH] + z, value)]) == Path([Label(x, y), Label(z, value)])
  {
    hide AnyNeedsEncoding, UrlEncode, ValueSegment;
    var a, b, c := Label(x + [SLASH] + y + [SLASH] + z, value), Label(x, y), Label(z, value);
    TwoLabels(b, c);
    OneLabel(a);
    PlainEntry(x, y);
    var mark := if IsEncoded(value) then BASE64_MARK else [];
    MarkBehind(x + [SLASH] + y + [SLASH] + z, value);
    MarkBehind(z, value);
    SameValueSegment(a, c);
    NameWithSlashes(x, y, z, mark, ValueSegment(a));
  }

  lemma {:induction false} SameValueSegment(a: Label, b: Label)
    requires a.value == b.value
    ensures ValueSegment(a) == ValueSegment(b)
  {
  }

  lemma {:induction false} NameWithSlashes(x: Bytes, y: Bytes, z: Bytes, mark: Bytes, value: Bytes)
    ensures [SLASH] + (x + [SLASH] + y + [SLASH] + z + mark) + [SLASH] + value
            == ([SLASH] + x + [SLASH] + y) + ([SLASH] + (z + mark) + [SLASH] + value)
  {
  }

  lemma {:induction false} MarkBehind(name: Bytes, value: Bytes)
    ensures NameSegment(Label(name, value)) == name + if IsEncoded(value) then BASE64_MARK else []
  {
    assert name + [] == name;
  }

  lemma {:induction false} OneLabel(a: Label)
    ensures Path([a]) == EncodedLabel(a)
  {
    hide EncodedLabel;
    assert [a][1..] == [] && EncodedLabel(a) + [] == EncodedLabel(a);
  }

  lemma {:induction false} TwoLabels(a: Label, b: Label)
    ensures Path([a, b]) == EncodedLabel(a) + EncodedLabel(b)
  {
    hide EncodedLabel;
    OneLabel(b);
    assert [a, b][1..] == [b];
  }

  lemma {:induction false} ThreeLabels(a: Label, b: Label, c: Label)
    ensures Path([a, b, c]) == EncodedLabel(a) + (EncodedLabel(b) + EncodedLabel(c))
  {
    hide EncodedLabel;
    TwoLabels(b, c);
    assert [a, b, c][1..] == [b, c];
  }

  /** One separator each in two names turns two labels into three, if what comes to stand for a value is plain. */
  lemma {:induction false} OneSlashEachShifts(x: Bytes, y: Bytes, value: Bytes, x': Bytes, y': Bytes, value': Bytes)
    requires !IsEncoded(y) && !IsEncoded(value) && !IsEncoded(x')
    ensures Path([Label(x + [SLASH] + y, value), Label(x' + [SLASH] + y', value')])
            == Path([Label(x, y), Label(value, x'), Label(y', value')])
  {
    hide AnyNeedsEncoding, UrlEncode;
    var a, b := Label(x + [SLASH] + y, value), Label(x' + [SLASH] + y', value');
    var c, d, e := Label(x, y), Label(value, x'), Label(y', value');
    PlainEntry(x + [SLASH] + y, value);
    PlainEntry(x, y);
    PlainEntry(value, x');
    TwoLabels(a, b);
    ThreeLabels(c, d, e);
    var mark := if IsEncoded(value') then BASE64_MARK else [];
    MarkBehind(x' + [SLASH] + y', value');
    MarkBehind(y', value');
    var end := [SLASH] + (y' + mark) + [SLASH] + ValueSegment(b);
    NameWithSlash(x', y', mark, ValueSegment(b));
    Shifted(x, y, value, x', end);
  }

  lemma {:induction false} NameWithSlash(x: Bytes, y: Bytes, mark: Bytes, value: Bytes)
    ensures [SLASH] + (x + [SLASH] + y + mark) + [SLASH] + value
            == [SLASH] + x + ([SLASH] + (y + mark) + [SLASH] + value)
  {
  }

  lemma {:induction false} Shifted(x: Bytes, y: Bytes, value: Bytes, x': Bytes, end: Bytes)
    ensures ([SLASH] + (x + [SLASH] + y) + [SLASH] + value) + ([SLASH] + x' + end)
            == ([SLASH] + x + [SLASH] + y) + (([SLASH] + value + [SLASH] + x') + end)
  {
  }

  lemma {:induction false} PlainEntry(name: Bytes, value: Bytes)
    requires !IsEncoded(value)
    ensures EncodedLabel(Label(name, value)) == [SLASH] + name + [SLASH] + value
  {
  }
}
