/**
  When the paths of label lists can be told apart, for names of any kind: a path is a sequence of
  segments, and two ways to read it overlap until they end together, or never do.
 */
module LabelCodes {
  import opened Base64
  import opened LabelPath

  // ----- paths as segments

  /** The pieces of a text between its separators. */
  function Split(s: Bytes): (segments: seq<Bytes>)
    ensures segments != [] && SlashFree(segments)
    decreases |s|
  {
    var k := FirstIndex(s, SLASH);
    FirstIndexFinds(s, SLASH);
    if k == |s| then assert s[..k] == s; [s]
    else [s[..k]] + Split(s[k + 1..])
  }

  predicate SlashFree(segments: seq<Bytes>) {
    forall i :: 0 <= i < |segments| ==> SLASH !in segments[i]
  }

  function Join(segments: seq<Bytes>): Bytes {
    if segments == [] then [] else [SLASH] + segments[0] + Join(segments[1..])
  }

  lemma {:induction false} FirstIndexIsSlash(s: Bytes, c: bv8)
    ensures FirstIndex(s, c) < |s| ==> s[FirstIndex(s, c)] == c
    decreases |s|
  {
    if s != [] && s[0] != c { FirstIndexIsSlash(s[1..], c); }
  }

  lemma {:induction false} JoinOne(x: Bytes, rest: seq<Bytes>)
    ensures Join([x] + rest) == [SLASH] + x + Join(rest)
    ensures Join([x]) == [SLASH] + x
  {
    assert ([x] + rest)[1..] == rest && [x][1..] == [];
    assert [SLASH] + x + [] == [SLASH] + x;
  }

  /** Before and behind the first separator. */
  lemma {:induction false} AtFirstSlash(s: Bytes)
    ensures var k := FirstIndex(s, SLASH);
            if k == |s| then s[..k] == s else s[..k] + ([SLASH] + s[k + 1..]) == s
  {
    hide FirstIndex;
    FirstIndexIsSlash(s, SLASH);
  }

  lemma {:induction false} JoinSplit(s: Bytes)
    ensures Join(Split(s)) == [SLASH] + s
    decreases |s|
  {
    hide FirstIndex, Join;
    var k := FirstIndex(s, SLASH);
    AtFirstSlash(s);
    if k == |s| {
      JoinOne(s, []);
    } else {
      JoinSplit(s[k + 1..]);
      JoinOne(s[..k], Split(s[k + 1..]));
      Concatenate(s[..k], [SLASH] + s[k + 1..]);
    }
  }

  lemma {:induction false} Concatenate(a: Bytes, b: Bytes)
    ensures [SLASH] + a + b == [SLASH] + (a + b)
  {
  }

  lemma {:induction false} JoinAppend(a: seq<Bytes>, b: seq<Bytes>)
    ensures Join(a + b) == Join(a) + Join(b)
    decreases |a|
  {
    if a == [] {
      assert a + b == b;
    } else {
      JoinAppend(a[1..], b);
      assert (a + b)[1..] == a[1..] + b;
      assert [SLASH] + a[0] + (Join(a[1..]) + Join(b)) == [SLASH] + a[0] + Join(a[1..]) + Join(b);
    }
  }

  lemma {:induction false} JoinStarts(a: seq<Bytes>)
    ensures (a == [] <==> Join(a) == []) && (a != [] ==> Join(a)[0] == SLASH)
  {
  }

  lemma {:induction false} JoinFirst(a: seq<Bytes>)
    requires a != [] && SlashFree(a)
    ensures var rest := Join(a)[1..];
            var k := FirstIndex(rest, SLASH);
            rest[..k] == a[0] && rest[k..] == Join(a[1..])
  {
    var tail := Join(a[1..]);
    JoinStarts(a[1..]);
    FirstIndexAfter(a[0], tail, SLASH);
    assert Join(a)[1..] == a[0] + tail;
  }

  lemma {:induction false} JoinInjective(a: seq<Bytes>, b: seq<Bytes>)
    requires SlashFree(a) && SlashFree(b) && Join(a) == Join(b)
    ensures a == b
    decreases |a|
  {
    JoinStarts(a);
    JoinStarts(b);
    if a != [] {
      JoinFirst(a);
      JoinFirst(b);
      JoinInjective(a[1..], b[1..]);
      assert a == [a[0]] + a[1..] && b == [b[0]] + b[1..];
    }
  }

  // ----- labels as segments

  /** What a label starts with: its name, and the mark if its value is encoded. */
  datatype Head = Head(name: Bytes, marked: bool)

  function HeadOf(entry: Label): Head {
    Head(entry.name, IsEncoded(entry.value))
  }

  function HeadSegments(h: Head): (segments: seq<Bytes>)
    ensures segments != [] && SlashFree(segments)
  {
    Split(if h.marked then h.name + BASE64_MARK else h.name)
  }

  function LabelSegments(entry: Label): seq<Bytes> {
    HeadSegments(HeadOf(entry)) + [ValueSegment(entry)]
  }

  function Segments(labels: seq<Label>): seq<Bytes> {
    if labels == [] then [] else LabelSegments(labels[0]) + Segments(labels[1..])
  }

  lemma {:induction false} SegmentsSlashFree(labels: seq<Label>)
    ensures SlashFree(Segments(labels))
    decreases |labels|
  {
    hide HeadSegments, ValueSegment;
    if labels != [] {
      ValueHasNoSlash(labels[0]);
      SegmentsSlashFree(labels[1..]);
    }
  }

  lemma {:induction false} LabelIsJoined(entry: Label)
    ensures EncodedLabel(entry) == Join(LabelSegments(entry))
  {
    hide ValueSegment, Split;
    JoinSplit(NameSegment(entry));
    JoinAppend(HeadSegments(HeadOf(entry)), [ValueSegment(entry)]);
    assert Join([ValueSegment(entry)]) == [SLASH] + ValueSegment(entry) + Join([]);
  }

  lemma {:induction false} PathIsJoined(labels: seq<Label>)
    ensures Path(labels) == Join(Segments(labels))
    decreases |labels|
  {
    hide EncodedLabel, LabelSegments;
    if labels != [] {
      LabelIsJoined(labels[0]);
      PathIsJoined(labels[1..]);
      JoinAppend(LabelSegments(labels[0]), Segments(labels[1..]));
    }
  }

  lemma {:induction false} SamePathSameSegments(a: seq<Label>, b: seq<Label>)
    ensures Path(a) == Path(b) <==> Segments(a) == Segments(b)
  {
    hide Path, Segments, Join;
    PathIsJoined(a);
    PathIsJoined(b);
    SegmentsSlashFree(a);
    SegmentsSlashFree(b);
    if Path(a) == Path(b) { JoinInjective(Segments(a), Segments(b)); }
  }

  // ----- segments that are values

  /** Whether a segment is how some value is written, plainly or encoded. */
  predicate IsValue(segment: Bytes, marked: bool) {
    if !marked then !IsEncoded(segment)
    else
      || segment == [PAD]
      || match UrlDecode(segment)
         case Ok(value) => AnyNeedsEncoding(value) && UrlEncode(value) == segment
         case Err(_) => false
  }

  lemma {:induction false} ValueSegmentIsValue(entry: Label)
    ensures IsValue(ValueSegment(entry), IsEncoded(entry.value))
  {
    hide UrlEncode, UrlDecode, AnyNeedsEncoding;
    UrlRoundTrip(entry.value);
  }

  lemma {:induction false} EntryFor(h: Head, segment: Bytes) returns (entry: Label)
    requires IsValue(segment, h.marked)
    ensures HeadOf(entry) == h && ValueSegment(entry) == segment
  {
    hide UrlEncode, UrlDecode, NeedsEncoding;
    var value := if !h.marked then segment else if segment == [PAD] then [] else UrlDecode(segment).bytes;
    entry := Label(h.name, value);
  }

  lemma {:induction false} SameHeadSameValue(a: Label, b: Label)
    requires HeadOf(a) == HeadOf(b) && ValueSegment(a) == ValueSegment(b)
    ensures a == b
  {
    hide ValueSegment, AnyNeedsEncoding;
    SameNameSameValue(a, b);
  }

  // ----- two readings of a path

  /**
    One reading is ahead by the segments of a head from some index on, and a value. The other one goes on
    with a head: either both end with it, or one of them is ahead again, its next segment being the value
    that the other one had to come to; and so on, a number of times.
   */
  ghost predicate Overlap(names: set<Bytes>, h: Head, i: nat, h': Head, n: nat)
    requires i <= |HeadSegments(h)|
    decreases n
  {
    var ahead, next := HeadSegments(h)[i..], HeadSegments(h');
    || ahead == next
    || (0 < n && ahead < next && IsValue(next[|ahead|], h.marked)
        && exists h'': Head :: h''.name in names && Overlap(names, h', |ahead| + 1, h'', n - 1))
    || (0 < n && next < ahead && IsValue(ahead[|next|], h'.marked)
        && exists h'': Head :: h''.name in names && Overlap(names, h, i + |next| + 1, h'', n - 1))
  }

  /** Two heads start readings that overlap and end together. */
  ghost predicate Ambiguous(names: set<Bytes>) {
    exists h: Head, h': Head, n: nat :: h != h' && h.name in names && h'.name in names && Overlap(names, h, 0, h', n)
  }

  // ----- two lists with one path overlap

  lemma {:induction false} SegmentsStart(labels: seq<Label>)
    ensures labels == [] <==> Segments(labels) == []
    ensures labels != [] ==>
              Segments(labels) == HeadSegments(HeadOf(labels[0])) + [ValueSegment(labels[0])] + Segments(labels[1..])
  {
    hide HeadSegments, ValueSegment;
  }

  /**
    Two ways to cut a sequence of segments: the shorter start is a start of the longer one, and what
    is left agrees.
   */
  lemma {:induction false} Cut(x: seq<Bytes>, v: Bytes, a: seq<Bytes>, y: seq<Bytes>, w: Bytes, b: seq<Bytes>)
    requires x + [v] + a == y + [w] + b && |x| <= |y|
    ensures |x| == |y| ==> x == y && v == w && a == b
    ensures |x| < |y| ==> x < y && v == y[|x|] && a == y[|x| + 1..] + [w] + b
  {
    var s, s' := x + [v] + a, y + [w] + b;
    assert s[..|x|] == x && s'[..|y|] == y && s[|x|] == v && s'[|y|] == w;
    assert s[|x| + 1..] == a && s'[|y| + 1..] == b;
    if |x| < |y| {
      assert s'[..|x|] == y[..|x|];
      assert s'[|x| + 1..] == y[|x| + 1..] + [w] + b;
    }
  }

  lemma {:induction false} OverlapEnds(names: set<Bytes>, h: Head, i: nat, h': Head, n: nat)
    requires i <= |HeadSegments(h)| && HeadSegments(h)[i..] == HeadSegments(h')
    ensures Overlap(names, h, i, h', n)
  {
    hide HeadSegments;
  }

  lemma {:induction false} OverlapAhead(names: set<Bytes>, h: Head, i: nat, h': Head, h'': Head, n: nat)
    requires i <= |HeadSegments(h)| && HeadSegments(h)[i..] < HeadSegments(h') && h''.name in names
    requires var k := |HeadSegments(h)| - i;
             IsValue(HeadSegments(h')[k], h.marked) && Overlap(names, h', k + 1, h'', n)
    ensures Overlap(names, h, i, h', n + 1)
  {
    hide HeadSegments, IsValue;
  }

  lemma {:induction false} OverlapBehind(names: set<Bytes>, h: Head, i: nat, h': Head, h'': Head, n: nat)
    requires i <= |HeadSegments(h)| && HeadSegments(h') < HeadSegments(h)[i..] && h''.name in names
    requires var k := i + |HeadSegments(h')|;
             IsValue(HeadSegments(h)[k], h'.marked) && Overlap(names, h, k + 1, h'', n)
    ensures Overlap(names, h, i, h', n + 1)
  {
    hide HeadSegments, IsValue;
  }

  lemma {:induction false} ReadingsOverlap(
    names: set<Bytes>, h: Head, i: nat, v: Bytes, a: seq<Label>, b: seq<Label>) returns (n: nat)
    requires h.name in names && NamesIn(a, names) && NamesIn(b, names) && i <= |HeadSegments(h)| && IsValue(v, h.marked)
    requires HeadSegments(h)[i..] + [v] + Segments(a) == Segments(b)
    ensures b != [] && Overlap(names, h, i, HeadOf(b[0]), n)
    decreases |a| + |b|
  {
    hide HeadSegments, ValueSegment, Segments, IsValue, HeadOf, Overlap;
    SegmentsStart(b);
    SegmentsStart(a);
    assert HeadSegments(h)[i..] + [v] + Segments(a) != [];
    var h', w, ahead, next := HeadOf(b[0]), ValueSegment(b[0]), HeadSegments(h)[i..], HeadSegments(HeadOf(b[0]));
    ValueOfHead(b[0]);
    HeadName(b[0]);
    if |ahead| < |next| {
      Cut(ahead, v, Segments(a), next, w, Segments(b[1..]));
      var m := ReadingsOverlap(names, h', |ahead| + 1, w, b[1..], a);
      HeadName(a[0]);
      OverlapAhead(names, h, i, h', HeadOf(a[0]), m);
      n := m + 1;
    } else {
      Cut(next, w, Segments(b[1..]), ahead, v, Segments(a));
      if |next| < |ahead| {
        assert ahead[|next| + 1..] == HeadSegments(h)[i + |next| + 1..];
        var m := ReadingsOverlap(names, h, i + |next| + 1, v, a, b[1..]);
        HeadName(b[1]);
        OverlapBehind(names, h, i, h', HeadOf(b[1]), m);
        n := m + 1;
      } else {
        n := 0;
        OverlapEnds(names, h, i, h', n);
      }
    }
  }

  lemma {:induction false} HeadName(entry: Label)
    ensures HeadOf(entry).name == entry.name
  {
  }

  lemma {:induction false} ValueOfHead(entry: Label)
    ensures IsValue(ValueSegment(entry), HeadOf(entry).marked)
  {
    hide IsValue, ValueSegment;
    ValueSegmentIsValue(entry);
  }

  lemma {:induction false} SamePathIsAmbiguous(names: set<Bytes>, a: seq<Label>, b: seq<Label>)
    requires NamesIn(a, names) && NamesIn(b, names) && Segments(a) == Segments(b) && a != b
    ensures Ambiguous(names)
    decreases |a|
  {
    hide HeadSegments, ValueSegment, Segments, IsValue, HeadOf, Overlap;
    SegmentsStart(a);
    SegmentsStart(b);
    var h, h' := HeadOf(a[0]), HeadOf(b[0]);
    HeadName(a[0]);
    HeadName(b[0]);
    ValueOfHead(a[0]);
    if h == h' {
      Cut(HeadSegments(h), ValueSegment(a[0]), Segments(a[1..]), HeadSegments(h), ValueSegment(b[0]), Segments(b[1..]));
      SameHeadSameValue(a[0], b[0]);
      assert a == [a[0]] + a[1..] && b == [b[0]] + b[1..];
      SamePathIsAmbiguous(names, a[1..], b[1..]);
    } else {
      assert HeadSegments(h)[0..] == HeadSegments(h);
      var n := ReadingsOverlap(names, h, 0, ValueSegment(a[0]), a[1..], b);
    }
  }

  // ----- readings that overlap are those of two lists

  /** Both a plain value and, under the mark, an encoded one. */
  lemma {:induction false} CommonValue(marked: bool)
    ensures IsValue(AAAA, marked)
  {
    hide UrlEncode, UrlDecode, AnyNeedsEncoding;
    ZerosEncoded();
    UrlRoundTrip(ZEROS);
  }

  /** The other way round: what a longer start and its rest agree with. */
  lemma {:induction false} Uncut(x: seq<Bytes>, y: seq<Bytes>, w: Bytes, a: seq<Bytes>, b: seq<Bytes>)
    requires x < y && y[|x| + 1..] + [w] + b == a
    ensures x + [y[|x|]] + a == y + [w] + b
  {
    var rest := y[|x| + 1..];
    assert y == x + [y[|x|]] + rest;
    assert x + [y[|x|]] + (rest + [w] + b) == x + [y[|x|]] + rest + [w] + b;
  }

  lemma {:induction false} ListStart(entry: Label, labels: seq<Label>)
    ensures Segments([entry] + labels) == HeadSegments(HeadOf(entry)) + [ValueSegment(entry)] + Segments(labels)
    ensures Segments([]) == []
  {
    hide Segments, HeadSegments, ValueSegment;
    SegmentsStart([entry] + labels);
    SegmentsStart([]);
    assert ([entry] + labels)[1..] == labels;
  }

  lemma {:induction false} ListsOf(names: set<Bytes>, h: Head, i: nat, h': Head, n: nat)
    returns (v: Bytes, a: seq<Label>, b: seq<Label>)
    requires i <= |HeadSegments(h)| && h'.name in names && Overlap(names, h, i, h', n)
    requires h.name in names
    ensures IsValue(v, h.marked) && NamesIn(a, names) && NamesIn(b, names) && b != [] && HeadOf(b[0]) == h'
    ensures HeadSegments(h)[i..] + [v] + Segments(a) == Segments(b)
    decreases n
  {
    hide HeadSegments, ValueSegment, Segments, IsValue, HeadOf, AAAA;
    var ahead, next := HeadSegments(h)[i..], HeadSegments(h');
    if ahead == next {
      CommonValue(h.marked);
      CommonValue(h'.marked);
      var entry := EntryFor(h', AAAA);
      v, a, b := AAAA, [], [entry];
      HeadName(entry);
      ListStart(entry, a);
      assert [entry] + [] == b;
    } else if ahead < next {
      var h'': Head :| h''.name in names && Overlap(names, h', |ahead| + 1, h'', n - 1);
      var w, a', b' := ListsOf(names, h', |ahead| + 1, h'', n - 1);
      var entry := EntryFor(h', w);
      HeadName(entry);
      v, a, b := next[|ahead|], b', [entry] + a';
      ListStart(entry, a');
      Uncut(ahead, next, w, Segments(b'), Segments(a'));
    } else {
      var h'': Head :| h''.name in names && Overlap(names, h, i + |next| + 1, h'', n - 1);
      var w, a', b' := ListsOf(names, h, i + |next| + 1, h'', n - 1);
      var entry := EntryFor(h', ahead[|next|]);
      HeadName(entry);
      v, a, b := w, a', [entry] + b';
      ListStart(entry, b');
      assert ahead[|next| + 1..] == HeadSegments(h)[i + |next| + 1..];
      Uncut(next, ahead, w, Segments(b'), Segments(a'));
    }
  }

  lemma {:induction false} AmbiguousHasSamePath(names: set<Bytes>) returns (a: seq<Label>, b: seq<Label>)
    requires Ambiguous(names)
    ensures NamesIn(a, names) && NamesIn(b, names) && Segments(a) == Segments(b) && a != b
    ensures a != [] && b != []
  {
    hide HeadSegments, ValueSegment, Segments, IsValue, HeadOf, Overlap;
    var h: Head, h': Head, n: nat :| h != h' && h.name in names && h'.name in names && Overlap(names, h, 0, h', n);
    var v, a', b' := ListsOf(names, h, 0, h', n);
    var entry := EntryFor(h, v);
    HeadName(entry);
    a, b := [entry] + a', b';
    SegmentsStart(a);
    assert a[1..] == a' && HeadSegments(h)[0..] == HeadSegments(h);
  }

  // ----- the exact condition

  /**
    Over any set of names, with or without separators: label lists can be told from their paths, whatever
    bytes the values are made of, if and only if no two readings overlap and end together.
   */
  lemma {:induction false} PathInjectiveForAllNames(names: set<Bytes>)
    ensures (forall a, b :: NamesIn(a, names) && NamesIn(b, names) && Path(a) == Path(b) ==> a == b)
            <==> !Ambiguous(names)
  {
    hide Path, NamesIn, Ambiguous, Segments;
    if Ambiguous(names) {
      var a, b := AmbiguousHasSamePath(names);
      SamePathSameSegments(a, b);
    } else {
      forall a, b | NamesIn(a, names) && NamesIn(b, names) && Path(a) == Path(b)
        ensures a == b
      {
        SamePathSameSegments(a, b);
        if a != b { SamePathIsAmbiguous(names, a, b); }
      }
    }
  }

  // ----- addresses

  lemma {:induction false} JobIsOneSegment(marked: bool)
    ensures HeadSegments(Head(JOB, marked)) == [if marked then JOB + BASE64_MARK else JOB]
  {
    SplitPlain(JOB);
    SplitPlain(JOB + BASE64_MARK);
  }

  lemma {:induction false} SplitPlain(s: Bytes)
    requires SLASH !in s
    ensures Split(s) == [s]
  {
    hide FirstIndex;
    FirstIndexIsSlash(s, SLASH);
    AtFirstSlash(s);
  }

  lemma {:induction false} JobIsTold(job: Bytes, labels: seq<Label>, job': Bytes, labels': seq<Label>)
    requires Segments([Label(JOB, job)] + labels) == Segments([Label(JOB, job')] + labels')
    ensures job == job' && Segments(labels) == Segments(labels')
  {
    hide HeadSegments, ValueSegment, Segments, BASE64_MARK, IsEncoded;
    var entry, entry' := Label(JOB, job), Label(JOB, job');
    var a, b := [entry] + labels, [entry'] + labels';
    SegmentsStart(a);
    SegmentsStart(b);
    assert a[1..] == labels && b[1..] == labels';
    JobIsOneSegment(HeadOf(entry).marked);
    JobIsOneSegment(HeadOf(entry').marked);
    Cut(HeadSegments(HeadOf(entry)), ValueSegment(entry), Segments(labels),
        HeadSegments(HeadOf(entry')), ValueSegment(entry'), Segments(labels'));
    MarkIsLonger(JOB);
    SameHeadSameValue(entry, entry');
  }

  lemma {:induction false} MarkIsLonger(s: Bytes)
    ensures s + BASE64_MARK != s
  {
    assert |s + BASE64_MARK| != |s|;
  }

  function Address(url: Bytes, job: Bytes, labels: seq<Label>): Bytes {
    MetricsRoot(url) + Path([Label(JOB, job)] + labels)
  }

  lemma {:induction false} SameAddress(url: Bytes, job: Bytes, labels: seq<Label>, job': Bytes, labels': seq<Label>)
    ensures Address(url, job, labels) == Address(url, job', labels')
            <==> job == job' && Path(labels) == Path(labels')
  {
    hide Path, MetricsRoot, Segments;
    var a, b, root := [Label(JOB, job)] + labels, [Label(JOB, job')] + labels', MetricsRoot(url);
    if Address(url, job, labels) == Address(url, job', labels') {
      assert Path(a) == (root + Path(a))[|root|..] == (root + Path(b))[|root|..] == Path(b);
      SamePathSameSegments(a, b);
      JobIsTold(job, labels, job', labels');
      SamePathSameSegments(labels, labels');
    }
    PathAppend([Label(JOB, job)], labels);
    PathAppend([Label(JOB, job')], labels');
  }

  /**
    So two different grouping keys never share an address, for any job and names, under the same
    condition and no other.
   */
  lemma {:induction false} UriDeterminesGroupingKey(names: set<Bytes>, url: Bytes)
    ensures (forall job, labels, job', labels' ::
               NamesIn(labels, names) && NamesIn(labels', names) &&
               Address(url, job, labels) == Address(url, job', labels') ==>
                 job == job' && labels == labels')
            <==> !Ambiguous(names)
  {
    hide Path, NamesIn, Ambiguous, Address;
    PathInjectiveForAllNames(names);
    if Ambiguous(names) {
      var a, b :| NamesIn(a, names) && NamesIn(b, names) && Path(a) == Path(b) && a != b;
      SameAddress(url, [], a, [], b);
    } else {
      forall job, labels, job', labels' |
        NamesIn(labels, names) && NamesIn(labels', names) && Address(url, job, labels) == Address(url, job', labels')
        ensures job == job' && labels == labels'
      {
        SameAddress(url, job, labels, job', labels');
      }
    }
  }

  // ----- simpler conditions

  /**
    Names of which none starts with another one and a separator are ambiguous exactly if one is
    another one with the mark.
   */
  lemma {:induction false} SlashApartAmbiguity(names: set<Bytes>)
    requires SlashApart(names)
    ensures Ambiguous(names) <==> !MarkApart(names)
  {
    hide Ambiguous, SlashApart, MarkApart, NamesIn, Path;
    PathInjectiveForAllNames(names);
    PathInjectiveExactly(names);
  }

  lemma {:induction false} SplitFirst(x: Bytes, y: Bytes)
    requires SLASH !in x
    ensures Split(x + [SLASH] + y) == [x] + Split(y)
  {
    hide FirstIndex;
    var s := x + [SLASH] + y;
    assert s == x + ([SLASH] + y);
    FirstIndexAfter(x, [SLASH] + y, SLASH);
    assert s[..|x|] == x && s[|x| + 1..] == y;
  }

  /** The segments of a name, and of one that starts with it and a separator. */
  lemma {:induction false} NestedSegments(x: Bytes, y: Bytes, marked: bool)
    requires SLASH !in x && SLASH !in y
    ensures HeadSegments(Head(x, marked)) == [if marked then x + BASE64_MARK else x]
    ensures HeadSegments(Head(x + [SLASH] + y, marked)) == [x, if marked then y + BASE64_MARK else y]
  {
    hide Split;
    SplitPlain(x);
    SplitPlain(x + BASE64_MARK);
    SplitPlain(y);
    SplitPlain(y + BASE64_MARK);
    SplitFirst(x, y);
    SplitFirst(x, y + BASE64_MARK);
    assert x + [SLASH] + y + BASE64_MARK == x + [SLASH] + (y + BASE64_MARK);
  }

  /** Neither name is the other, or the other with the mark. */
  predicate Unlike(x: Bytes, y: Bytes) {
    x != y && x != y + BASE64_MARK && y != x + BASE64_MARK
  }

  lemma {:induction false} UnlikeMarked(x: Bytes, y: Bytes)
    requires Unlike(x, y)
    ensures x + BASE64_MARK != y + BASE64_MARK
  {
    MarkIsRead(x);
    MarkIsRead(y);
  }

  /** Once one reading is ahead by a value, or by the second part of the longer name, the two never end together. */
  lemma {:induction false} NestedNeverEnd(x: Bytes, y: Bytes, h: Head, i: nat, h': Head, n: nat)
    requires SLASH !in x && SLASH !in y && Unlike(x, y)
    requires h.name in {x, x + [SLASH] + y} && h'.name in {x, x + [SLASH] + y} && i <= |HeadSegments(h)|
    requires i == |HeadSegments(h)| || (i == 1 && h.name == x + [SLASH] + y)
    ensures !Overlap({x, x + [SLASH] + y}, h, i, h', n)
    decreases n
  {
    hide HeadSegments, IsValue, BASE64_MARK;
    NestedSegments(x, y, h.marked);
    NestedSegments(x, y, h'.marked);
    UnlikeMarked(x, y);
    var names, ahead, next := {x, x + [SLASH] + y}, HeadSegments(h)[i..], HeadSegments(h');
    if i < |HeadSegments(h)| {
      assert ahead == [HeadSegments(h)[1]] && ahead[0] != next[0];
    } else if 0 < n {
      assert ahead == [];
      forall h'': Head | h''.name in names
        ensures !Overlap(names, h', 1, h'', n - 1)
      {
        NestedNeverEnd(x, y, h', 1, h'', n - 1);
      }
    }
  }

  /** Names may start with another one and a separator and still not be ambiguous: for instance any two of this kind. */
  lemma {:induction false} NestedIsNotAmbiguous(x: Bytes, y: Bytes)
    requires SLASH !in x && SLASH !in y && Unlike(x, y)
    ensures !Ambiguous({x, x + [SLASH] + y}) && !SlashApart({x, x + [SLASH] + y})
  {
    hide HeadSegments, IsValue, BASE64_MARK;
    var names := {x, x + [SLASH] + y};
    forall h: Head, h': Head, n: nat | h != h' && h.name in names && h'.name in names
      ensures !Overlap(names, h, 0, h', n)
    {
      NestedSegments(x, y, h.marked);
      NestedSegments(x, y, h'.marked);
      MarkIsLonger(x);
      MarkIsLonger(y);
      var ahead, next := HeadSegments(h)[0..], HeadSegments(h');
      assert ahead == HeadSegments(h);
      if 0 < n && (ahead < next || next < ahead) {
        forall h'': Head | h''.name in names
          ensures ahead < next ==> !Overlap(names, h', |ahead| + 1, h'', n - 1)
          ensures next < ahead ==> !Overlap(names, h, |next| + 1, h'', n - 1)
        {
          if ahead < next {
            NestedNeverEnd(x, y, h', |ahead| + 1, h'', n - 1);
          } else {
            NestedNeverEnd(x, y, h, |next| + 1, h'', n - 1);
          }
        }
      }
    }
    assert x + [SLASH] <= x + [SLASH] + y;
  }
}
