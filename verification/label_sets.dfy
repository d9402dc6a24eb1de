/** Labels as the library keeps them: an ordered map from names to values. */
module LabelSets {
  import opened TextFormat

  /** The order of strings by which the map is sorted. */
  predicate Less(a: string, b: string) {
    b != "" && (a == "" || a[0] < b[0] || (a[0] == b[0] && Less(a[1..], b[1..])))
  }

  /** By the first character in which they differ; a text comes behind those it starts with. */
  lemma {:induction false} LessExactly(a: string, b: string)
    ensures Less(a, b) <==> a < b || exists k :: 0 <= k < |a| && k < |b| && a[..k] == b[..k] && a[k] < b[k]
    decreases |a|
  {
    if a != "" && b != "" {
      if a[0] < b[0] {
        assert a[..0] == b[..0];
      } else if a[0] == b[0] {
        LessExactly(a[1..], b[1..]);
        if k :| 0 <= k < |a| - 1 && k < |b| - 1 && a[1..][..k] == b[1..][..k] && a[1..][k] < b[1..][k] {
          assert a[..k + 1] == [a[0]] + a[1..][..k] && b[..k + 1] == [b[0]] + b[1..][..k];
        }
        if k :| 0 <= k < |a| && k < |b| && a[..k] == b[..k] && a[k] < b[k] {
          assert 0 < k;
          assert a[1..][..k - 1] == a[..k][1..] && b[1..][..k - 1] == b[..k][1..];
        }
      }
    }
  }

  ghost predicate SortedByName(s: seq<Label>) {
    forall i, j :: 0 <= i < j < |s| ==> Less(s[i].name, s[j].name)
  }

  /** Two such maps are equal exactly if the sequences are. */
  type Labels = s: seq<Label> | SortedByName(s) witness []

  ghost predicate DistinctNames(s: seq<Label>) {
    forall i, j :: 0 <= i < j < |s| ==> s[i].name != s[j].name
  }

  predicate HasName(s: seq<Label>, name: string) {
    exists i :: 0 <= i < |s| && s[i].name == name
  }

  /** What identifies a series: its pairs, in whatever order they are listed. */
  ghost function Pairs(s: seq<Label>): set<Label> {
    set l | l in s
  }

  lemma {:induction false} LessIsAsymmetric(a: string, b: string)
    requires Less(a, b)
    ensures !Less(b, a) && a != b
    decreases |a|
  {
    if a != "" && a[0] == b[0] { LessIsAsymmetric(a[1..], b[1..]); }
  }

  lemma {:induction false} SortedIsDistinct(s: Labels)
    ensures DistinctNames(s)
  {
    forall i, j | 0 <= i < j < |s|
      ensures s[i].name != s[j].name
    {
      LessIsAsymmetric(s[i].name, s[j].name);
    }
  }

  lemma {:induction false} SameHead(a: seq<Label>, b: seq<Label>)
    requires SortedByName(a) && SortedByName(b) && Pairs(a) == Pairs(b) && a != [] && b != []
    ensures a[0] == b[0]
  {
    assert a[0] in Pairs(b) && b[0] in Pairs(a);
    var j :| 0 <= j < |b| && b[j] == a[0];
    var i :| 0 <= i < |a| && a[i] == b[0];
    if i != 0 && j != 0 { LessIsAsymmetric(a[0].name, b[0].name); }
  }

  lemma {:induction false} PairsTail(s: seq<Label>)
    requires SortedByName(s) && s != []
    ensures Pairs(s[1..]) == Pairs(s) - {s[0]}
  {
    forall i | 1 <= i < |s|
      ensures s[i] != s[0]
    {
      LessIsAsymmetric(s[0].name, s[i].name);
    }
    assert s == [s[0]] + s[1..];
  }

  lemma {:induction false} NoPairs(s: seq<Label>)
    ensures Pairs(s) == {} <==> s == []
  {
    if s != [] { assert s[0] in Pairs(s); }
  }

  /** The order leaves no choice: maps with the same pairs are the same sequence. */
  lemma {:induction false} SamePairs(a: seq<Label>, b: seq<Label>)
    requires SortedByName(a) && SortedByName(b) && Pairs(a) == Pairs(b)
    ensures a == b
    decreases |a|
  {
    NoPairs(a);
    NoPairs(b);
    if a != [] {
      SameHead(a, b);
      PairsTail(a);
      PairsTail(b);
      SamePairs(a[1..], b[1..]);
      assert a == [a[0]] + a[1..] && b == [b[0]] + b[1..];
    }
  }

  /** Common labels in front do not hide a difference, as long as they share no name with the rest. */
  lemma {:induction false} SamePairsBehind(prefix: Labels, a: Labels, b: Labels)
    requires Pairs(prefix + a) == Pairs(prefix + b)
    requires forall i :: 0 <= i < |a| ==> !HasName(prefix, a[i].name)
    requires forall i :: 0 <= i < |b| ==> !HasName(prefix, b[i].name)
    ensures a == b
  {
    BehindPrefix(prefix, a);
    BehindPrefix(prefix, b);
    SamePairs(a, b);
  }

  lemma {:induction false} BehindPrefix(prefix: seq<Label>, a: seq<Label>)
    requires forall i :: 0 <= i < |a| ==> !HasName(prefix, a[i].name)
    ensures Pairs(a) == Pairs(prefix + a) - Pairs(prefix)
  {
    forall l | l in a
      ensures l !in prefix
    {
      var i :| 0 <= i < |a| && a[i] == l;
    }
  }
}
