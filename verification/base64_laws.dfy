/** What encoding and decoding base64 do to each other, for all byte strings. */
module Base64Laws {
  import opened Options
  import opened Base64

  // ----- letters

  lemma {:induction false} LetterRead(d: bv32)
    requires d < 64
    ensures Sextet(Letter(d)) == Some(d) && Letter(d) != PAD
  {
  }

  lemma {:induction false} LetterWritten(c: bv8)
    requires IsLetter(c)
    ensures Sextet(c).value < 64 && Letter(Sextet(c).value) == c && c != PAD
  {
  }

  // ----- one quantum, as bits

  function Bits4(d0: bv32, d1: bv32, d2: bv32, d3: bv32): bv32 {
    Shift(Shift(Shift(Shift(0, d0), d1), d2), d3)
  }

  function Digit0(t: bv32): bv32 { (t & 0x00FC0000) >> 18 }
  function Digit1(t: bv32): bv32 { (t & 0x0003F000) >> 12 }
  function Digit2(t: bv32): bv32 { (t & 0x00000FC0) >> 6 }
  function Digit3(t: bv32): bv32 { t & 0x0000003F }

  lemma {:induction false} DigitRange(t: bv32)
    ensures Digit0(t) < 64 && Digit1(t) < 64 && Digit2(t) < 64 && Digit3(t) < 64
  {
  }

  lemma {:induction false} DigitsOfPack(a: bv8, b: bv8, c: bv8)
    ensures var t := Pack(a, b, c);
            Bits4(Digit0(t), Digit1(t), Digit2(t), Digit3(t)) == t
  {
  }

  lemma {:induction false} BytesOfPack(a: bv8, b: bv8, c: bv8)
    ensures var t := Pack(a, b, c); Byte16(t) == a && Byte8(t) == b && Byte0(t) == c
  {
  }

  lemma {:induction false} ShortDigits(a: bv8, b: bv8)
    ensures var t := Pack(a, b, 0);
            var u := Bits4(Digit0(t), Digit1(t), Digit2(t), 0);
            Byte16(u) == a && Byte8(u) == b
  {
  }

  lemma {:induction false} ShorterDigits(a: bv8)
    ensures var t := Pack(a, 0, 0); Byte10(Shift(Shift(Shift(0, Digit0(t)), Digit1(t)), 0)) == a
  {
  }

  lemma {:induction false} PackOfBits(d0: bv32, d1: bv32, d2: bv32, d3: bv32)
    requires d0 < 64 && d1 < 64 && d2 < 64 && d3 < 64
    ensures var t := Bits4(d0, d1, d2, d3); Pack(Byte16(t), Byte8(t), Byte0(t)) == t
  {
  }

  lemma {:induction false} DigitsOfBits(d0: bv32, d1: bv32, d2: bv32, d3: bv32)
    requires d0 < 64 && d1 < 64 && d2 < 64 && d3 < 64
    ensures var t := Bits4(d0, d1, d2, d3);
            Digit0(t) == d0 && Digit1(t) == d1 && Digit2(t) == d2 && Digit3(t) == d3
  {
  }

  ghost predicate ThreeBytes(u: bv32) {
    u & 0xFFFFFF == u
  }

  function DropLow(u: bv32): bv32 {
    u & 0xFFFF00
  }

  lemma {:induction false} PackDropsLow(u: bv32)
    requires ThreeBytes(u)
    ensures Pack(Byte16(u), Byte8(u), 0) == DropLow(u)
  {
  }

  lemma {:induction false} Bits4Range(d0: bv32, d1: bv32, d2: bv32, d3: bv32)
    requires d0 < 64 && d1 < 64 && d2 < 64 && d3 < 64
    ensures ThreeBytes(Bits4(d0, d1, d2, d3))
  {
  }

  lemma {:induction false} DigitsOfMasked(d0: bv32, d1: bv32, d2: bv32)
    requires d0 < 64 && d1 < 64 && d2 < 64
    ensures var t := DropLow(Bits4(d0, d1, d2, 0));
            Digit0(t) == d0 && Digit1(t) == d1 && Digit2(t) == d2 & 0x3C
  {
  }

  /** Two bytes keep all but the last two bits of the third letter. */
  lemma {:induction false} DigitsOfShort(d0: bv32, d1: bv32, d2: bv32)
    requires d0 < 64 && d1 < 64 && d2 < 64
    ensures var u := Bits4(d0, d1, d2, 0);
            var t := Pack(Byte16(u), Byte8(u), 0);
            Digit0(t) == d0 && Digit1(t) == d1 && Digit2(t) == d2 & 0x3C
  {
    hide Bits4, Pack, Byte16, Byte8, Digit0, Digit1, Digit2, ThreeBytes, DropLow;
    Bits4Range(d0, d1, d2, 0);
    PackDropsLow(Bits4(d0, d1, d2, 0));
    DigitsOfMasked(d0, d1, d2);
  }

  /** One byte keeps the first two bits of the second letter. */
  lemma {:induction false} DigitsOfShorter(d0: bv32, d1: bv32)
    requires d0 < 64 && d1 < 64
    ensures var t := Pack(Byte10(Shift(Shift(Shift(0, d0), d1), 0)), 0, 0);
            Digit0(t) == d0 && Digit1(t) == d1 & 0x30
  {
  }

  // ----- quanta as byte strings

  /** A quantum whose letters stand for the given six-bit digits. */
  ghost predicate Reads(q: Bytes, i: nat, d: bv32)
    requires i < |q|
  {
    d < 64 && Sextet(q[i]) == Some(d)
  }

  lemma {:induction false} BitsOfLetters(q: Bytes, n: nat, d0: bv32, d1: bv32, d2: bv32, d3: bv32)
    requires 2 <= n <= 4 <= |q| && Reads(q, 0, d0) && Reads(q, 1, d1)
    requires (3 <= n ==> Reads(q, 2, d2)) && (n == 4 ==> Reads(q, 3, d3)) && (n < 4 ==> !IsLetter(q[n]))
    ensures Letters(q, 0) == n && forall j :: 0 <= j < n ==> IsLetter(q[j])
    ensures n == 4 ==> Bits(q, 4) == Bits4(d0, d1, d2, d3)
    ensures n == 3 ==> Shift(Bits(q, 3), 0) == Bits4(d0, d1, d2, 0)
    ensures n == 2 ==> Shift(Bits(q, 2), 0) == Shift(Shift(Shift(0, d0), d1), 0)
  {
    hide Shift, Sextet;
    assert IsLetter(q[0]) && IsLetter(q[1]);
    assert 3 <= n ==> IsLetter(q[2]);
    assert n == 4 ==> IsLetter(q[3]);
    LettersFrom(q, n);
    assert Bits(q, 0) == 0;
    assert Bits(q, 1) == Shift(0, d0);
    assert Bits(q, 2) == Shift(Bits(q, 1), d1);
    if 3 <= n { assert Bits(q, 3) == Shift(Bits(q, 2), d2); }
    if n == 4 { assert Bits(q, 4) == Shift(Bits(q, 3), d3); }
  }

  lemma {:induction false} LettersOf(t: bv32)
    ensures Letter0(t) == Letter(Digit0(t)) && Letter1(t) == Letter(Digit1(t))
    ensures Letter2(t) == Letter(Digit2(t)) && Letter3(t) == Letter(Digit3(t))
  {
  }

  lemma {:induction false} DecodeTriple(a: bv8, b: bv8, c: bv8, rest: Bytes)
    requires |rest| % 4 == 0
    ensures DecodeQuanta(EncodeTriple(a, b, c) + rest) == Prepend([a, b, c], DecodeQuanta(rest))
  {
    hide Letter, Sextet, Shift, Pack, Digit0, Digit1, Digit2, Digit3, Letter0, Letter1, Letter2, Letter3, Byte0;
    hide Byte8, Byte16, Bits4;
    var t := Pack(a, b, c);
    var s := EncodeTriple(a, b, c) + rest;
    DigitRange(t);
    LettersOf(t);
    LetterRead(Digit0(t));
    LetterRead(Digit1(t));
    LetterRead(Digit2(t));
    LetterRead(Digit3(t));
    BitsOfLetters(s, 4, Digit0(t), Digit1(t), Digit2(t), Digit3(t));
    DigitsOfPack(a, b, c);
    BytesOfPack(a, b, c);
    assert s[4..] == rest;
  }

  lemma {:induction false} PadIsNoLetter()
    ensures !IsLetter(PAD)
  {
  }

  lemma {:induction false} DecodeTail(x: Bytes)
    requires |x| < 3
    ensures |EncodeTail(x)| % 4 == 0 && DecodeQuanta(EncodeTail(x)) == Ok(x)
  {
    hide Letter, Sextet, Shift, Pack, Digit0, Digit1, Digit2, Letter0, Letter1, Letter2, Byte8, Byte10, Byte16;
    hide Bits4, IsLetter;
    if x != [] {
      var q, t := EncodeTail(x), Pack(x[0], if |x| == 2 then x[1] else 0, 0);
      DigitRange(t);
      LettersOf(t);
      LetterRead(Digit0(t));
      LetterRead(Digit1(t));
      LetterRead(Digit2(t));
      PadIsNoLetter();
      BitsOfLetters(q, |x| + 1, Digit0(t), Digit1(t), Digit2(t), 0);
      ShorterDigits(x[0]);
      if |x| == 2 { ShortDigits(x[0], x[1]); }
    }
  }

  // ----- the round trip

  /** Whatever is encoded is decoded again. */
  lemma {:induction false} RoundTrip(x: Bytes)
    ensures Decode(Encode(x)) == Ok(x)
    ensures |Encode(x)| == 4 * ((|x| + 2) / 3)
    decreases |x|
  {
    hide EncodeTriple, EncodeTail, DecodeQuanta;
    if |x| < 3 {
      DecodeTail(x);
      TailLength(x);
    } else {
      RoundTrip(x[3..]);
      TripleLength(x[0], x[1], x[2]);
      DecodeTriple(x[0], x[1], x[2], Encode(x[3..]));
      assert x == [x[0], x[1], x[2]] + x[3..];
    }
  }

  lemma {:induction false} TailLength(x: Bytes)
    requires |x| < 3
    ensures |EncodeTail(x)| == if x == [] then 0 else 4
  {
  }

  lemma {:induction false} TripleLength(a: bv8, b: bv8, c: bv8)
    ensures |EncodeTriple(a, b, c)| == 4
  {
  }

  /** Different byte strings have different encodings. */
  lemma {:induction false} EncodeInjective(x: Bytes, y: Bytes)
    requires Encode(x) == Encode(y)
    ensures x == y
  {
    RoundTrip(x);
    RoundTrip(y);
  }

  // ----- what is accepted

  /** The position of the first padding character, or the end. */
  function PadIndex(s: Bytes): (p: nat)
    ensures p <= |s|
    ensures p < |s| ==> s[p] == PAD
    ensures forall i :: 0 <= i < p ==> s[i] != PAD
  {
    if s == [] || s[0] == PAD then 0 else 1 + PadIndex(s[1..])
  }

  /** Whole quanta, letters up to the padding, and the padding in one of the last two places. */
  ghost predicate Acceptable(s: Bytes) {
    var p := PadIndex(s);
    && |s| % 4 == 0
    && (forall i :: 0 <= i < p ==> IsLetter(s[i]))
    && (p == |s| || p == |s| - 1 || p == |s| - 2)
  }

  lemma {:induction false} PadIndexBehind(s: Bytes, k: nat)
    requires k <= |s| && forall i :: 0 <= i < k ==> s[i] != PAD
    ensures PadIndex(s) == k + PadIndex(s[k..])
    decreases k
  {
    if 0 < k {
      PadIndexBehind(s[1..], k - 1);
      assert s[1..][k - 1..] == s[k..];
    } else {
      assert s[0..] == s;
    }
  }

  lemma {:induction false} LettersAreNoPad(s: Bytes, n: nat)
    requires n <= |s| && forall i :: 0 <= i < n ==> IsLetter(s[i])
    ensures forall i :: 0 <= i < n ==> s[i] != PAD
  {
    PadIsNoLetter();
  }

  lemma {:induction false} AcceptableBehind(s: Bytes)
    requires 4 <= |s| && |s| % 4 == 0 && Letters(s, 0) == 4
    ensures Acceptable(s) <==> Acceptable(s[4..])
  {
    LettersAreNoPad(s, 4);
    PadIndexBehind(s, 4);
    var rest := s[4..];
    forall i | 0 <= i < |rest|
      ensures IsLetter(rest[i]) <==> IsLetter(s[i + 4])
    {
    }
    if Acceptable(s) {
      forall i | 0 <= i < PadIndex(rest)
        ensures IsLetter(rest[i])
      {
        assert IsLetter(s[i + 4]);
      }
    }
    if Acceptable(rest) {
      forall i | 0 <= i < PadIndex(s)
        ensures IsLetter(s[i])
      {
        if 4 <= i { assert IsLetter(rest[i - 4]); }
      }
    }
  }

  lemma {:induction false} AcceptableStops(s: Bytes)
    requires 4 <= |s| && |s| % 4 == 0 && Letters(s, 0) < 4
    ensures var n := Letters(s, 0);
            Acceptable(s) <==> s[n] == PAD && |s| == 4 && 2 <= n
  {
    var n := Letters(s, 0);
    LettersAreNoPad(s, n);
    PadIndexBehind(s, n);
    if s[n] == PAD {
      assert PadIndex(s[n..]) == 0;
    } else {
      assert n < PadIndex(s);
    }
  }

  /** Decoding succeeds exactly on acceptable strings. */
  lemma {:induction false} Acceptance(s: Bytes)
    ensures Decode(s).Ok? <==> Acceptable(s)
    decreases |s|
  {
    hide IsLetter, Shift, Byte0, Byte8, Byte10, Byte16, Bits;
    if |s| % 4 == 0 && s != [] {
      if Letters(s, 0) == 4 {
        Acceptance(s[4..]);
        AcceptableBehind(s);
      } else {
        AcceptableStops(s);
      }
    }
  }

  /** Which error is reported: of a wrong length first, else of the first character that is no letter. */
  lemma {:induction false} DecodeFaults(s: Bytes, p: nat)
    requires |s| % 4 == 0 ==> p < |s| && !IsLetter(s[p]) && forall j :: 0 <= j < p ==> IsLetter(s[j])
    ensures |s| % 4 != 0 ==> Decode(s) == Err(InvalidLength)
    ensures |s| % 4 == 0 && s[p] != PAD ==> Decode(s) == Err(InvalidCharacter)
    ensures |s| % 4 == 0 && s[p] == PAD && 3 <= |s| - p ==> Decode(s) == Err(InvalidPadding)
    ensures |s| % 4 == 0 && s[p] == PAD && |s| - p < 3 ==> Decode(s).Ok?
    decreases |s|
  {
    hide IsLetter, Shift, Byte0, Byte8, Byte10, Byte16, Bits, ShortBytes, DecodeQuanta, Letters;
    if |s| % 4 == 0 {
      if p < 4 {
        LettersFrom(s, p);
        DecodeStop([], s);
        DecodeEnds([], DecodeQuanta(s));
      } else {
        LettersFrom(s, 4);
        FullQuantum(s);
        DecodeFaults(s[4..], p - 4);
      }
    }
  }

  // ----- the normal form

  /** Clear the bits of the last letter that no byte uses, and pad in full. */
  function Normalised(s: Bytes): Bytes
    requires Acceptable(s)
  {
    var p := PadIndex(s);
    if p == |s| then s
    else if p == |s| - 1 then s[..p - 1] + [CutTo(s[p - 1], 0x3C), PAD]
    else s[..p - 1] + [CutTo(s[p - 1], 0x30), PAD, PAD]
  }

  /** The letter for the bits of a letter that a mask keeps. */
  function CutTo(c: bv8, mask: bv32): bv8
    requires IsLetter(c)
  {
    LetterWritten(c);
    CutRange(Sextet(c).value, mask);
    Letter(Sextet(c).value & mask)
  }

  lemma {:induction false} CutRange(d: bv32, mask: bv32)
    requires d < 64
    ensures d & mask < 64
  {
  }

  lemma {:induction false} ReadsOf(s: Bytes, i: nat)
    requires i < |s| && IsLetter(s[i])
    ensures Reads(s, i, Sextet(s[i]).value) && Letter(Sextet(s[i]).value) == s[i]
  {
    LetterWritten(s[i]);
  }

  lemma {:induction false} EncodeWhole(s: Bytes)
    requires 4 <= |s| && Letters(s, 0) == 4
    ensures var t := Bits(s, 4); EncodeTriple(Byte16(t), Byte8(t), Byte0(t)) == s[..4]
  {
    hide Letter, Sextet, IsLetter, Shift, Pack, Digit0, Digit1, Digit2, Digit3, Letter0, Letter1, Letter2, Letter3;
    hide Byte0, Byte8, Byte16, Bits4;
    ReadsOf(s, 0);
    ReadsOf(s, 1);
    ReadsOf(s, 2);
    ReadsOf(s, 3);
    var d0, d1, d2, d3 := Sextet(s[0]).value, Sextet(s[1]).value, Sextet(s[2]).value, Sextet(s[3]).value;
    BitsOfLetters(s, 4, d0, d1, d2, d3);
    PackOfBits(d0, d1, d2, d3);
    DigitsOfBits(d0, d1, d2, d3);
    LettersOf(Bits4(d0, d1, d2, d3));
  }

  lemma {:induction false} EncodeShort(s: Bytes)
    requires |s| == 4 && (Letters(s, 0) == 2 || Letters(s, 0) == 3)
    ensures var n := Letters(s, 0);
            && IsLetter(s[n - 1])
            && EncodeTail(ShortBytes(Shift(Bits(s, n), 0), 4 - n))
               == if n == 3 then s[..2] + [CutTo(s[2], 0x3C), PAD] else s[..1] + [CutTo(s[1], 0x30), PAD, PAD]
  {
    hide Letter, Sextet, IsLetter, Shift, Pack, Digit0, Digit1, Digit2, Letter0, Letter1, Letter2, Byte8, Byte10;
    hide Byte16, Bits4;
    var n := Letters(s, 0);
    ReadsOf(s, 0);
    ReadsOf(s, 1);
    var d0, d1 := Sextet(s[0]).value, Sextet(s[1]).value;
    if n == 3 {
      ReadsOf(s, 2);
      var d2 := Sextet(s[2]).value;
      BitsOfLetters(s, 3, d0, d1, d2, 0);
      DigitsOfShort(d0, d1, d2);
      LettersOf(Pack(Byte16(Bits4(d0, d1, d2, 0)), Byte8(Bits4(d0, d1, d2, 0)), 0));
    } else {
      BitsOfLetters(s, 2, d0, d1, 0, 0);
      DigitsOfShorter(d0, d1);
      LettersOf(Pack(Byte10(Shift(Shift(Shift(0, d0), d1), 0)), 0, 0));
    }
  }

  lemma {:induction false} NormalisedBehind(s: Bytes)
    requires 4 <= |s| && |s| % 4 == 0 && Letters(s, 0) == 4 && Acceptable(s) && Acceptable(s[4..])
    ensures Normalised(s) == s[..4] + Normalised(s[4..])
  {
    hide CutTo, PadIndex, IsLetter, Letters;
    var rest := s[4..];
    LettersAreNoPad(s, 4);
    PadIndexBehind(s, 4);
    var p := PadIndex(rest);
    assert s == s[..4] + rest;
    if p < |rest| {
      SliceBehind(s, p - 1);
    }
  }

  lemma {:induction false} SliceBehind(s: Bytes, k: nat)
    requires k + 4 < |s|
    ensures s[..k + 4] == s[..4] + s[4..][..k] && s[k + 4] == s[4..][k]
  {
  }

  /** Encoding again what was decoded gives the normal form of the string. */
  lemma {:induction false} Normalisation(s: Bytes)
    requires Acceptable(s)
    ensures Decode(s).Ok? && Encode(Decode(s).bytes) == Normalised(s)
    decreases |s|
  {
    hide IsLetter, Shift, Byte0, Byte8, Byte10, Byte16, Bits, EncodeTriple, EncodeTail, CutTo;
    Acceptance(s);
    if s == [] {
      EncodeLast([]);
      TailLength([]);
    } else if Letters(s, 0) == 4 {
      AcceptableBehind(s);
      Normalisation(s[4..]);
      NormalisedBehind(s);
      EncodeWhole(s);
      var t, rest := Bits(s, 4), Decode(s[4..]).bytes;
      var bytes := [Byte16(t), Byte8(t), Byte0(t)] + rest;
      assert bytes[3..] == rest;
    } else {
      NormalisationShort(s);
    }
  }

  lemma {:induction false} NormalisationShort(s: Bytes)
    requires Acceptable(s) && s != [] && Letters(s, 0) < 4
    ensures Decode(s).Ok? && Encode(Decode(s).bytes) == Normalised(s)
  {
    hide IsLetter, Shift, Byte0, Byte8, Byte10, Byte16, Bits, EncodeTriple, EncodeTail, CutTo;
    var n := Letters(s, 0);
    AcceptableStops(s);
    LettersAreNoPad(s, n);
    PadIndexBehind(s, n);
    EncodeShort(s);
    var bytes := ShortBytes(Shift(Bits(s, n), 0), 4 - n);
    assert Decode(s) == Ok(bytes);
    EncodeLast(bytes);
  }

  /** The encodings are exactly the acceptable strings in normal form. */
  lemma {:induction false} EncodingsAreNormal(s: Bytes)
    ensures (exists x :: Encode(x) == s) <==> Acceptable(s) && Normalised(s) == s
  {
    if x :| Encode(x) == s {
      RoundTrip(x);
      Acceptance(s);
      Normalisation(s);
    }
    if Acceptable(s) && Normalised(s) == s {
      Normalisation(s);
      assert Encode(Decode(s).bytes) == s;
    }
  }

  // ----- the alphabet, and the test vectors of RFC 4648, section 10

  /** A to Z, a to z, 0 to 9, plus and slash, by their codes. */
  lemma {:induction false} AlphabetByCode(v: bv32)
    requires v < 64
    ensures var code, n := Letter(v) as int, v as int;
            && (n < 26 ==> code == 65 + n)
            && (26 <= n < 52 ==> code == 97 + (n - 26))
            && (52 <= n < 62 ==> code == 48 + (n - 52))
            && (n == 62 ==> code == 43) && (n == 63 ==> code == 47)
  {
  }

  lemma {:induction false} LetterByCode(c: bv8)
    ensures var code := c as int;
            IsLetter(c) <==> 65 <= code <= 90 || 97 <= code <= 122 || 48 <= code <= 57 || code == 43 || code == 47
  {
  }

  lemma {:induction false} TestTriples()
    ensures EncodeTriple(0x66, 0x6F, 0x6F) == [0x5A, 0x6D, 0x39, 0x76]
    ensures EncodeTriple(0x62, 0x61, 0x72) == [0x59, 0x6D, 0x46, 0x79]
  {
  }

  lemma {:induction false} TestTails()
    ensures EncodeTail([]) == []
    ensures EncodeTail([0x66]) == [0x5A, 0x67, 0x3D, 0x3D] && EncodeTail([0x66, 0x6F]) == [0x5A, 0x6D, 0x38, 0x3D]
    ensures EncodeTail([0x62]) == [0x59, 0x67, 0x3D, 0x3D] && EncodeTail([0x62, 0x61]) == [0x59, 0x6D, 0x45, 0x3D]
  {
  }

  lemma {:induction false} EncodeFirst(a: bv8, b: bv8, c: bv8, rest: Bytes)
    ensures Encode([a, b, c] + rest) == EncodeTriple(a, b, c) + Encode(rest)
  {
    hide EncodeTriple, EncodeTail;
    assert ([a, b, c] + rest)[3..] == rest;
  }

  /** All seven of them: the encodings of the first letters of "foobar". */
  lemma {:induction false} TestVectors()
    ensures Encode([]) == []  // nothing
    ensures Encode([0x66]) == [0x5A, 0x67, 0x3D, 0x3D]  // Zg==
    ensures Encode([0x66, 0x6F]) == [0x5A, 0x6D, 0x38, 0x3D]  // Zm8=
    ensures Encode([0x66, 0x6F, 0x6F]) == [0x5A, 0x6D, 0x39, 0x76]  // Zm9v
    ensures Encode([0x66, 0x6F, 0x6F, 0x62]) == [0x5A, 0x6D, 0x39, 0x76, 0x59, 0x67, 0x3D, 0x3D]  // Zm9vYg==
    ensures Encode([0x66, 0x6F, 0x6F, 0x62, 0x61]) == [0x5A, 0x6D, 0x39, 0x76, 0x59, 0x6D, 0x45, 0x3D]  // Zm9vYmE=
    ensures Encode([0x66, 0x6F, 0x6F, 0x62, 0x61, 0x72])
            == [0x5A, 0x6D, 0x39, 0x76, 0x59, 0x6D, 0x46, 0x79]  // Zm9vYmFy
  {
    hide Encode, EncodeTriple, EncodeTail;
    TestTriples();
    TestTails();
    forall tail: Bytes | |tail| < 3
      ensures Encode(tail) == EncodeTail(tail)
    {
      EncodeLast(tail);
    }
    var foo: Bytes, bar: Bytes := [0x66, 0x6F, 0x6F], [0x62, 0x61, 0x72];
    EncodeFirst(0x66, 0x6F, 0x6F, []);
    EncodeFirst(0x66, 0x6F, 0x6F, [0x62]);
    EncodeFirst(0x66, 0x6F, 0x6F, [0x62, 0x61]);
    EncodeFirst(0x66, 0x6F, 0x6F, bar);
    EncodeFirst(0x62, 0x61, 0x72, []);
    assert foo + [] == foo && bar + [] == bar;
    assert foo + [0x62] == [0x66, 0x6F, 0x6F, 0x62] && foo + [0x62, 0x61] == [0x66, 0x6F, 0x6F, 0x62, 0x61];
    assert foo + bar == [0x66, 0x6F, 0x6F, 0x62, 0x61, 0x72];
  }
}
