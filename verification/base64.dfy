/** The base64 encoding of RFC 4648, sections 4 and 5, on byte strings. */
module Base64 {
  import opened Options

  type Bytes = seq<bv8>

  datatype Error = InvalidLength | InvalidPadding | InvalidCharacter

  datatype Result = Ok(bytes: Bytes) | Err(error: Error)

  const PAD: bv8 := 0x3D

  /** The alphabet: A-Z, a-z, 0-9, plus and slash, at the positions 0 to 63. */
  function Letter(sextet: bv32): bv8
    requires sextet < 64
  {
    var i := sextet as bv8;
    if i < 26 then 0x41 + i
    else if i < 52 then 0x47 + i
    else if i < 62 then i - 4
    else if i == 62 then 0x2B
    else 0x2F
  }

  /** The position of a letter of the alphabet, by the ranges of the character codes. */
  function Sextet(c: bv8): Option<bv32> {
    if 0x41 <= c <= 0x5A then Some((c - 0x41) as bv32)
    else if 0x61 <= c <= 0x7A then Some((c - 0x47) as bv32)
    else if 0x30 <= c <= 0x39 then Some((c + 0x04) as bv32)
    else if c == 0x2B then Some(0x3E)
    else if c == 0x2F then Some(0x3F)
    else None
  }

  predicate IsLetter(c: bv8) {
    Sextet(c).Some?
  }

  // ----- encoding

  function Pack(a: bv8, b: bv8, c: bv8): bv32 {
    ((a as bv32) << 16) + ((b as bv32) << 8) + c as bv32
  }

  function Letter0(temp: bv32): bv8 { Letter((temp & 0x00FC0000) >> 18) }
  function Letter1(temp: bv32): bv8 { Letter((temp & 0x0003F000) >> 12) }
  function Letter2(temp: bv32): bv8 { Letter((temp & 0x00000FC0) >> 6) }
  function Letter3(temp: bv32): bv8 { Letter(temp & 0x0000003F) }

  function EncodeTriple(a: bv8, b: bv8, c: bv8): Bytes {
    var t := Pack(a, b, c);
    [Letter0(t), Letter1(t), Letter2(t), Letter3(t)]
  }

  function EncodeTail(x: Bytes): Bytes
    requires |x| < 3
  {
    if |x| == 0 then []
    else if |x| == 1 then [Letter0(Pack(x[0], 0, 0)), Letter1(Pack(x[0], 0, 0)), PAD, PAD]
    else [Letter0(Pack(x[0], x[1], 0)), Letter1(Pack(x[0], x[1], 0)), Letter2(Pack(x[0], x[1], 0)), PAD]
  }

  function Encode(x: Bytes): Bytes {
    if |x| < 3 then EncodeTail(x) else EncodeTriple(x[0], x[1], x[2]) + Encode(x[3..])
  }

  lemma {:induction false} EncodeNext(done: Bytes, input: Bytes, it: nat)
    requires it + 3 <= |input|
    ensures done + Encode(input[it..])
            == done + EncodeTriple(input[it], input[it + 1], input[it + 2]) + Encode(input[it + 3..])
  {
    assert input[it..][3..] == input[it + 3..];
  }

  lemma {:induction false} PackIs(a: bv8, b: bv8, c: bv8)
    ensures Pack(a, b, c) == ((a as bv32) << 16) + ((b as bv32) << 8) + c as bv32
    ensures Pack(a, 0, 0) == (a as bv32) << 16
    ensures Pack(a, b, 0) == ((a as bv32) << 16) + ((b as bv32) << 8)
  {
  }

  lemma {:induction false} OneByOne(done: Bytes, a: bv8, b: bv8, c: bv8, d: bv8)
    ensures done + [a] + [b] + [c] + [d] == done + [a, b, c, d]
    ensures done + [a] + [b] + [c, d] == done + [a, b, c, d]
  {
  }

  /** The loop over whole triples and the switch on what remains, with one accumulator for all of them. */
  method Base64Encode(input: Bytes) returns (encoded: Bytes)
    ensures encoded == Encode(input)
  {
    hide Letter0, Letter1, Letter2, Letter3, Encode, Pack;
    encoded := [];
    var temp: bv32 := 0;
    var it := 0;
    assert input[0..] == input;
    for i := 0 to |input| / 3
      invariant it == 3 * i
      invariant Encode(input) == encoded + Encode(input[it..])
    {
      EncodeNext(encoded, input, it);
      PackIs(input[it], input[it + 1], input[it + 2]);
      temp := (input[it] as bv32) << 16;
      temp := temp + ((input[it + 1] as bv32) << 8);
      temp := temp + input[it + 2] as bv32;
      it := it + 3;
      OneByOne(encoded, Letter0(temp), Letter1(temp), Letter2(temp), Letter3(temp));
      encoded := encoded + [Letter0(temp)];
      encoded := encoded + [Letter1(temp)];
      encoded := encoded + [Letter2(temp)];
      encoded := encoded + [Letter3(temp)];
    }
    EncodeLast(input[it..]);
    if |input| % 3 == 1 {
      PackIs(input[it], 0, 0);
      temp := (input[it] as bv32) << 16;
      OneByOne(encoded, Letter0(temp), Letter1(temp), PAD, PAD);
      encoded := encoded + [Letter0(temp)];
      encoded := encoded + [Letter1(temp)];
      encoded := encoded + [PAD, PAD];
    } else if |input| % 3 == 2 {
      PackIs(input[it], input[it + 1], 0);
      temp := (input[it] as bv32) << 16;
      temp := temp + ((input[it + 1] as bv32) << 8);
      OneByOne(encoded, Letter0(temp), Letter1(temp), Letter2(temp), PAD);
      encoded := encoded + [Letter0(temp)];
      encoded := encoded + [Letter1(temp)];
      encoded := encoded + [Letter2(temp)];
      encoded := encoded + [PAD];
    }
  }

  lemma {:induction false} EncodeLast(tail: Bytes)
    requires |tail| < 3
    ensures Encode(tail) == EncodeTail(tail)
  {
  }

  // ----- decoding

  /** Append six bits, as the decoder's accumulator does. */
  function Shift(temp: bv32, sextet: bv32): bv32 {
    (temp << 6) | sextet
  }

  function Byte0(temp: bv32): bv8 { (temp & 0x000000FF) as bv8 }
  function Byte8(temp: bv32): bv8 { ((temp >> 8) & 0x000000FF) as bv8 }
  function Byte10(temp: bv32): bv8 { ((temp >> 10) & 0x000000FF) as bv8 }
  function Byte16(temp: bv32): bv8 { ((temp >> 16) & 0x000000FF) as bv8 }

  /** What a character that is no letter makes of a string with so many characters left. */
  function Stop(c: bv8, left: nat, decoded: Bytes): Result {
    if c != PAD then Err(InvalidCharacter)
    else if left == 1 || left == 2 then Ok(decoded)
    else Err(InvalidPadding)
  }

  /** The bits of the first i letters of a quantum, starting from nothing. */
  function Bits(s: Bytes, i: nat): bv32
    requires i <= |s| && forall j :: 0 <= j < i ==> IsLetter(s[j])
  {
    if i == 0 then 0 else assert IsLetter(s[i - 1]); Shift(Bits(s, i - 1), Sextet(s[i - 1]).value)
  }

  /** The number of letters a string starts with, up to a whole quantum. */
  function Letters(s: Bytes, i: nat): (n: nat)
    requires i <= 4 <= |s|
    ensures i <= n <= 4
    ensures forall j :: i <= j < n ==> IsLetter(s[j])
    ensures n < 4 ==> !IsLetter(s[n])
    decreases 4 - i
  {
    if i < 4 && IsLetter(s[i]) then Letters(s, i + 1) else i
  }

  /** Quantum by quantum, each on its own. */
  function DecodeQuanta(s: Bytes): Result
    requires |s| % 4 == 0
  {
    if s == [] then Ok([])
    else
      var n := Letters(s, 0);
      if n == 4 then
        var t := Bits(s, 4);
        match DecodeQuanta(s[4..])
        case Err(e) => Err(e)
        case Ok(rest) => Ok([Byte16(t), Byte8(t), Byte0(t)] + rest)
      else
        Stop(s[n], |s| - n, ShortBytes(Shift(Bits(s, n), 0), |s| - n))
  }

  /** The bytes of an unfinished quantum, by the number of characters left. */
  function ShortBytes(temp: bv32, left: nat): Bytes {
    if left == 1 then [Byte16(temp), Byte8(temp)]
    else if left == 2 then [Byte10(temp)]
    else []
  }

  function Decode(s: Bytes): Result {
    if |s| % 4 != 0 then Err(InvalidLength) else DecodeQuanta(s)
  }

  // ----- the decoder's loop

  /** The bits that hold the letters read since the quantum began. */
  function Mask(i: nat): bv32 {
    if i == 0 then 0 else if i == 1 then 0x3F else if i == 2 then 0xFFF else if i == 3 then 0x3FFFF else 0xFFFFFF
  }

  /** The low bits of the accumulator are those of i letters; the others are left over from earlier quanta. */
  ghost predicate Holds(temp: bv32, i: nat, bits: bv32) {
    temp & Mask(i) == bits
  }

  /** Shifting in six bits keeps what the low bits held, one place higher, whatever the others are. */
  lemma {:induction false} ShiftLow(temp: bv32, bits: bv32, i: nat, d: bv32)
    requires i < 4 && Holds(temp, i, bits) && d < 64
    ensures Holds(Shift(temp, d), i + 1, Shift(bits, d))
  {
    if i == 0 {
    } else if i == 1 {
    } else if i == 2 {
    } else {
    }
  }

  lemma {:induction false} WholeLow(temp: bv32, bits: bv32)
    requires Holds(temp, 4, bits)
    ensures Byte16(temp) == Byte16(bits) && Byte8(temp) == Byte8(bits) && Byte0(temp) == Byte0(bits)
  {
  }

  lemma {:induction false} TwoLettersLow(temp: bv32, bits: bv32)
    requires Holds(temp, 3, bits)
    ensures Byte10(temp) == Byte10(bits)
  {
  }

  lemma {:induction false} ShortLow(temp: bv32, bits: bv32, i: nat)
    requires (i == 2 || i == 3) && Holds(temp, i + 1, bits)
    ensures ShortBytes(bits, 4 - i) == if i == 3 then [Byte16(temp), Byte8(temp)] else [Byte10(temp)]
  {
    hide Holds, Byte16, Byte8, Byte10, Byte0;
    if i == 3 {
      WholeLow(temp, bits);
    } else {
      TwoLettersLow(temp, bits);
    }
  }

  lemma {:induction false} LettersFrom(s: Bytes, i: nat)
    requires i <= 4 <= |s| && forall j :: 0 <= j < i ==> IsLetter(s[j])
    ensures i == 4 ==> Letters(s, 0) == 4
    ensures i < 4 && !IsLetter(s[i]) ==> Letters(s, 0) == i
  {
    LettersFromStart(s, i);
  }

  lemma {:induction false} LettersFromStart(s: Bytes, i: nat)
    requires i <= 4 <= |s| && forall j :: 0 <= j < i ==> IsLetter(s[j])
    ensures Letters(s, 0) == Letters(s, i)
    decreases i
  {
    if 0 < i { LettersFromStart(s, i - 1); }
  }

  /** One round of the inner loop: the accumulator before and after it, against the bits of the quantum. */
  lemma {:induction false} ReadLetter(temp: bv32, s: Bytes, i: nat)
    requires i < 4 <= |s| && (forall j :: 0 <= j < i ==> IsLetter(s[j])) && Holds(temp, i, Bits(s, i))
    ensures IsLetter(s[i]) <==> Sextet(s[i]).Some?
    ensures IsLetter(s[i]) ==> Holds(Shift(temp, Sextet(s[i]).value), i + 1, Bits(s, i + 1))
    ensures Holds(Shift(temp, 0), i + 1, Shift(Bits(s, i), 0))
  {
    hide Holds, IsLetter, Sextet, Shift;
    IsLetterIs(s[i]);
    ShiftLow(temp, Bits(s, i), i, 0);
    if IsLetter(s[i]) {
      ShiftLow(temp, Bits(s, i), i, Sextet(s[i]).value);
    }
  }

  lemma {:induction false} QuantumStarts(temp: bv32, s: Bytes)
    ensures Holds(temp, 0, Bits(s, 0))
  {
  }

  function Prepend(done: Bytes, r: Result): Result {
    match r
    case Err(e) => Err(e)
    case Ok(rest) => Ok(done + rest)
  }

  lemma {:induction false} DropFour(s: Bytes)
    requires |s| % 4 == 0 && s != []
    ensures 4 <= |s| && |s[4..]| % 4 == 0
  {
  }

  lemma {:induction false} DecodeNext(done: Bytes, s: Bytes)
    requires |s| % 4 == 0 && 4 <= |s| && |s[4..]| % 4 == 0 && Letters(s, 0) == 4
    ensures var t := Bits(s, 4);
            Prepend(done, DecodeQuanta(s))
            == Prepend(done + [Byte16(t)] + [Byte8(t)] + [Byte0(t)], DecodeQuanta(s[4..]))
  {
    hide Bits, Byte16, Byte8, Byte0, Letters, ShortBytes, Shift, DecodeQuanta;
    var t, rest := Bits(s, 4), DecodeQuanta(s[4..]);
    FullQuantum(s);
    if rest.Ok? {
      AppendThree(done, Byte16(t), Byte8(t), Byte0(t), rest.bytes);
    }
  }

  lemma {:induction false} FullQuantum(s: Bytes)
    requires |s| % 4 == 0 && 4 <= |s| && |s[4..]| % 4 == 0 && Letters(s, 0) == 4
    ensures var t := Bits(s, 4);
            DecodeQuanta(s) == Prepend([Byte16(t), Byte8(t), Byte0(t)], DecodeQuanta(s[4..]))
  {
    hide Bits, Byte16, Byte8, Byte0, Letters, ShortBytes, Shift, Stop;
  }

  lemma {:induction false} AppendThree<T>(done: seq<T>, a: T, b: T, c: T, rest: seq<T>)
    ensures done + ([a, b, c] + rest) == done + [a] + [b] + [c] + rest
  {
  }

  lemma {:induction false} IsLetterIs(c: bv8)
    ensures IsLetter(c) <==> Sextet(c).Some?
    ensures IsLetter(c) ==> Sextet(c).value < 64
  {
  }

  lemma {:induction false} ShiftIs(temp: bv32)
    ensures Shift(temp, 0) == temp << 6
    ensures forall d :: Shift(temp, d) == (temp << 6) | d
  {
  }

  lemma {:induction false} DecodeStop(done: Bytes, s: Bytes)
    requires |s| % 4 == 0 && s != [] && Letters(s, 0) < 4
    ensures var n := Letters(s, 0);
            Prepend(done, DecodeQuanta(s))
            == if s[n] != PAD then Err(InvalidCharacter)
               else if |s| - n == 1 || |s| - n == 2 then Ok(done + ShortBytes(Shift(Bits(s, n), 0), |s| - n))
               else Err(InvalidPadding)
  {
  }

  lemma {:induction false} DecodeEnds(done: Bytes, r: Result)
    ensures DecodeQuanta([]) == Ok([])
    ensures Prepend([], r) == r && Prepend(done, Ok([])) == Ok(done)
  {
  }

  /**
    The nested loops of the source. The accumulator is never cleared, so bits of earlier
    quanta stay in it; they never reach the output.
   */
  method Base64Decode(input: Bytes) returns (r: Result)
    ensures r == Decode(input)
  {
    hide DecodeQuanta, Sextet, IsLetter, Shift, Byte0, Byte8, Byte10, Byte16, Prepend, Letters, Bits, Holds, ShortBytes;
    if |input| % 4 != 0 {
      return Err(InvalidLength);
    }
    var decoded: Bytes := [];
    var temp: bv32 := 0;
    var it := 0;
    assert input[0..] == input;
    DecodeEnds([], DecodeQuanta(input));
    while it < |input|
      invariant it <= |input| && it % 4 == 0
      invariant DecodeQuanta(input) == Prepend(decoded, DecodeQuanta(input[it..]))
    {
      ghost var begin, s := it, input[it..];
      QuantumStarts(temp, s);
      for i := 0 to 4
        invariant it == begin + i
        invariant forall j :: 0 <= j < i ==> IsLetter(s[j])
        invariant Holds(temp, i, Bits(s, i))
      {
        assert input[it] == s[i];
        ReadLetter(temp, s, i);
        ShiftIs(temp);
        LettersFrom(s, i);
        temp := temp << 6;
        var digit := Sextet(input[it]);
        if digit.Some? {
          temp := temp | digit.value;
        } else if input[it] == PAD {
          DecodeStop(decoded, s);
          if |input| - it == 1 {
            ShortLow(temp, Shift(Bits(s, i), 0), i);
            return Ok(decoded + [Byte16(temp), Byte8(temp)]);
          } else if |input| - it == 2 {
            ShortLow(temp, Shift(Bits(s, i), 0), i);
            return Ok(decoded + [Byte10(temp)]);
          } else {
            return Err(InvalidPadding);
          }
        } else {
          DecodeStop(decoded, s);
          return Err(InvalidCharacter);
        }
        it := it + 1;
      }
      LettersFrom(s, 4);
      DropFour(s);
      DecodeNext(decoded, s);
      assert s[4..] == input[it..];
      WholeLow(temp, Bits(s, 4));
      decoded := decoded + [Byte16(temp)];
      decoded := decoded + [Byte8(temp)];
      decoded := decoded + [Byte0(temp)];
    }
    DecodeEnds(decoded, Ok([]));
    return Ok(decoded);
  }
}
