/** Padded base64 over the URL- and filename-safe alphabet of section 5 of
    RFC 4648 (Go's `base64.URLEncoding`): every three input bytes become four
    characters, and a final group of one or two bytes is completed with `=`. */
module Base64Url {
  import opened Wrappers
  import Utf8

  /** The character for the 6-bit value `i`, as listed in Table 2 of
      RFC 4648 with `-` for 62 and `_` for 63. */
  function Digit(i: int): char
    requires 0 <= i < 64
  {
    if i < 26 then ('A' as int + i) as char
    else if i < 52 then ('a' as int + (i - 26)) as char
    else if i < 62 then ('0' as int + (i - 52)) as char
    else if i == 62 then '-'
    else '_'
  }

  const Pad: char := '='

  /** The 64 characters of the URL- and filename-safe alphabet. */
  predicate IsDigit(c: char) {
    'A' <= c <= 'Z' || 'a' <= c <= 'z' || '0' <= c <= '9' || c == '-' || c == '_'
  }

  /** The 6-bit value of an alphabet character, `None` for any other. */
  function DigitValue(c: char): (r: Option<int>)
    ensures r.Some? ==> 0 <= r.value < 64
  {
    if 'A' <= c <= 'Z' then Some(c as int - 'A' as int)
    else if 'a' <= c <= 'z' then Some(c as int - 'a' as int + 26)
    else if '0' <= c <= '9' then Some(c as int - '0' as int + 52)
    else if c == '-' then Some(62)
    else if c == '_' then Some(63)
    else None
  }

  /** The four characters of a full group of three bytes. */
  function Quantum(b0: Utf8.byte, b1: Utf8.byte, b2: Utf8.byte): seq<char> {
    [Digit(b0 / 4), Digit((b0 % 4) * 16 + b1 / 16), Digit((b1 % 16) * 4 + b2 / 64), Digit(b2 % 64)]
  }

  /** The four characters of a final group of one or two bytes: the missing
      bits are zero and the missing characters are padding. */
  function FinalQuantum(b: seq<Utf8.byte>): seq<char>
    requires |b| == 1 || |b| == 2
  {
    if |b| == 1 then [Digit(b[0] / 4), Digit((b[0] % 4) * 16), Pad, Pad]
    else [Digit(b[0] / 4), Digit((b[0] % 4) * 16 + b[1] / 16), Digit((b[1] % 16) * 4), Pad]
  }

  /** `base64.URLEncoding.EncodeToString(b)`: 4 * ceil(n / 3) characters
      for `n` bytes, since padding always completes the last group. */
  function Encode(b: seq<Utf8.byte>): (r: string)
    ensures |r| == 4 * ((|b| + 2) / 3)
    decreases |b|
  {
    if |b| == 0 then []
    else if |b| < 3 then FinalQuantum(b)
    else
      assert (|b| + 2) / 3 == (|b| - 3 + 2) / 3 + 1;
      Quantum(b[0], b[1], b[2]) + Encode(b[3..])
  }

  /** The bytes of one group of four characters. Padding is accepted only in
      the final group, and the bits it leaves over must be zero, so that every
      byte string has exactly one encoding. */
  function DecodeQuantum(c0: char, c1: char, c2: char, c3: char, last: bool): Option<seq<Utf8.byte>> {
    var d0, d1, d2, d3 := DigitValue(c0), DigitValue(c1), DigitValue(c2), DigitValue(c3);
    if d0.None? || d1.None? then None
    else
      var v0, v1 := d0.value, d1.value;
      if d2.Some? && d3.Some? then
        Some([v0 * 4 + v1 / 16, (v1 % 16) * 16 + d2.value / 4, (d2.value % 4) * 64 + d3.value])
      else if d2.Some? && c3 == Pad && last && d2.value % 4 == 0 then
        Some([v0 * 4 + v1 / 16, (v1 % 16) * 16 + d2.value / 4])
      else if c2 == Pad && c3 == Pad && last && v1 % 16 == 0 then
        Some([v0 * 4 + v1 / 16])
      else None
  }

  /** The inverse of `Encode`: `None` for a string that is not the padded
      encoding of any byte string. */
  function Decode(s: string): Option<seq<Utf8.byte>>
    decreases |s|
  {
    if |s| == 0 then Some([])
    else if |s| < 4 then None
    else
      match DecodeQuantum(s[0], s[1], s[2], s[3], |s| == 4)
      case None => None
      case Some(head) =>
        match Decode(s[4..])
        case None => None
        case Some(tail) => Some(head + tail)
  }

  /** Every character of an encoding is from the URL-safe alphabet or is
      padding; in particular the standard alphabet's `+` and `/` never
      occur. */
  lemma {:induction false} EncodeIsUrlSafe(b: seq<Utf8.byte>)
    ensures forall c :: c in Encode(b) ==> IsDigit(c) || c == Pad
    ensures '+' !in Encode(b) && '/' !in Encode(b)
    decreases |b|
  {
    if |b| >= 3 {
      EncodeIsUrlSafe(b[3..]);
      assert Encode(b) == Quantum(b[0], b[1], b[2]) + Encode(b[3..]);
    }
  }

  /** Decoding what `Encode` produced gives back the original bytes. */
  lemma {:induction false} DecodeEncode(b: seq<Utf8.byte>)
    ensures Decode(Encode(b)) == Some(b)
    decreases |b|
  {
    if |b| == 1 || |b| == 2 {
      DecodeEncodeFinal(b);
    } else if |b| >= 3 {
      DecodeEncode(b[3..]);
      EncodeFullGroup(b);
      DecodeFullGroup(b, Encode(b[3..]));
    }
  }

  /** Encoding is injective: distinct byte strings have distinct encodings. */
  lemma EncodeInjective(a: seq<Utf8.byte>, b: seq<Utf8.byte>)
    requires Encode(a) == Encode(b)
    ensures a == b
  {
    DecodeEncode(a);
    DecodeEncode(b);
  }

  lemma EncodeFullGroup(b: seq<Utf8.byte>)
    requires |b| >= 3
    ensures Encode(b) == Quantum(b[0], b[1], b[2]) + Encode(b[3..])
  {
  }

  lemma DecodeEncodeFinal(b: seq<Utf8.byte>)
    requires |b| == 1 || |b| == 2
    ensures Decode(Encode(b)) == Some(b)
  {
    var q := FinalQuantum(b);
    assert Encode(b) == q;
    if |b| == 1 {
      DecodeFinalSingle(b[0]);
      assert [b[0]] == b;
    } else {
      DecodeFinalPair(b[0], b[1]);
      assert [b[0], b[1]] == b;
    }
    DecodeLastGroup(q);
  }

  /** A single group is decoded as the final one. */
  lemma DecodeLastGroup(q: string)
    requires |q| == 4 && DecodeQuantum(q[0], q[1], q[2], q[3], true).Some?
    ensures Decode(q) == DecodeQuantum(q[0], q[1], q[2], q[3], true)
  {
    var h := DecodeQuantum(q[0], q[1], q[2], q[3], true).value;
    assert q[4..] == [];
    assert h + [] == h;
  }

  /** A full group followed by the encoding of the remaining bytes decodes
      to all the bytes. */
  lemma DecodeFullGroup(b: seq<Utf8.byte>, rest: string)
    requires |b| >= 3 && Decode(rest) == Some(b[3..])
    ensures Decode(Quantum(b[0], b[1], b[2]) + rest) == Some(b)
  {
    DecodeQuantumFull(b[0], b[1], b[2], |rest| == 0);
    DecodeGroups(Quantum(b[0], b[1], b[2]), rest);
    assert [b[0], b[1], b[2]] + b[3..] == b;
  }

  /** Decoding a string of groups decodes its first group and then the rest. */
  lemma DecodeGroups(q: string, rest: string)
    requires |q| == 4
    requires DecodeQuantum(q[0], q[1], q[2], q[3], |rest| == 0).Some? && Decode(rest).Some?
    ensures Decode(q + rest) == Some(DecodeQuantum(q[0], q[1], q[2], q[3], |rest| == 0).value + Decode(rest).value)
  {
    assert (q + rest)[4..] == rest;
  }

  lemma DigitValueDigit(i: int)
    requires 0 <= i < 64
    ensures DigitValue(Digit(i)) == Some(i)
  {
  }

  lemma DecodeQuantumFull(b0: Utf8.byte, b1: Utf8.byte, b2: Utf8.byte, last: bool)
    ensures var q := Quantum(b0, b1, b2); DecodeQuantum(q[0], q[1], q[2], q[3], last) == Some([b0, b1, b2])
  {
    DigitValueDigit(b0 / 4);
    DigitValueDigit((b0 % 4) * 16 + b1 / 16);
    DigitValueDigit((b1 % 16) * 4 + b2 / 64);
    DigitValueDigit(b2 % 64);
    QuantumBits(b0, b1, b2);
  }

  lemma DecodeFinalPair(b0: Utf8.byte, b1: Utf8.byte)
    ensures var q := FinalQuantum([b0, b1]); DecodeQuantum(q[0], q[1], q[2], q[3], true) == Some([b0, b1])
  {
    DigitValueDigit(b0 / 4);
    DigitValueDigit((b0 % 4) * 16 + b1 / 16);
    DigitValueDigit((b1 % 16) * 4);
    QuantumBits(b0, b1, 0);
  }

  lemma DecodeFinalSingle(b0: Utf8.byte)
    ensures var q := FinalQuantum([b0]); DecodeQuantum(q[0], q[1], q[2], q[3], true) == Some([b0])
  {
    DigitValueDigit(b0 / 4);
    DigitValueDigit((b0 % 4) * 16);
    QuantumBits(b0, 0, 0);
  }

  /** The six-bit groups of three bytes put back together. */
  lemma QuantumBits(b0: Utf8.byte, b1: Utf8.byte, b2: Utf8.byte)
    ensures (b0 / 4) * 4 + ((b0 % 4) * 16 + b1 / 16) / 16 == b0
    ensures (((b0 % 4) * 16 + b1 / 16) % 16) * 16 + ((b1 % 16) * 4 + b2 / 64) / 4 == b1
    ensures (((b1 % 16) * 4 + b2 / 64) % 4) * 64 + b2 % 64 == b2
    ensures ((b0 % 4) * 16) % 16 == 0 && ((b1 % 16) * 4) % 4 == 0
  {
  }
}
