/** UTF-8, the byte form Go gives a string in the conversion `[]byte(s)`.
    A Dafny `string` is a sequence of Unicode scalar values, so every string
    here is well-formed UTF-8 once converted. */
module Utf8 {

  /** An octet. */
  type byte = x: int | 0 <= x < 256

  predicate IsAscii(s: string) {
    forall i :: 0 <= i < |s| ==> s[i] as int < 0x80
  }

  /** The one to four bytes that encode a single scalar value. */
  function EncodeScalar(c: char): (r: seq<byte>)
    ensures 1 <= |r| <= 4
    ensures |r| == LeadLength(r[0])
    ensures c as int < 0x80 ==> r == [c as int]
  {
    var v := c as int;
    if v < 0x80 then [v]
    else if v < 0x800 then [0xC0 + v / 0x40, 0x80 + v % 0x40]
    else if v < 0x1_0000 then [0xE0 + v / 0x1000, 0x80 + (v / 0x40) % 0x40, 0x80 + v % 0x40]
    else [0xF0 + v / 0x4_0000, 0x80 + (v / 0x1000) % 0x40, 0x80 + (v / 0x40) % 0x40, 0x80 + v % 0x40]
  }

  /** How many bytes a sequence starting with lead byte `b` takes. */
  function LeadLength(b: byte): nat {
    if b < 0x80 then 1 else if b < 0xE0 then 2 else if b < 0xF0 then 3 else 4
  }

  /** `[]byte(s)`: the concatenated encodings of the scalars of `s`. */
  function Encode(s: string): (r: seq<byte>)
    ensures |s| <= |r| <= 4 * |s|
    ensures IsAscii(s) ==> |r| == |s| && forall i :: 0 <= i < |s| ==> r[i] == s[i] as int
    decreases |s|
  {
    if |s| == 0 then [] else EncodeScalar(s[0]) + Encode(s[1..])
  }

  /** The scalar value spelled by a well-formed one- to four-byte sequence. */
  function Reassemble(r: seq<byte>): int
    requires 1 <= |r| <= 4
  {
    if |r| == 1 then r[0] as int
    else if |r| == 2 then (r[0] as int - 0xC0) * 0x40 + (r[1] as int - 0x80)
    else if |r| == 3 then ((r[0] as int - 0xE0) * 0x40 + (r[1] as int - 0x80)) * 0x40 + (r[2] as int - 0x80)
    else (((r[0] as int - 0xF0) * 0x40 + (r[1] as int - 0x80)) * 0x40 + (r[2] as int - 0x80)) * 0x40 + (r[3] as int - 0x80)
  }

  /** Decoding the bytes of a scalar gives back the scalar. */
  lemma ReassembleEncodeScalar(c: char)
    ensures Reassemble(EncodeScalar(c)) == c as int
  {
    var v := c as int;
    var q1 := v / 0x40;
    var q2 := q1 / 0x40;
    var q3 := q2 / 0x40;
    assert v == q1 * 0x40 + v % 0x40;
    assert q1 == q2 * 0x40 + q1 % 0x40;
    assert q2 == q3 * 0x40 + q2 % 0x40;
    assert v / 0x1000 == q2;
    assert v / 0x4_0000 == q3;
  }

  /** Two scalars with the same encoding are the same scalar. */
  lemma EncodeScalarInjective(a: char, b: char)
    requires EncodeScalar(a) == EncodeScalar(b)
    ensures a == b
  {
    ReassembleEncodeScalar(a);
    ReassembleEncodeScalar(b);
  }

  /** Distinct strings have distinct byte forms. */
  lemma {:induction false} EncodeInjective(s: string, t: string)
    requires Encode(s) == Encode(t)
    ensures s == t
    decreases |s|
  {
    if |s| > 0 && |t| > 0 {
      var es, et := EncodeScalar(s[0]), EncodeScalar(t[0]);
      var r := Encode(s);
      assert r[0] == es[0] && r[0] == et[0];
      assert |es| == |et|;
      assert es == r[..|es|] == et;
      EncodeScalarInjective(s[0], t[0]);
      assert Encode(s[1..]) == r[|es|..] == Encode(t[1..]);
      EncodeInjective(s[1..], t[1..]);
      assert s == [s[0]] + s[1..] && t == [t[0]] + t[1..];
    }
  }
}
