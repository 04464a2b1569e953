/** The byte automaton of `isSafeUtf8`, proved equal to the encoding of RFC 3629:
    it accepts exactly the octet sequences that encode some sequence of Unicode
    scalar values. */
module Utf8 {
  import opened Common

  // ---------- Reference: section 3 of RFC 3629 ----------

  /** A code point UTF-8 may encode: not a surrogate, at most U+10FFFF. */
  predicate IsScalar(cp: int) {
    0 <= cp < 0xD800 || 0xE000 <= cp <= 0x10FFFF
  }

  type Scalar = cp: int | 0 <= cp < 0xD800 || 0xE000 <= cp <= 0x10FFFF

  /** The table of section 3: the octets of one scalar value. */
  function Encode(cp: Scalar): (octets: seq<Byte>)
    ensures 1 <= |octets| <= 4
  {
    if cp < 0x80 then
      [cp]
    else if cp < 0x800 then
      [0xC0 + cp / 0x40, 0x80 + cp % 0x40]
    else if cp < 0x1_0000 then
      [0xE0 + cp / 0x1000, 0x80 + cp / 0x40 % 0x40, 0x80 + cp % 0x40]
    else
      [0xF0 + cp / 0x4_0000, 0x80 + cp / 0x1000 % 0x40, 0x80 + cp / 0x40 % 0x40, 0x80 + cp % 0x40]
  }

  function EncodeAll(cps: seq<Scalar>): seq<Byte> {
    if cps == [] then [] else Encode(cps[0]) + EncodeAll(cps[1..])
  }

  ghost predicate IsUtf8(octets: seq<Byte>) {
    exists cps: seq<Scalar> :: EncodeAll(cps) == octets
  }

  // ---------- The grammar the automaton follows: section 4 ----------

  predicate IsTail(b: Byte) {
    0x80 <= b <= 0xBF
  }

  /** How many octets of `s` form its first UTF8-char; 0 when none does. */
  function Lead(s: seq<Byte>): (n: nat)
    requires s != []
    ensures n <= |s|
  {
    var first := s[0];
    if first < 0x80 then
      1
    else if 0xC2 <= first <= 0xDF then
      if 2 <= |s| && IsTail(s[1]) then 2 else 0
    else if 0xE0 <= first <= 0xEF then
      if 3 <= |s| && SecondOf3(first, s[1]) && IsTail(s[2]) then 3 else 0
    else if 0xF0 <= first <= 0xF4 then
      if 4 <= |s| && SecondOf4(first, s[1]) && IsTail(s[2]) && IsTail(s[3]) then 4 else 0
    else
      0
  }

  predicate SecondOf3(first: Byte, second: Byte) {
    if first == 0xE0 then 0xA0 <= second <= 0xBF
    else if first == 0xED then 0x80 <= second <= 0x9F
    else IsTail(second)
  }

  predicate SecondOf4(first: Byte, second: Byte) {
    if first == 0xF0 then 0x90 <= second <= 0xBF
    else if first == 0xF4 then 0x80 <= second <= 0x8F
    else IsTail(second)
  }

  predicate Octets(s: seq<Byte>) {
    s == [] || (Lead(s) != 0 && Octets(s[Lead(s)..]))
  }

  /** Shift in the six payload bits of a tail octet. */
  function Append(high: int, tail: Byte): int {
    var low: int := tail - 0x80;
    high * 0x40 + low
  }

  /** The code point spelled by a UTF8-char. */
  function Decode(s: seq<Byte>): (cp: int)
    requires s != [] && Lead(s) == |s|
  {
    var first: int := s[0];
    if |s| == 1 then first
    else if |s| == 2 then Append(first - 0xC0, s[1])
    else if |s| == 3 then Append(Append(first - 0xE0, s[1]), s[2])
    else Append(Append(Append(first - 0xF0, s[1]), s[2]), s[3])
  }

  lemma AppendSplits(high: int, tail: Byte)
    requires IsTail(tail)
    ensures Append(high, tail) / 0x40 == high && 0x80 + Append(high, tail) % 0x40 == tail
  {
  }

  /** Every UTF8-char of the grammar encodes a scalar value. */
  lemma CharEncodesScalar(s: seq<Byte>)
    requires s != [] && Lead(s) == |s|
    ensures IsScalar(Decode(s)) && Encode(Decode(s)) == s
  {
    var first: int := s[0];
    if |s| == 2 {
      AppendSplits(first - 0xC0, s[1]);
    } else if |s| == 3 {
      var high := Append(first - 0xE0, s[1]);
      AppendSplits(first - 0xE0, s[1]);
      AppendSplits(high, s[2]);
      assert Append(high, s[2]) / 0x1000 == high / 0x40;
    } else if |s| == 4 {
      var high := Append(first - 0xF0, s[1]);
      var mid := Append(high, s[2]);
      AppendSplits(first - 0xF0, s[1]);
      AppendSplits(high, s[2]);
      AppendSplits(mid, s[3]);
      assert Append(mid, s[3]) / 0x1000 == mid / 0x40 == high;
      assert Append(mid, s[3]) / 0x4_0000 == high / 0x40;
    }
  }

  /** Every encoded scalar value is one UTF8-char, whatever follows it. */
  lemma ScalarEncodesChar(cp: Scalar, rest: seq<Byte>)
    ensures Lead(Encode(cp) + rest) == |Encode(cp)|
    ensures Lead(Encode(cp)) == |Encode(cp)|
  {
    var s := Encode(cp) + rest;
    assert forall k | 0 <= k < |Encode(cp)| :: s[k] == Encode(cp)[k];
  }

  /** The section 4 grammar and the section 3 encoding describe the same sequences. */
  lemma OctetsIffUtf8(s: seq<Byte>)
    ensures Octets(s) <==> IsUtf8(s)
  {
    if Octets(s) {
      var cps := DecodeAll(s);
      assert EncodeAll(cps) == s;
    }
    if IsUtf8(s) {
      var cps: seq<Scalar> :| EncodeAll(cps) == s;
      EncodedIsOctets(cps);
    }
  }

  lemma {:induction false} DecodeAll(s: seq<Byte>) returns (cps: seq<Scalar>)
    requires Octets(s)
    ensures EncodeAll(cps) == s
  {
    if s == [] {
      cps := [];
    } else {
      var n := Lead(s);
      CharEncodesScalar(s[..n]);
      var rest := DecodeAll(s[n..]);
      cps := [Decode(s[..n])] + rest;
      assert cps[1..] == rest;
      assert s == s[..n] + s[n..];
    }
  }

  lemma {:induction false} EncodedIsOctets(cps: seq<Scalar>)
    ensures Octets(EncodeAll(cps))
  {
    if cps != [] {
      var rest := EncodeAll(cps[1..]);
      ScalarEncodesChar(cps[0], rest);
      EncodedIsOctets(cps[1..]);
      assert (Encode(cps[0]) + rest)[|Encode(cps[0])|..] == rest;
    }
  }

  /** An encoded scalar value determines both the value and where the rest begins. */
  lemma FirstCharUnique(c: Scalar, d: Scalar, x: seq<Byte>, y: seq<Byte>)
    requires Encode(c) + x == Encode(d) + y
    ensures c == d && x == y
  {
    var s := Encode(c) + x;
    ScalarEncodesChar(c, x);
    ScalarEncodesChar(d, y);
    var n := Lead(s);
    assert Encode(c) == s[..n] == Encode(d);
    assert x == s[n..] == y;
    ScalarDecodes(c);
    ScalarDecodes(d);
  }

  lemma ScalarDecodes(cp: Scalar)
    ensures Lead(Encode(cp)) == |Encode(cp)| && Decode(Encode(cp)) == cp
  {
    ScalarEncodesChar(cp, []);
    assert Encode(cp) + [] == Encode(cp);
    SixBits(cp);
    SixBits(cp / 0x40);
    SixBits(cp / 0x1000);
  }

  lemma SixBits(n: nat)
    requires n < 0x11_0000
    ensures Append(n / 0x40, 0x80 + n % 0x40) == n
    ensures n / 0x40 / 0x40 == n / 0x1000 && n / 0x1000 / 0x40 == n / 0x4_0000
  {
  }

  /** UTF-8 is uniquely decodable. */
  lemma {:induction false} EncodeAllInjective(a: seq<Scalar>, b: seq<Scalar>)
    requires EncodeAll(a) == EncodeAll(b)
    ensures a == b
  {
    if a != [] && b != [] {
      FirstCharUnique(a[0], b[0], EncodeAll(a[1..]), EncodeAll(b[1..]));
      EncodeAllInjective(a[1..], b[1..]);
      assert a == [a[0]] + a[1..] && b == [b[0]] + b[1..];
    }
  }

  lemma {:induction false} EncodeAllConcat(a: seq<Scalar>, b: seq<Scalar>)
    ensures EncodeAll(a + b) == EncodeAll(a) + EncodeAll(b)
  {
    if a == [] {
      assert a + b == b;
    } else {
      EncodeAllConcat(a[1..], b);
      assert (a + b)[1..] == a[1..] + b;
    }
  }

  // ---------- The automaton ----------

  /** `isSafeUtf8`: validates input[start..end] without building a string. */
  method IsSafeUtf8(input: seq<Byte>, start: nat, end: nat) returns (ok: bool)
    requires start <= end <= |input|
    ensures ok <==> IsUtf8(input[start..end])
  {
    OctetsIffUtf8(input[start..end]);
    var position := start;
    while position < end
      invariant start <= position <= end
      invariant Octets(input[start..end]) <==> Octets(input[position..end])
    {
      ghost var rest, at := input[position..end], position;
      assert rest[0] == input[at];
      var first := input[position];
      position := position + 1;
      if first < 0x80 {
        assert Lead(rest) == 1;
      } else if 0xC2 <= first <= 0xDF {
        if position >= end { assert Lead(rest) == 0; return false; }
        assert rest[1] == input[at + 1];
        position := position + 1;
        if !IsTail(input[position - 1]) { assert Lead(rest) == 0; return false; }
        assert Lead(rest) == 2;
      } else if 0xE0 <= first <= 0xEF {
        if position + 1 >= end { assert Lead(rest) == 0; return false; }
        assert rest[1] == input[at + 1] && rest[2] == input[at + 2];
        var second := input[position];
        position := position + 1;
        if !(if first == 0xE0 then 0xA0 <= second <= 0xBF
             else if first == 0xED then 0x80 <= second <= 0x9F
             else IsTail(second)) { assert Lead(rest) == 0; return false; }
        position := position + 1;
        if !IsTail(input[position - 1]) { assert Lead(rest) == 0; return false; }
        assert Lead(rest) == 3;
      } else if 0xF0 <= first <= 0xF4 {
        if position + 2 >= end { assert Lead(rest) == 0; return false; }
        assert rest[1] == input[at + 1] && rest[2] == input[at + 2] && rest[3] == input[at + 3];
        var second := input[position];
        position := position + 1;
        if !(if first == 0xF0 then 0x90 <= second <= 0xBF
             else if first == 0xF4 then 0x80 <= second <= 0x8F
             else IsTail(second)) { assert Lead(rest) == 0; return false; }
        position := position + 1;
        if !IsTail(input[position - 1]) { assert Lead(rest) == 0; return false; }
        position := position + 1;
        if !IsTail(input[position - 1]) { assert Lead(rest) == 0; return false; }
        assert Lead(rest) == 4;
      } else {
        assert Lead(rest) == 0;
        return false;
      }
      assert rest[position - at..] == input[position..end];
    }
    assert input[position..end] == [];
    return true;
  }
}
