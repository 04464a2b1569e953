/** JavaScript strings: sequences of UTF-16 code units, read as scalar values. */
module Utf16 {
  import opened Common
  import Utf8

  predicate IsHigh(u: Unit) {
    0xD800 <= u <= 0xDBFF
  }

  predicate IsLow(u: Unit) {
    0xDC00 <= u <= 0xDFFF
  }

  predicate IsSurrogate(u: Unit) {
    0xD800 <= u <= 0xDFFF
  }

  /** How many units the first code point takes. */
  function Width(s: seq<Unit>): (n: nat)
    requires s != []
    ensures 1 <= n <= |s| && n <= 2
  {
    if IsHigh(s[0]) && 2 <= |s| && IsLow(s[1]) then 2 else 1
  }

  function Pair(high: Unit, low: Unit): (cp: Utf8.Scalar)
    requires IsHigh(high) && IsLow(low)
    ensures 0x1_0000 <= cp
  {
    0x1_0000 + (high - 0xD800) * 0x400 + (low - 0xDC00)
  }

  /** The first code point; an unpaired surrogate reads as U+FFFD. */
  function First(s: seq<Unit>): Utf8.Scalar
    requires s != []
  {
    if Width(s) == 2 then Pair(s[0], s[1])
    else if IsSurrogate(s[0]) then 0xFFFD
    else s[0]
  }

  function Scalars(s: seq<Unit>): seq<Utf8.Scalar> {
    if s == [] then [] else [First(s)] + Scalars(s[Width(s)..])
  }

  /** No unpaired surrogate. */
  predicate WellFormed(s: seq<Unit>) {
    s == [] || ((Width(s) == 2 || !IsSurrogate(s[0])) && WellFormed(s[Width(s)..]))
  }

  /** The UTF-8 text of a string. */
  function Bytes(s: seq<Unit>): seq<Byte> {
    Utf8.EncodeAll(Scalars(s))
  }

  /** `Buffer.byteLength`. */
  function ByteLength(s: seq<Unit>): nat {
    if s == [] then 0
    else (if Width(s) == 2 then 4 else if s[0] < 0x80 then 1 else if s[0] < 0x800 then 2 else 3) + ByteLength(s[Width(s)..])
  }

  lemma {:induction false} ByteLengthIsExact(s: seq<Unit>)
    ensures ByteLength(s) == |Bytes(s)|
  {
    if s != [] {
      ByteLengthIsExact(s[Width(s)..]);
      assert Scalars(s)[1..] == Scalars(s[Width(s)..]);
      assert |Utf8.Encode(First(s))| == if Width(s) == 2 then 4 else if s[0] < 0x80 then 1 else if s[0] < 0x800 then 2 else 3;
    }
  }

  /** Texts that do not split a surrogate pair may be measured apart. */
  lemma {:induction false} ByteLengthConcat(a: seq<Unit>, b: seq<Unit>)
    requires a == [] || b == [] || !(IsHigh(a[|a| - 1]) && IsLow(b[0]))
    ensures ByteLength(a + b) == ByteLength(a) + ByteLength(b)
    ensures WellFormed(a) && WellFormed(b) ==> WellFormed(a + b)
  {
    if a == [] {
      assert a + b == b;
    } else {
      var w := Width(a);
      assert Width(a + b) == w;
      assert (a + b)[w..] == a[w..] + b;
      if w < |a| { assert a[w..][|a| - w - 1] == a[|a| - 1]; }
      ByteLengthConcat(a[w..], b);
    }
  }

  /** Text of ASCII units is its own UTF-8. */
  lemma {:induction false} AsciiLength(s: seq<Unit>)
    requires forall i | 0 <= i < |s| :: s[i] < 0x80
    ensures ByteLength(s) == |s| && WellFormed(s)
  {
    if s != [] { AsciiLength(s[1..]); }
  }
}
