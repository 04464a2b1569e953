/** Canonical decimal numerals, as the coordination script writes and reads timestamps. */
module Decimal {

  const MAX_SAFE: nat := 9007199254740991

  predicate IsDigit(c: char) {
    '0' <= c <= '9'
  }

  function Digit(d: nat): (c: char)
    requires d < 10
    ensures IsDigit(c) && c as int == '0' as int + d
  {
    '0' + d as char
  }

  /** `string.format('%.0f', n)` of an integer. */
  function Numeral(n: nat): (s: string)
    ensures s != []
  {
    if n < 10 then [Digit(n)] else Numeral(n / 10) + [Digit(n % 10)]
  }

  function Value(s: string): nat
    requires forall i | 0 <= i < |s| :: IsDigit(s[i])
  {
    if s == [] then 0
    else
      assert IsDigit(s[|s| - 1]);
      Value(s[..|s| - 1]) * 10 + (s[|s| - 1] as int - '0' as int)
  }

  /** `0`, or digits without a leading zero. */
  predicate Canonical(s: string) {
    && s != [] && (forall i | 0 <= i < |s| :: IsDigit(s[i]))
    && (s == "0" || s[0] != '0')
  }

  lemma {:induction false} NumeralReads(n: nat)
    ensures Canonical(Numeral(n)) && Value(Numeral(n)) == n
    ensures Numeral(n)[0] == '0' ==> n == 0
  {
    var s := Numeral(n);
    if n < 10 {
      assert s[..0] == [];
      assert Value(s[..0]) == 0;
    } else {
      NumeralReads(n / 10);
      assert s[..|s| - 1] == Numeral(n / 10) && s[0] == Numeral(n / 10)[0];
    }
  }

  lemma {:induction false} CanonicalIsNumeral(s: string)
    requires Canonical(s)
    ensures Numeral(Value(s)) == s
    ensures s != "0" ==> 0 < Value(s)
  {
    var d := s[|s| - 1] as int - '0' as int;
    if |s| == 1 {
      assert s[..0] == [] && Value(s[..0]) == 0;
      assert s == [Digit(d)];
    } else {
      var front := s[..|s| - 1];
      assert front[0] == s[0] && Canonical(front);
      CanonicalIsNumeral(front);
      assert Value(s) / 10 == Value(front) && Value(s) % 10 == d;
      assert s == front + [Digit(d)];
    }
  }

  /** Two different numbers never share a numeral. */
  lemma NumeralInjective(a: nat, b: nat)
    requires Numeral(a) == Numeral(b)
    ensures a == b
  {
    NumeralReads(a);
    NumeralReads(b);
  }

  function Power10(k: nat): nat {
    if k == 0 then 1 else 10 * Power10(k - 1)
  }

  lemma {:induction false} NumeralLength(n: nat, k: nat)
    requires 0 < k && n < Power10(k)
    ensures |Numeral(n)| <= k
  {
    if 10 <= n {
      assert k != 1 by { assert Power10(1) == 10 * Power10(0); }
      NumeralLength(n / 10, k - 1);
    }
  }

  lemma SafeHasSixteenDigits()
    ensures MAX_SAFE < Power10(16)
  {
    assert Power10(4) == 10000 by { assert Power10(2) == 100; }
    assert Power10(8) == 100000000 by { assert Power10(6) == 1000000; }
    assert Power10(12) == 1000000000000 by { assert Power10(10) == 10000000000; }
    assert Power10(14) == 100000000000000;
  }
}
