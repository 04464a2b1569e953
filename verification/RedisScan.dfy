/** What a scan with `MATCH` lists. The server's glob works on octets, the store's own matcher on
    UTF-16 code units; the pattern sent escapes everything but `*`. It is proved which keys the
    server's glob loses. */
module RedisScan {
  import opened Common
  import Pattern
  import RedisKeys
  import Utf16
  import Utf8

  type Text = RedisKeys.Text
  type Octets = seq<Byte>
  type Scalars = seq<Utf8.Scalar>

  const STAR: Byte := 0x2A
  const QUESTION: Byte := 0x3F
  const BRACKET: Byte := 0x5B
  const BACKSLASH: Byte := 0x5C
  const REPLACEMENT: Utf8.Scalar := 0xFFFD

  // ---------- The server's glob ----------

  /** A bracket expression at the start of a pattern: what it accepts and how long it is. */
  datatype Bracket = Bracket(accepts: set<Byte>, length: nat)

  type Server = Octets -> Bracket

  /** `MATCH`. What brackets mean is left to the server: no pattern of the store holds one. */
  predicate ServerGlob(server: Server, value: Octets, pattern: Octets)
    decreases |pattern|
  {
    if pattern == [] then value == []
    else if pattern[0] == STAR then exists k | 0 <= k <= |value| :: ServerGlob(server, value[k..], pattern[1..])
    else if value == [] then false
    else if pattern[0] == QUESTION then ServerGlob(server, value[1..], pattern[1..])
    else if pattern[0] == BRACKET then
      var b := server(pattern);
      value[0] in b.accepts && 1 <= b.length <= |pattern| && ServerGlob(server, value[1..], pattern[b.length..])
    else if pattern[0] == BACKSLASH && 2 <= |pattern| then
      value[0] == pattern[1] && ServerGlob(server, value[1..], pattern[2..])
    else value[0] == pattern[0] && ServerGlob(server, value[1..], pattern[1..])
  }

  // ---------- What it means on text ----------

  /** Any text, line terminators included, or one character. */
  datatype Token = Any | Lit(cp: Utf8.Scalar)

  ghost predicate GlobText(s: Scalars, ts: seq<Token>)
    decreases |ts|
  {
    if ts == [] then s == []
    else if ts[0].Any? then exists k | 0 <= k <= |s| :: GlobText(s[k..], ts[1..])
    else s != [] && s[0] == ts[0].cp && GlobText(s[1..], ts[1..])
  }

  predicate IsSpecial(u: int) {
    u == 0x5C || u == 0x2A || u == 0x3F || u == 0x5B || u == 0x5D
  }

  function Spelled(t: Token): (o: Octets)
    ensures o != []
  {
    if t.Any? then [STAR] else if IsSpecial(t.cp) then [BACKSLASH, t.cp] else Utf8.Encode(t.cp)
  }

  function SpelledAll(ts: seq<Token>): Octets {
    if ts == [] then [] else Spelled(ts[0]) + SpelledAll(ts[1..])
  }

  predicate Plain(o: Octets) {
    forall i | 0 <= i < |o| :: o[i] != STAR && o[i] != QUESTION && o[i] != BRACKET && o[i] != BACKSLASH
  }

  predicate AllTails(o: Octets) {
    forall i | 0 <= i < |o| :: Utf8.IsTail(o[i])
  }

  predicate StartsWith(value: Octets, lit: Octets) {
    |lit| <= |value| && value[..|lit|] == lit
  }

  lemma {:induction false} PlainOctets(server: Server, value: Octets, lit: Octets, rest: Octets)
    requires Plain(lit)
    ensures ServerGlob(server, value, lit + rest) <==> StartsWith(value, lit) && ServerGlob(server, value[|lit|..], rest)
    decreases |lit|
  {
    if lit == [] {
      assert lit + rest == rest && value[0..] == value;
    } else {
      var p := lit + rest;
      assert p[0] == lit[0] && p[1..] == lit[1..] + rest;
      if value != [] && value[0] == lit[0] {
        PlainOctets(server, value[1..], lit[1..], rest);
        if StartsWith(value[1..], lit[1..]) {
          assert value[..|lit|] == [value[0]] + value[1..][..|lit| - 1];
          assert value[1..][|lit| - 1..] == value[|lit|..];
        }
        if StartsWith(value, lit) { assert value[1..][..|lit| - 1] == lit[1..]; }
      }
    }
  }

  lemma EncodeOctets(cp: Utf8.Scalar)
    ensures !Utf8.IsTail(Utf8.Encode(cp)[0]) && AllTails(Utf8.Encode(cp)[1..])
    ensures !IsSpecial(cp) ==> Plain(Utf8.Encode(cp))
  {
  }

  /** A literal, escaped or not, consumes its own octets. */
  lemma LiteralConsumes(server: Server, value: Octets, cp: Utf8.Scalar, rest: Octets)
    ensures ServerGlob(server, value, Spelled(Lit(cp)) + rest) <==>
      StartsWith(value, Utf8.Encode(cp)) && ServerGlob(server, value[|Utf8.Encode(cp)|..], rest)
  {
    if IsSpecial(cp) {
      var p := [BACKSLASH, cp] + rest;
      assert Utf8.Encode(cp) == [cp] && p[2..] == rest;
      if value != [] { assert value[..1] == [value[0]]; }
    } else {
      EncodeOctets(cp);
      PlainOctets(server, value, Utf8.Encode(cp), rest);
    }
  }

  lemma DropConcat(a: Octets, b: Octets, k: nat)
    requires k <= |a + b|
    ensures (a + b)[k..] == if k <= |a| then a[k..] + b else b[k - |a|..]
  {
  }

  /** A suffix of a text's octets is the rest of a character and whole characters. */
  lemma {:induction false} SuffixOctets(s: Scalars, k: nat) returns (j: nat, t: Octets)
    requires k <= |Utf8.EncodeAll(s)|
    ensures j <= |s| && AllTails(t) && Utf8.EncodeAll(s)[k..] == t + Utf8.EncodeAll(s[j..])
  {
    if k == 0 {
      j, t := 0, [];
      assert s[0..] == s;
    } else {
      var head := Utf8.Encode(s[0]);
      EncodeOctets(s[0]);
      DropConcat(head, Utf8.EncodeAll(s[1..]), k);
      hide Utf8.Encode, Utf8.IsTail;
      if k <= |head| {
        j, t := 1, head[k..];
        assert t == head[1..][k - 1..];
      } else {
        j, t := SuffixOctets(s[1..], k - |head|);
        assert s[1..][j..] == s[j + 1..];
        j := j + 1;
      }
    }
  }

  lemma CutOctets(t: Octets, s: Scalars, k: nat) returns (j: nat, u: Octets)
    requires AllTails(t) && k <= |t + Utf8.EncodeAll(s)|
    ensures j <= |s| && AllTails(u) && (t + Utf8.EncodeAll(s))[k..] == u + Utf8.EncodeAll(s[j..])
  {
    DropConcat(t, Utf8.EncodeAll(s), k);
    hide Utf8.EncodeAll, Utf8.IsTail;
    if k <= |t| {
      j, u := 0, t[k..];
      assert s[0..] == s;
    } else {
      j, u := SuffixOctets(s, k - |t|);
    }
  }

  /** A match on octets is a match on the text: the server's `*` may split a character, but UTF-8
      finds its way back at the next literal. */
  lemma {:induction false} ServerGlobSound(server: Server, t: Octets, s: Scalars, ts: seq<Token>)
    requires AllTails(t) && ServerGlob(server, t + Utf8.EncodeAll(s), SpelledAll(ts))
    requires t == [] || (ts != [] && ts[0].Any?)
    ensures GlobText(s, ts)
    decreases |ts|
  {
    var value := t + Utf8.EncodeAll(s);
    if ts == [] {
      assert Utf8.EncodeAll(s) == [];
    } else if ts[0].Any? {
      var p := SpelledAll(ts);
      assert p[0] == STAR && p[1..] == SpelledAll(ts[1..]);
      var k :| 0 <= k <= |value| && ServerGlob(server, value[k..], p[1..]);
      if ts[1..] == [] {
        assert GlobText(s[|s|..], ts[1..]);
      } else {
        var j, u := CutOctets(t, s, k);
        if !ts[1].Any? { TailIsNoLiteral(server, u, s[j..], ts[1..]); }
        ServerGlobSound(server, u, s[j..], ts[1..]);
      }
    } else {
      assert value == Utf8.EncodeAll(s);
      LiteralConsumes(server, value, ts[0].cp, SpelledAll(ts[1..]));
      HeadIsLiteral(s, ts[0].cp);
      ServerGlobSound(server, [], s[1..], ts[1..]);
    }
  }

  lemma HeadIsLiteral(s: Scalars, cp: Utf8.Scalar)
    requires StartsWith(Utf8.EncodeAll(s), Utf8.Encode(cp))
    ensures s != [] && s[0] == cp && Utf8.EncodeAll(s)[|Utf8.Encode(cp)|..] == [] + Utf8.EncodeAll(s[1..])
  {
    var value := Utf8.EncodeAll(s);
    assert value == Utf8.Encode(cp) + value[|Utf8.Encode(cp)|..];
    Utf8.FirstCharUnique(s[0], cp, Utf8.EncodeAll(s[1..]), value[|Utf8.Encode(cp)|..]);
  }

  lemma TailIsNoLiteral(server: Server, u: Octets, s: Scalars, ts: seq<Token>)
    requires AllTails(u) && ts != [] && !ts[0].Any? && ServerGlob(server, u + Utf8.EncodeAll(s), SpelledAll(ts))
    ensures u == []
  {
    LiteralConsumes(server, u + Utf8.EncodeAll(s), ts[0].cp, SpelledAll(ts[1..]));
    EncodeOctets(ts[0].cp);
  }

  lemma {:induction false} ServerGlobComplete(server: Server, s: Scalars, ts: seq<Token>)
    requires GlobText(s, ts)
    ensures ServerGlob(server, Utf8.EncodeAll(s), SpelledAll(ts))
    decreases |ts|
  {
    var value, p := Utf8.EncodeAll(s), SpelledAll(ts);
    if ts != [] && ts[0].Any? {
      assert p[0] == STAR && p[1..] == SpelledAll(ts[1..]);
      var k :| 0 <= k <= |s| && GlobText(s[k..], ts[1..]);
      ServerGlobComplete(server, s[k..], ts[1..]);
      Utf8.EncodeAllConcat(s[..k], s[k..]);
      assert s == s[..k] + s[k..];
      assert value[|Utf8.EncodeAll(s[..k])|..] == Utf8.EncodeAll(s[k..]);
    } else if ts != [] {
      ServerGlobComplete(server, s[1..], ts[1..]);
      LiteralConsumes(server, value, ts[0].cp, SpelledAll(ts[1..]));
      assert value[|Utf8.Encode(s[0])|..] == Utf8.EncodeAll(s[1..]);
    }
  }

  /** The server's glob on octets is the glob on text, whatever its brackets mean. */
  lemma ServerGlobIff(server: Server, s: Scalars, ts: seq<Token>)
    ensures ServerGlob(server, Utf8.EncodeAll(s), SpelledAll(ts)) <==> GlobText(s, ts)
  {
    if ServerGlob(server, Utf8.EncodeAll(s), SpelledAll(ts)) {
      assert [] + Utf8.EncodeAll(s) == Utf8.EncodeAll(s);
      ServerGlobSound(server, [], s, ts);
    }
    if GlobText(s, ts) { ServerGlobComplete(server, s, ts); }
  }

  // ---------- The pattern sent ----------

  /** `escapeRedisGlob`, and without `stars` `cachePatternToRedisGlob`. */
  function Escaped(s: Text, stars: bool): Text {
    if s == [] then [] else EscapedOne(s[0], stars) + Escaped(s[1..], stars)
  }

  function EscapedOne(u: Unit, stars: bool): Text {
    if IsSpecial(u) && (stars || u != Pattern.STAR) then [0x5C, u] else [u]
  }

  lemma Reassociate<T>(a: seq<T>, b: seq<T>, c: seq<T>)
    ensures a + b + c == a + (b + c)
  {
  }

  /** `toRedisPattern`, and the pattern of `fencePatternLeases`. */
  function RedisPattern(prefix: Text, kind: RedisKeys.Kind, pattern: Text): Text {
    RedisKeys.VERSION + [Pattern.STAR, RedisKeys.COLON] + Escaped(prefix, true) + RedisKeys.Mark(kind) + Escaped(pattern, false)
  }

  /** The server lists the key for the pattern, both as they are on the wire. */
  predicate Listed(server: Server, prefix: Text, kind: RedisKeys.Kind, key: Text, pattern: Text) {
    ServerGlob(server, Utf16.Bytes(RedisKeys.Build(prefix, kind, key)), Utf16.Bytes(RedisPattern(prefix, kind, pattern)))
  }

  function Tokens(s: Scalars, stars: bool): seq<Token> {
    if s == [] then [] else [if s[0] == STAR && !stars then Any else Lit(s[0])] + Tokens(s[1..], stars)
  }

  lemma {:induction false} SpelledConcat(a: seq<Token>, b: seq<Token>)
    ensures SpelledAll(a + b) == SpelledAll(a) + SpelledAll(b)
  {
    hide Spelled;
    if a == [] {
      assert a + b == b;
    } else {
      SpelledConcat(a[1..], b);
      var ab := a + b;
      assert ab[0] == a[0] && ab[1..] == a[1..] + b;
      Reassociate(Spelled(a[0]), SpelledAll(a[1..]), SpelledAll(b));
    }
  }

  lemma {:induction false} ScalarsConcat(a: Text, b: Text)
    requires Utf16.WellFormed(a)
    ensures Utf16.Scalars(a + b) == Utf16.Scalars(a) + Utf16.Scalars(b)
  {
    if a == [] {
      assert a + b == b;
    } else {
      var n := Utf16.Width(a);
      assert Utf16.Width(a + b) == n && (a + b)[n..] == a[n..] + b && Utf16.First(a + b) == Utf16.First(a);
      hide Utf16.First;
      ScalarsConcat(a[n..], b);
    }
  }

  lemma BytesConcat(a: Text, b: Text)
    requires Utf16.WellFormed(a)
    ensures Utf16.Bytes(a + b) == Utf16.Bytes(a) + Utf16.Bytes(b)
  {
    ScalarsConcat(a, b);
    Utf8.EncodeAllConcat(Utf16.Scalars(a), Utf16.Scalars(b));
  }

  lemma EscapedHead(s: Text, stars: bool)
    requires s != []
    ensures Escaped(s, stars) != [] && (Utf16.IsLow(Escaped(s, stars)[0]) ==> Escaped(s, stars)[0] == s[0])
  {
  }

  function EscapedUnit(s: Text, stars: bool): Text
    requires s != []
  {
    if IsSpecial(s[0]) && (stars || s[0] != Pattern.STAR) then [0x5C, s[0]] else s[..Utf16.Width(s)]
  }

  lemma EscapedSplits(s: Text, stars: bool)
    requires s != []
    ensures var n := Utf16.Width(s); var rest := Escaped(s[n..], stars);
      Escaped(s, stars) == EscapedUnit(s, stars) + rest && (rest != [] ==> n < |s| && (Utf16.IsLow(rest[0]) ==> rest[0] == s[n]))
  {
    var n := Utf16.Width(s);
    if n < |s| { EscapedHead(s[n..], stars); }
    if n == 2 {
      assert s[1..][1..] == s[2..];
      assert Escaped(s[1..], stars) == [s[1]] + Escaped(s[2..], stars);
    }
  }

  /** On the wire the escaped text spells its tokens; an unpaired surrogate reads as U+FFFD. */
  lemma {:induction false} EscapedBytes(s: Text, stars: bool)
    ensures Utf16.Bytes(Escaped(s, stars)) == SpelledAll(Tokens(Utf16.Scalars(s), stars))
  {
    if s != [] {
      var n, ss := Utf16.Width(s), Utf16.Scalars(s);
      assert ss[1..] == Utf16.Scalars(s[n..]);
      EscapedBytes(s[n..], stars);
      EscapedSplits(s, stars);
      HeadBytes(s, Escaped(s[n..], stars), stars);
      hide Spelled, Escaped, EscapedUnit, Utf16.Bytes, Utf16.Width, Utf16.First;
    }
  }

  lemma HeadBytes(s: Text, rest: Text, stars: bool)
    requires s != [] && (rest != [] ==> Utf16.Width(s) < |s| && (Utf16.IsLow(rest[0]) ==> rest[0] == s[Utf16.Width(s)]))
    ensures Utf16.Bytes(EscapedUnit(s, stars) + rest) ==
      Spelled(if Utf16.First(s) == STAR && !stars then Any else Lit(Utf16.First(s))) + Utf16.Bytes(rest)
  {
    if IsSpecial(s[0]) && (stars || s[0] != Pattern.STAR) {
      EscapedBytesOf(s[0], rest);
    } else {
      var all, n := s[..Utf16.Width(s)] + rest, Utf16.Width(s);
      assert Utf16.Width(all) == n && all[n..] == rest && Utf16.First(all) == Utf16.First(s);
      hide Utf16.First, Utf16.Width;
      assert Utf16.Scalars(all)[1..] == Utf16.Scalars(rest);
    }
  }

  lemma EscapedBytesOf(u: Unit, rest: Text)
    requires IsSpecial(u)
    ensures Utf16.Bytes([0x5C, u] + rest) == [BACKSLASH, u] + Utf16.Bytes(rest)
  {
    var two: Text, pair: Scalars := [0x5C, u], [0x5C, u];
    Utf16.AsciiLength(two);
    assert two[1..] == [u] && [u][1..] == [] && pair[1..] == [u] && pair[1..][1..] == [];
    assert Utf16.Scalars([u]) == [u] && Utf16.Scalars(two) == pair;
    assert Utf8.Encode(pair[0]) == [0x5C] && Utf8.Encode(pair[1..][0]) == [u];
    assert Utf8.EncodeAll(pair[1..]) == [u];
    assert Utf8.EncodeAll(pair) == [0x5C] + [u];
    hide Utf16.Scalars, Utf8.EncodeAll, Utf8.Encode;
    BytesConcat(two, rest);
  }

  // ---------- What the server lists ----------

  /** What stands between the slot tag and the key. */
  function Middle(prefix: Text, kind: RedisKeys.Kind): Text {
    [RedisKeys.COLON] + prefix + RedisKeys.Mark(kind)
  }

  function Lits(s: Text): seq<Token> {
    Tokens(Utf16.Scalars(s), true)
  }

  function PatternTokens(prefix: Text, kind: RedisKeys.Kind, pattern: Text): seq<Token> {
    Lits(RedisKeys.VERSION) + ([Any] + (Lits(Middle(prefix, kind)) + Tokens(Utf16.Scalars(pattern), false)))
  }

  lemma {:induction false} EscapedConcat(a: Text, b: Text, stars: bool)
    ensures Escaped(a + b, stars) == Escaped(a, stars) + Escaped(b, stars)
  {
    if a == [] {
      assert a + b == b;
    } else {
      EscapedConcat(a[1..], b, stars);
      hide EscapedOne;
      var ab := a + b;
      assert ab[0] == a[0] && ab[1..] == a[1..] + b;
      Reassociate(EscapedOne(a[0], stars), Escaped(a[1..], stars), Escaped(b, stars));
    }
  }

  lemma {:induction false} NothingToEscape(s: Text, stars: bool)
    requires forall i | 0 <= i < |s| :: !IsSpecial(s[i])
    ensures Escaped(s, stars) == s
  {
    if s != [] { NothingToEscape(s[1..], stars); }
  }

  lemma {:induction false} EscapedWellFormed(s: Text, stars: bool)
    requires Utf16.WellFormed(s)
    ensures Utf16.WellFormed(Escaped(s, stars))
  {
    if s != [] {
      var n := Utf16.Width(s);
      EscapedWellFormed(s[n..], stars);
      EscapedSplits(s, stars);
      UnitWellFormed(s, stars);
      RedisKeys.WellFormedConcat(EscapedUnit(s, stars), Escaped(s[n..], stars));
    }
  }

  lemma UnitWellFormed(s: Text, stars: bool)
    requires Utf16.WellFormed(s) && s != []
    ensures Utf16.WellFormed(EscapedUnit(s, stars))
  {
    var u := EscapedUnit(s, stars);
    if IsSpecial(s[0]) && (stars || s[0] != Pattern.STAR) {
      Utf16.AsciiLength(u);
    } else {
      assert u[Utf16.Width(s)..] == [];
    }
  }

  lemma MiddleIsWellFormed(prefix: Text, kind: RedisKeys.Kind)
    requires Utf16.WellFormed(prefix)
    ensures Utf16.WellFormed(Middle(prefix, kind))
  {
    RedisKeys.HeadIsWellFormed([RedisKeys.COLON], prefix, RedisKeys.Mark(kind));
    hide Utf16.WellFormed, RedisKeys.Mark;
  }

  lemma VersionIsWellFormed()
    ensures Utf16.WellFormed(RedisKeys.VERSION)
  {
    hide Utf16.WellFormed, Utf16.ByteLength;
    Utf16.AsciiLength(RedisKeys.VERSION);
  }

  lemma MiddleEscaped(prefix: Text, kind: RedisKeys.Kind)
    ensures Escaped(Middle(prefix, kind), true) == [RedisKeys.COLON] + Escaped(prefix, true) + RedisKeys.Mark(kind)
  {
    var mark := RedisKeys.Mark(kind);
    hide Escaped;
    assert Escaped(mark, true) == mark by { NothingToEscape(mark, true); }
    NothingToEscape([RedisKeys.COLON], true);
    hide RedisKeys.Mark;
    EscapedConcat([RedisKeys.COLON], prefix, true);
    EscapedConcat([RedisKeys.COLON] + prefix, mark, true);
  }

  lemma PatternParts(prefix: Text, kind: RedisKeys.Kind, pattern: Text)
    ensures RedisPattern(prefix, kind, pattern) ==
      Escaped(RedisKeys.VERSION, true) + ([Pattern.STAR] + (Escaped(Middle(prefix, kind), true) + Escaped(pattern, false)))
  {
    assert Escaped(RedisKeys.VERSION, true) == RedisKeys.VERSION by { NothingToEscape(RedisKeys.VERSION, true); }
    hide Escaped, RedisKeys.Mark, Middle;
    MiddleEscaped(prefix, kind);
    PatternRegroups(RedisKeys.VERSION, Pattern.STAR, RedisKeys.COLON, Escaped(prefix, true), RedisKeys.Mark(kind), Escaped(pattern, false));
  }

  lemma PatternRegroups(v: Text, star: Unit, colon: Unit, p: Text, m: Text, e: Text)
    ensures v + [star, colon] + p + m + e == v + ([star] + (([colon] + p + m) + e))
  {
    assert [star, colon] == [star] + [colon];
  }

  lemma KeyRegroups(v: Text, open: Unit, tag: Text, close: Unit, colon: Unit, p: Text, m: Text, key: Text)
    ensures v + [open] + tag + [close, colon] + (p + m + key) == v + (([open] + tag + [close]) + (([colon] + p + m) + key))
  {
    assert [close, colon] == [close] + [colon];
  }

  /** The pattern sent spells its tokens. */
  lemma PatternBytes(prefix: Text, kind: RedisKeys.Kind, pattern: Text)
    requires Utf16.WellFormed(prefix)
    ensures Utf16.Bytes(RedisPattern(prefix, kind, pattern)) == SpelledAll(PatternTokens(prefix, kind, pattern))
  {
    var version, middle := RedisKeys.VERSION, Middle(prefix, kind);
    PatternParts(prefix, kind, pattern);
    VersionIsWellFormed();
    MiddleIsWellFormed(prefix, kind);
    EscapedWellFormed(version, true);
    EscapedWellFormed(middle, true);
    StarBytes();
    EscapedBytes(version, true);
    EscapedBytes(middle, true);
    EscapedBytes(pattern, false);
    hide Utf16.WellFormed, Utf16.Bytes, Escaped, Spelled, SpelledAll, Tokens, RedisPattern, Middle;
    var rest := Escaped(middle, true) + Escaped(pattern, false);
    BytesConcat(Escaped(version, true), [Pattern.STAR] + rest);
    BytesConcat([Pattern.STAR], rest);
    BytesConcat(Escaped(middle, true), Escaped(pattern, false));
    var tail := Lits(middle) + Tokens(Utf16.Scalars(pattern), false);
    SpelledConcat(Lits(version), [Any] + tail);
    SpelledConcat([Any], tail);
    SpelledConcat(Lits(middle), Tokens(Utf16.Scalars(pattern), false));
  }

  lemma StarBytes()
    ensures Utf16.WellFormed([Pattern.STAR]) && Utf16.Bytes([Pattern.STAR]) == SpelledAll([Any])
  {
    var star: Text := [Pattern.STAR];
    Utf16.AsciiLength(star);
    assert star[1..] == [] && Utf16.Scalars(star) == [0x2A];
    assert [0x2A as Utf8.Scalar][1..] == [] && [Any][1..] == [];
  }

  /** The server lists a key exactly when the text of its Redis key matches the tokens of the
      pattern. */
  lemma ListedIff(server: Server, prefix: Text, kind: RedisKeys.Kind, key: Text, pattern: Text)
    requires Utf16.WellFormed(prefix)
    ensures Listed(server, prefix, kind, key, pattern) <==>
      GlobText(Utf16.Scalars(RedisKeys.Build(prefix, kind, key)), PatternTokens(prefix, kind, pattern))
  {
    PatternBytes(prefix, kind, pattern);
    hide ServerGlob, GlobText, PatternTokens, RedisKeys.Build, RedisPattern;
    ServerGlobIff(server, Utf16.Scalars(RedisKeys.Build(prefix, kind, key)), PatternTokens(prefix, kind, pattern));
  }

  // ---------- Nothing is lost of well-formed keys and patterns ----------

  lemma LitConsumes(cp: Utf8.Scalar, s: Scalars, ts: seq<Token>)
    requires GlobText(s, ts)
    ensures GlobText([cp] + s, [Lit(cp)] + ts)
  {
    var v, q := [cp] + s, [Lit(cp)] + ts;
    assert v[1..] == s && q[1..] == ts;
  }

  lemma {:induction false} LitsConsume(p: Scalars, s: Scalars, ts: seq<Token>)
    requires GlobText(s, ts)
    ensures GlobText(p + s, Tokens(p, true) + ts)
  {
    hide GlobText;
    if p == [] {
      assert p + s == s && Tokens(p, true) + ts == ts;
    } else {
      var later := Tokens(p[1..], true);
      LitsConsume(p[1..], s, ts);
      LitConsumes(p[0], p[1..] + s, later + ts);
      assert [p[0]] + (p[1..] + s) == p + s;
      assert Tokens(p, true) + ts == [Lit(p[0])] + (later + ts);
    }
  }

  lemma AnyConsumes(p: Scalars, s: Scalars, ts: seq<Token>)
    requires GlobText(s, ts)
    ensures GlobText(p + s, [Any] + ts)
  {
    var v, q := p + s, [Any] + ts;
    assert q[1..] == ts && v[|p|..] == s;
  }

  function TagPart(key: Text): Text {
    [RedisKeys.OPEN] + RedisKeys.SlotTag(key) + [RedisKeys.CLOSE]
  }

  lemma TagPartIsAscii(key: Text)
    ensures forall i | 0 <= i < |TagPart(key)| :: TagPart(key)[i] < 0x80
    ensures Utf16.WellFormed(TagPart(key))
  {
    RedisKeys.TagIsAscii(key);
    Utf16.AsciiLength(TagPart(key));
  }

  /** The text of a Redis key, in parts. */
  lemma BuildScalars(prefix: Text, kind: RedisKeys.Kind, key: Text)
    requires Utf16.WellFormed(prefix)
    ensures Utf16.Scalars(RedisKeys.Build(prefix, kind, key)) ==
      Utf16.Scalars(RedisKeys.VERSION) + (Utf16.Scalars(TagPart(key)) + (Utf16.Scalars(Middle(prefix, kind)) + Utf16.Scalars(key)))
  {
    VersionIsWellFormed();
    MiddleIsWellFormed(prefix, kind);
    TagPartIsAscii(key);
    var version, tag, middle := RedisKeys.VERSION, TagPart(key), Middle(prefix, kind);
    assert RedisKeys.Build(prefix, kind, key) == version + (tag + (middle + key)) by {
      hide RedisKeys.SlotTag, Utf16.WellFormed, Utf16.Scalars;
      KeyRegroups(version, RedisKeys.OPEN, RedisKeys.SlotTag(key), RedisKeys.CLOSE, RedisKeys.COLON, prefix, RedisKeys.Mark(kind), key);
    }
    hide Utf16.WellFormed, Utf16.Scalars, TagPart, Middle, RedisKeys.Build;
    ScalarsConcat(version, tag + (middle + key));
    ScalarsConcat(tag, middle + key);
    ScalarsConcat(middle, key);
  }

  /** A suffix of a well-formed text is perhaps half a pair, and whole characters. */
  lemma {:induction false} SuffixUnits(key: Text, k: nat) returns (j: nat, t: Text, rest: Text)
    requires Utf16.WellFormed(key) && k <= |key|
    ensures key[k..] == t + rest && Utf16.WellFormed(rest)
    ensures t == [] || (|t| == 1 && Utf16.IsLow(t[0]))
    ensures j <= |Utf16.Scalars(key)| && Utf16.Scalars(rest) == Utf16.Scalars(key)[j..]
  {
    if k == 0 {
      j, t, rest := 0, [], key;
    } else {
      var n, ss := Utf16.Width(key), Utf16.Scalars(key);
      var later, ls := key[n..], ss[1..];
      assert ls == Utf16.Scalars(later) && |ss| == |ls| + 1 && Utf16.WellFormed(later);
      if k < n {
        assert n == 2 && k == 1 && Utf16.IsLow(key[1]);
        j, t, rest := 1, [key[1]], later;
        hide Utf16.WellFormed, Utf16.Scalars, Utf16.Width;
        assert key[1..] == [key[1]] + key[2..];
      } else {
        j, t, rest := SuffixUnits(later, k - n);
        hide Utf16.WellFormed, Utf16.Scalars, Utf16.Width;
        assert later[k - n..] == key[k..] && ls[j..] == ss[j + 1..];
        j := j + 1;
      }
    }
  }

  /** A match of well-formed texts on code units is a match on characters. */
  lemma {:induction false} GlobIsOnText(t: Text, key: Text, pattern: Text)
    requires Utf16.WellFormed(key) && Utf16.WellFormed(pattern) && Pattern.Glob(t + key, pattern)
    requires t == [] || (|t| == 1 && Utf16.IsLow(t[0]) && pattern != [] && pattern[0] == Pattern.STAR)
    ensures GlobText(Utf16.Scalars(key), Tokens(Utf16.Scalars(pattern), false))
    decreases |pattern|
  {
    var value, ss, ts := t + key, Utf16.Scalars(key), Tokens(Utf16.Scalars(pattern), false);
    if pattern == [] {
    } else if pattern[0] == Pattern.STAR {
      assert Utf16.Scalars(pattern)[1..] == Utf16.Scalars(pattern[1..]);
      assert ts[0].Any? && ts[1..] == Tokens(Utf16.Scalars(pattern[1..]), false);
      var k :| 0 <= k <= |value| && Pattern.Clean(value[..k]) && Pattern.Glob(value[k..], pattern[1..]);
      if pattern[1..] == [] {
        assert GlobText(ss[|ss|..], ts[1..]);
      } else {
        var j, u, rest := CutUnits(t, key, k);
        if pattern[1] != Pattern.STAR { LowIsNoLiteral(u, rest, pattern[1..]); }
        GlobIsOnText(u, rest, pattern[1..]);
        assert GlobText(ss[j..], ts[1..]);
      }
    } else {
      assert value == key;
      LiteralOnText(key, pattern);
      GlobIsOnText([], key[Utf16.Width(key)..], pattern[Utf16.Width(pattern)..]);
    }
  }

  lemma CutUnits(t: Text, key: Text, k: nat) returns (j: nat, u: Text, rest: Text)
    requires Utf16.WellFormed(key) && k <= |t + key| && (t == [] || (|t| == 1 && Utf16.IsLow(t[0])))
    ensures (t + key)[k..] == u + rest && Utf16.WellFormed(rest) && (u == [] || (|u| == 1 && Utf16.IsLow(u[0])))
    ensures j <= |Utf16.Scalars(key)| && Utf16.Scalars(rest) == Utf16.Scalars(key)[j..]
  {
    if k < |t| {
      j, u, rest := 0, t, key;
    } else {
      j, u, rest := SuffixUnits(key, k - |t|);
      assert (t + key)[k..] == key[k - |t|..];
    }
  }

  lemma LowIsNoLiteral(u: Text, rest: Text, pattern: Text)
    requires u == [] || (|u| == 1 && Utf16.IsLow(u[0]))
    requires Utf16.WellFormed(pattern) && pattern != [] && pattern[0] != Pattern.STAR && Pattern.Glob(u + rest, pattern)
    ensures u == []
  {
    assert (u + rest)[0] == pattern[0];
  }

  lemma LiteralOnText(key: Text, pattern: Text)
    requires Utf16.WellFormed(key) && Utf16.WellFormed(pattern) && Pattern.Glob(key, pattern)
    requires pattern != [] && pattern[0] != Pattern.STAR
    ensures key != [] && var m, n := Utf16.Width(key), Utf16.Width(pattern);
      && Utf16.First(key) == Utf16.First(pattern) && Utf16.First(pattern) != STAR
      && Pattern.Glob([] + key[m..], pattern[n..])
      && Utf16.Scalars(key)[1..] == Utf16.Scalars(key[m..]) && Utf16.Scalars(pattern)[1..] == Utf16.Scalars(pattern[n..])
  {
    var n := Utf16.Width(pattern);
    if n == 2 {
      assert Pattern.Glob(key[1..], pattern[1..]) && pattern[1..][0] == pattern[1];
      assert key[1..][0] == pattern[1] && key[1..][1..] == key[2..] && pattern[1..][1..] == pattern[2..];
    }
    assert [] + key[n..] == key[n..];
  }

  /** The parts before the key match whatever the key is. */
  lemma KeyMatchIsListed(server: Server, prefix: Text, kind: RedisKeys.Kind, key: Text, pattern: Text)
    requires Utf16.WellFormed(prefix) && GlobText(Utf16.Scalars(key), Tokens(Utf16.Scalars(pattern), false))
    ensures Listed(server, prefix, kind, key, pattern)
  {
    ListedIff(server, prefix, kind, key, pattern);
    BuildScalars(prefix, kind, key);
    hide GlobText, Listed, Tokens, TagPart, Middle, Utf16.WellFormed, Utf16.Scalars, RedisKeys.Build;
    var ss, ts, middle := Utf16.Scalars(key), Tokens(Utf16.Scalars(pattern), false), Middle(prefix, kind);
    LitsConsume(Utf16.Scalars(middle), ss, ts);
    AnyConsumes(Utf16.Scalars(TagPart(key)), Utf16.Scalars(middle) + ss, Lits(middle) + ts);
    LitsConsume(Utf16.Scalars(RedisKeys.VERSION), Utf16.Scalars(TagPart(key)) + (Utf16.Scalars(middle) + ss), [Any] + (Lits(middle) + ts));
  }

  /** Of well-formed keys and patterns the server lists whatever the store's matcher accepts. */
  lemma ScanLosesNothing(server: Server, prefix: Text, kind: RedisKeys.Kind, key: Text, pattern: Text)
    requires Utf16.WellFormed(prefix) && Utf16.WellFormed(key) && Utf16.WellFormed(pattern) && Pattern.Matches(key, pattern)
    ensures Listed(server, prefix, kind, key, pattern)
  {
    hide Listed, Utf16.WellFormed, Utf16.Scalars, Pattern.Glob;
    if pattern == [Pattern.STAR] {
      StarTokens();
      assert GlobText(Utf16.Scalars(key)[|Utf16.Scalars(key)|..], [Any][1..]);
    } else {
      assert [] + key == key;
      GlobIsOnText([], key, pattern);
    }
    KeyMatchIsListed(server, prefix, kind, key, pattern);
  }

  lemma StarTokens()
    ensures Tokens(Utf16.Scalars([Pattern.STAR]), false) == [Any]
  {
    var star: Text := [Pattern.STAR];
    assert star[1..] == [] && Utf16.Scalars(star) == [0x2A];
    assert [0x2A as Utf8.Scalar][1..] == [];
  }

  // ---------- What is lost of ill-formed patterns ----------

  /** How many replacement characters a text holds, units or scalar values. */
  function Marks(s: seq<int>): nat {
    if s == [] then 0 else (if s[0] == REPLACEMENT then 1 else 0) + Marks(s[1..])
  }

  function MarkTokens(ts: seq<Token>): nat {
    if ts == [] then 0 else (if ts[0] == Lit(REPLACEMENT) then 1 else 0) + MarkTokens(ts[1..])
  }

  lemma {:induction false} MarksConcat(a: seq<int>, b: seq<int>)
    ensures Marks(a + b) == Marks(a) + Marks(b)
  {
    if a == [] {
      assert a + b == b;
    } else {
      MarksConcat(a[1..], b);
      assert (a + b)[1..] == a[1..] + b;
    }
  }

  lemma {:induction false} MarkTokensConcat(a: seq<Token>, b: seq<Token>)
    ensures MarkTokens(a + b) == MarkTokens(a) + MarkTokens(b)
  {
    if a == [] {
      assert a + b == b;
    } else {
      MarkTokensConcat(a[1..], b);
      assert (a + b)[1..] == a[1..] + b;
    }
  }

  lemma {:induction false} MarksOfTokens(s: Scalars, stars: bool)
    ensures MarkTokens(Tokens(s, stars)) == Marks(s)
  {
    if s != [] { MarksOfTokens(s[1..], stars); }
  }

  /** A text that matches holds at least the replacement characters of the pattern. */
  lemma {:induction false} MarksNeeded(s: Scalars, ts: seq<Token>)
    requires GlobText(s, ts)
    ensures MarkTokens(ts) <= Marks(s)
    decreases |ts|
  {
    if ts == [] {
    } else if ts[0].Any? {
      var k :| 0 <= k <= |s| && GlobText(s[k..], ts[1..]);
      MarksNeeded(s[k..], ts[1..]);
      MarksConcat(s[..k], s[k..]);
      assert s == s[..k] + s[k..];
    } else {
      MarksNeeded(s[1..], ts[1..]);
    }
  }

  /** On the wire every unpaired surrogate becomes one. */
  lemma {:induction false} MarksOnTheWire(s: Text)
    ensures Marks(s) <= Marks(Utf16.Scalars(s))
    ensures Marks(s) == Marks(Utf16.Scalars(s)) <==> Utf16.WellFormed(s)
  {
    if s != [] {
      var n := Utf16.Width(s);
      MarksOnTheWire(s[n..]);
      assert Utf16.Scalars(s)[1..] == Utf16.Scalars(s[n..]);
      if n == 2 { assert s[1..][1..] == s[2..] && Marks(s) == Marks(s[1..]) == Marks(s[2..]); }
    }
  }

  lemma {:induction false} AsciiMarks(s: Text)
    requires forall i | 0 <= i < |s| :: s[i] < 0x80
    ensures Marks(Utf16.Scalars(s)) == 0
  {
    if s != [] {
      assert Utf16.Width(s) == 1 && Utf16.Scalars(s)[1..] == Utf16.Scalars(s[1..]);
      AsciiMarks(s[1..]);
    }
  }

  /** A well-formed key with no more of them than the pattern has itself is not listed if the
      pattern is ill-formed. */
  lemma FewMarksAreNotListed(server: Server, prefix: Text, kind: RedisKeys.Kind, key: Text, pattern: Text)
    requires Utf16.WellFormed(prefix) && Utf16.WellFormed(key) && !Utf16.WellFormed(pattern) && Marks(key) <= Marks(pattern)
    ensures !Listed(server, prefix, kind, key, pattern)
  {
    var ks, ps, ms := Utf16.Scalars(key), Utf16.Scalars(pattern), Utf16.Scalars(Middle(prefix, kind));
    var vs, gs := Utf16.Scalars(RedisKeys.VERSION), Utf16.Scalars(TagPart(key));
    MarksOnTheWire(key);
    MarksOnTheWire(pattern);
    TagPartIsAscii(key);
    AsciiMarks(TagPart(key));
    ListedIff(server, prefix, kind, key, pattern);
    BuildScalars(prefix, kind, key);
    hide Utf16.WellFormed, Utf16.Scalars, Listed, GlobText, Tokens, TagPart, Middle, Marks;
    MarksConcat(vs, gs + (ms + ks));
    MarksConcat(gs, ms + ks);
    MarksConcat(ms, ks);
    MarksOfTokens(vs, true);
    MarksOfTokens(ms, true);
    MarksOfTokens(ps, false);
    var last := Lits(Middle(prefix, kind)) + Tokens(ps, false);
    MarkTokensConcat(Lits(RedisKeys.VERSION), [Any] + last);
    MarkTokensConcat([Any], last);
    MarkTokensConcat(Lits(Middle(prefix, kind)), Tokens(ps, false));
    assert MarkTokens([Any]) == 0 by { assert [Any][1..] == []; }
    if Listed(server, prefix, kind, key, pattern) {
      MarksNeeded(Utf16.Scalars(RedisKeys.Build(prefix, kind, key)), PatternTokens(prefix, kind, pattern));
    }
  }

  function Dropped(s: Text, i: nat): Text
    requires i < |s|
  {
    s[..i] + s[i + 1..]
  }

  /** What a `*` matches may lose a unit. */
  lemma DropInGap(value: Text, k: nat, i: nat, pattern: Text)
    requires i < k <= |value| && pattern != [] && pattern[0] == Pattern.STAR
    requires Pattern.Clean(value[..k]) && Pattern.Glob(value[k..], pattern[1..])
    ensures Pattern.Glob(Dropped(value, i), pattern)
  {
    var shorter := Dropped(value, i);
    var gap := shorter[..k - 1];
    forall j | 0 <= j < |gap| ensures !Pattern.IsLineTerminator(gap[j]) {
      assert gap[j] == value[..k][if j < i then j else j + 1];
    }
    assert shorter[k - 1..] == value[k..];
  }

  /** So may what follows it, or follows a literal. */
  lemma DropAfterGap(value: Text, k: nat, i: nat, pattern: Text)
    requires k + i < |value| && pattern != [] && pattern[0] == Pattern.STAR
    requires Pattern.Clean(value[..k]) && Pattern.Glob(Dropped(value[k..], i), pattern[1..])
    ensures Pattern.Glob(Dropped(value, k + i), pattern)
  {
    var shorter := Dropped(value, k + i);
    assert shorter[..k] == value[..k] && shorter[k..] == Dropped(value[k..], i);
  }

  lemma DropAfterUnit(value: Text, i: nat, pattern: Text)
    requires 1 + i < |value| && pattern != [] && pattern[0] != Pattern.STAR
    requires value[0] == pattern[0] && Pattern.Glob(Dropped(value[1..], i), pattern[1..])
    ensures Pattern.Glob(Dropped(value, 1 + i), pattern)
  {
    var shorter := Dropped(value, 1 + i);
    assert shorter[0] == value[0] && shorter[1..] == Dropped(value[1..], i);
  }

  lemma GlobGap(value: Text, pattern: Text) returns (k: nat)
    requires pattern != [] && pattern[0] == Pattern.STAR && Pattern.Glob(value, pattern)
    ensures k <= |value| && Pattern.Clean(value[..k]) && Pattern.Glob(value[k..], pattern[1..])
  {
    k :| 0 <= k <= |value| && Pattern.Clean(value[..k]) && Pattern.Glob(value[k..], pattern[1..]);
  }

  lemma GlobUnit(value: Text, pattern: Text)
    requires Pattern.Glob(value, pattern) && Marks(pattern) < Marks(value)
    ensures pattern != []
    ensures pattern[0] != Pattern.STAR ==> value != [] && value[0] == pattern[0] && Pattern.Glob(value[1..], pattern[1..])
    ensures pattern[0] != Pattern.STAR ==> Marks(pattern[1..]) < Marks(value[1..])
    ensures pattern[0] == Pattern.STAR ==> Marks(pattern[1..]) == Marks(pattern)
  {
  }

  lemma MarkInGap(value: Text, k: nat) returns (i: nat)
    requires k <= |value|
    ensures i < k ==> value[i] == REPLACEMENT
    ensures k <= i ==> Marks(value[k..]) == Marks(value)
  {
    if j: nat :| j < k && value[j] == REPLACEMENT {
      i := j;
    } else {
      i := k;
      NoMarks(value[..k]);
      MarksConcat(value[..k], value[k..]);
      assert value == value[..k] + value[k..];
    }
  }

  /** One of the replacement characters that only a `*` matches may go. */
  lemma {:induction false} SpareMark(value: Text, pattern: Text) returns (i: nat)
    requires Pattern.Glob(value, pattern) && Marks(pattern) < Marks(value)
    ensures i < |value| && value[i] == REPLACEMENT && Pattern.Glob(Dropped(value, i), pattern)
    decreases |pattern|, 1
  {
    GlobUnit(value, pattern);
    hide Dropped, Pattern.Clean, Pattern.Glob, Marks;
    if pattern[0] == Pattern.STAR {
      i := SpareMarkAtStar(value, pattern);
    } else {
      i := SpareMark(value[1..], pattern[1..]);
      DropAfterUnit(value, i, pattern);
      i := 1 + i;
    }
  }

  lemma {:induction false} SpareMarkAtStar(value: Text, pattern: Text) returns (i: nat)
    requires Pattern.Glob(value, pattern) && pattern != [] && pattern[0] == Pattern.STAR && Marks(pattern[1..]) < Marks(value)
    ensures i < |value| && value[i] == REPLACEMENT && Pattern.Glob(Dropped(value, i), pattern)
    decreases |pattern|, 0
  {
    var k := GlobGap(value, pattern);
    hide Dropped, Pattern.Clean, Pattern.Glob, Marks;
    i := MarkInGap(value, k);
    if i < k {
      DropInGap(value, k, i, pattern);
    } else {
      i := SpareMark(value[k..], pattern[1..]);
      DropAfterGap(value, k, i, pattern);
      i := k + i;
    }
  }

  lemma {:induction false} NoMarks(s: seq<int>)
    requires forall i | 0 <= i < |s| :: s[i] != REPLACEMENT
    ensures Marks(s) == 0
  {
    if s != [] { NoMarks(s[1..]); }
  }

  lemma {:induction false} StaysWellFormed(s: Text, i: nat)
    requires Utf16.WellFormed(s) && i < |s| && s[i] == REPLACEMENT
    ensures Utf16.WellFormed(Dropped(s, i))
  {
    var n := Utf16.Width(s);
    if i == 0 {
      assert Dropped(s, 0) == s[1..];
    } else {
      assert n <= i && Utf16.WellFormed(s[n..]);
      assert Utf16.WellFormed(s[..n]) by { assert s[..n][n..] == []; }
      hide Utf16.WellFormed, Utf16.Width;
      StaysWellFormed(s[n..], i - n);
      RedisKeys.WellFormedConcat(s[..n], Dropped(s[n..], i - n));
      assert Dropped(s, i) == s[..n] + Dropped(s[n..], i - n);
    }
  }

  /** Some matching key has no more of them than the pattern. */
  lemma {:induction false} ThinKey(key: Text, pattern: Text) returns (thin: Text)
    requires Utf16.WellFormed(key) && Pattern.Glob(key, pattern)
    ensures Utf16.WellFormed(thin) && Pattern.Glob(thin, pattern) && Marks(thin) <= Marks(pattern)
    decreases |key|
  {
    if Marks(key) <= Marks(pattern) {
      thin := key;
    } else {
      var i := SpareMark(key, pattern);
      StaysWellFormed(key, i);
      thin := ThinKey(Dropped(key, i), pattern);
    }
  }

  /** A pattern makes the server pass by a well-formed key that the store's matcher accepts exactly
      when the pattern is ill-formed and the matcher accepts any such key at all. */
  lemma PatternLosesIff(server: Server, prefix: Text, kind: RedisKeys.Kind, pattern: Text)
    requires Utf16.WellFormed(prefix)
    ensures (exists key: Text :: Utf16.WellFormed(key) && Pattern.Matches(key, pattern) && !Listed(server, prefix, kind, key, pattern)) <==>
            !Utf16.WellFormed(pattern) && exists key: Text :: Utf16.WellFormed(key) && Pattern.Matches(key, pattern)
  {
    hide Listed, Pattern.Glob;
    if Utf16.WellFormed(pattern) {
      hide Pattern.Matches, Utf16.WellFormed;
      forall key: Text | Utf16.WellFormed(key) && Pattern.Matches(key, pattern) ensures Listed(server, prefix, kind, key, pattern) {
        ScanLosesNothing(server, prefix, kind, key, pattern);
      }
    } else if key: Text :| Utf16.WellFormed(key) && Pattern.Matches(key, pattern) {
      assert pattern != [Pattern.STAR] by { StarBytes(); }
      var thin := ThinKey(key, pattern);
      FewMarksAreNotListed(server, prefix, kind, thin, pattern);
      assert Pattern.Matches(thin, pattern);
    }
  }

  /** The least such case: a pair, and a pattern that asks for its second half. */
  lemma HalfPairIsPassedBy(server: Server, prefix: Text, kind: RedisKeys.Kind, high: Unit, low: Unit)
    requires Utf16.WellFormed(prefix) && Utf16.IsHigh(high) && Utf16.IsLow(low)
    ensures var key, pattern := [high, low], [Pattern.STAR, low];
      Utf16.WellFormed(key) && Pattern.Matches(key, pattern) && !Listed(server, prefix, kind, key, pattern)
  {
    var key, pattern := [high, low], [Pattern.STAR, low];
    assert key[2..] == [] && pattern[1..] == [low] && [low][1..] == [];
    assert Pattern.Glob([], []) && Pattern.Glob([low], [low]);
    assert key[1..] == [low] && Pattern.Clean(key[..1]);
    NoMarks(key);
    FewMarksAreNotListed(server, prefix, kind, key, pattern);
  }
}
