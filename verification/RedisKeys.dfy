/** The v2 key layout of `RedisStore`: `lazy-layers:v2:{tag}:prefix[__lock:]key`, where the tag
    is the percent-encoded key. Building and parsing are proved inverse, and it is characterised
    exactly which stores and keys may collide. */
module RedisKeys {
  import opened Common
  import Utf8
  import Utf16

  type Text = seq<Unit>

  const VERSION: Text := [0x6C, 0x61, 0x7A, 0x79, 0x2D, 0x6C, 0x61, 0x79, 0x65, 0x72, 0x73, 0x3A, 0x76, 0x32, 0x3A]
  const LOCK_MARK: Text := [0x5F, 0x5F, 0x6C, 0x6F, 0x63, 0x6B, 0x3A]
  const UTF16_MARK: Text := [0x75, 0x74, 0x66, 0x31, 0x36, 0x3A]
  const OPEN: Unit := 0x7B
  const CLOSE: Unit := 0x7D
  const COLON: Unit := 0x3A
  const PERCENT: Unit := 0x25
  const UNDERSCORE: Unit := 0x5F

  // ---------- Section 2.1 of RFC 3986 ----------

  /** What `encodeURIComponent` leaves alone. */
  predicate IsUnescaped(b: int) {
    || 0x41 <= b <= 0x5A || 0x61 <= b <= 0x7A || 0x30 <= b <= 0x39
    || b == 0x2D || b == 0x5F || b == 0x2E || b == 0x21 || b == 0x7E || b == 0x2A || 0x27 <= b <= 0x29
  }

  function UpperHex(d: nat): (u: Unit)
    requires d < 16
    ensures IsUnescaped(u)
  {
    if d < 10 then 0x30 + d else 0x41 + d - 10
  }

  function PctOctet(b: Byte): (t: Text)
    ensures t != []
  {
    if IsUnescaped(b) then [b] else [PERCENT, UpperHex(b / 16), UpperHex(b % 16)]
  }

  function PctEncode(octets: seq<Byte>): Text {
    if octets == [] then [] else PctOctet(octets[0]) + PctEncode(octets[1..])
  }

  /** Percent-encoding loses nothing. */
  lemma {:induction false} PctEncodeInjective(a: seq<Byte>, b: seq<Byte>)
    requires PctEncode(a) == PctEncode(b)
    ensures a == b
  {
    if a != [] && b != [] {
      var x, y := PctOctet(a[0]), PctOctet(b[0]);
      assert PctEncode(a)[0] == x[0] == y[0] == PctEncode(b)[0];
      if x[0] == PERCENT {
        assert PctEncode(a)[1] == x[1] && PctEncode(b)[1] == y[1] && PctEncode(a)[2] == x[2] && PctEncode(b)[2] == y[2];
        assert a[0] / 16 == b[0] / 16 && a[0] % 16 == b[0] % 16;
      }
      assert a[0] == b[0];
      assert PctEncode(a)[|x|..] == PctEncode(a[1..]) && PctEncode(b)[|x|..] == PctEncode(b[1..]);
      PctEncodeInjective(a[1..], b[1..]);
    }
  }

  predicate IsTagUnit(u: Unit) {
    u == PERCENT || IsUnescaped(u)
  }

  lemma {:induction false} PctEncodeUnits(octets: seq<Byte>)
    ensures forall i | 0 <= i < |PctEncode(octets)| :: IsTagUnit(PctEncode(octets)[i])
  {
    if octets != [] { PctEncodeUnits(octets[1..]); }
  }

  // ---------- base64url ----------

  function Symbol(n: nat): (u: Unit)
    requires n < 64
    ensures IsUnescaped(u)
  {
    if n < 26 then 0x41 + n
    else if n < 52 then 0x61 + n - 26
    else if n < 62 then 0x30 + n - 52
    else if n == 62 then 0x2D
    else 0x5F
  }

  /** `toString('base64url')`: no padding. */
  function Base64(b: seq<Byte>): Text {
    if b == [] then []
    else if |b| == 1 then [Symbol(b[0] / 4), Symbol(b[0] % 4 * 16)]
    else if |b| == 2 then [Symbol(b[0] / 4), Symbol(b[0] % 4 * 16 + b[1] / 16), Symbol(b[1] % 16 * 4)]
    else [Symbol(b[0] / 4), Symbol(b[0] % 4 * 16 + b[1] / 16), Symbol(b[1] % 16 * 4 + b[2] / 64), Symbol(b[2] % 64)] + Base64(b[3..])
  }

  lemma SymbolInjective(m: nat, n: nat)
    requires m < 64 && n < 64 && Symbol(m) == Symbol(n)
    ensures m == n
  {
  }

  lemma {:induction false} Base64Length(b: seq<Byte>)
    ensures |Base64(b)| == |b| / 3 * 4 + (if |b| % 3 == 0 then 0 else |b| % 3 + 1)
    ensures forall i | 0 <= i < |Base64(b)| :: IsUnescaped(Base64(b)[i])
  {
    if 3 <= |b| { Base64Length(b[3..]); }
  }

  /** Two groups of up to three octets with the same symbols are the same. */
  lemma GroupInjective(a0: Byte, a1: Byte, b0: Byte, b1: Byte)
    requires Symbol(a0 / 4) == Symbol(b0 / 4) && Symbol(a0 % 4 * 16 + a1 / 16) == Symbol(b0 % 4 * 16 + b1 / 16)
    ensures a0 == b0 && a1 / 16 == b1 / 16
  {
    SymbolInjective(a0 / 4, b0 / 4);
    SymbolInjective(a0 % 4 * 16 + a1 / 16, b0 % 4 * 16 + b1 / 16);
    assert (a0 % 4 * 16 + a1 / 16) / 16 == a0 % 4 && (b0 % 4 * 16 + b1 / 16) / 16 == b0 % 4;
  }

  lemma GroupTail(a1: Byte, a2: Byte, b1: Byte, b2: Byte)
    requires a1 / 16 == b1 / 16
    requires Symbol(a1 % 16 * 4 + a2 / 64) == Symbol(b1 % 16 * 4 + b2 / 64) && Symbol(a2 % 64) == Symbol(b2 % 64)
    ensures a1 == b1 && a2 == b2
  {
    SymbolInjective(a1 % 16 * 4 + a2 / 64, b1 % 16 * 4 + b2 / 64);
    SymbolInjective(a2 % 64, b2 % 64);
    assert (a1 % 16 * 4 + a2 / 64) / 4 == a1 % 16 && (b1 % 16 * 4 + b2 / 64) / 4 == b1 % 16;
  }

  lemma SameLength(a: seq<Byte>, b: seq<Byte>)
    requires |Base64(a)| == |Base64(b)|
    ensures |a| == |b|
  {
    Base64Length(a);
    Base64Length(b);
  }

  lemma {:induction false} Base64Injective(a: seq<Byte>, b: seq<Byte>)
    requires Base64(a) == Base64(b)
    ensures a == b
  {
    SameLength(a, b);
    hide Symbol;
    var x, y := Base64(a), Base64(b);
    if |a| == 1 {
      assert x[0] == y[0] && x[1] == y[1];
      GroupInjective(a[0], 0, b[0], 0);
    } else if |a| == 2 {
      assert x[0] == y[0] && x[1] == y[1] && x[2] == y[2];
      GroupInjective(a[0], a[1], b[0], b[1]);
      GroupTail(a[1], 0, b[1], 0);
    } else if 3 <= |a| {
      assert x[0] == y[0] && x[1] == y[1] && x[2] == y[2] && x[3] == y[3];
      GroupInjective(a[0], a[1], b[0], b[1]);
      GroupTail(a[1], a[2], b[1], b[2]);
      assert x[4..] == Base64(a[3..]) && y[4..] == Base64(b[3..]);
      Base64Injective(a[3..], b[3..]);
      assert a == a[..3] + a[3..] && b == b[..3] + b[3..];
    }
  }

  /** `Buffer.from(s, 'utf16le')`. */
  function LittleEndian(s: Text): seq<Byte> {
    if s == [] then [] else [s[0] % 0x100, s[0] / 0x100] + LittleEndian(s[1..])
  }

  lemma {:induction false} LittleEndianInjective(a: Text, b: Text)
    requires LittleEndian(a) == LittleEndian(b)
    ensures a == b
  {
    if a != [] && b != [] {
      var x, y := LittleEndian(a), LittleEndian(b);
      assert x[0] == y[0] && x[1] == y[1];
      assert x[2..] == LittleEndian(a[1..]) && y[2..] == LittleEndian(b[1..]);
      LittleEndianInjective(a[1..], b[1..]);
    }
  }

  // ---------- Slot tags ----------

  /** `toSlotTag`: `encodeURIComponent` throws on an unpaired surrogate. */
  function SlotTag(key: Text): Text {
    if Utf16.WellFormed(key) then
      var tag := PctEncode(Utf16.Bytes(key));
      if tag == [] then [UNDERSCORE] else tag
    else UTF16_MARK + Base64(LittleEndian(key))
  }

  /** A well-formed text can be read back from its scalar values. */
  lemma {:induction false} ScalarsInjective(a: Text, b: Text)
    requires Utf16.WellFormed(a) && Utf16.WellFormed(b) && Utf16.Scalars(a) == Utf16.Scalars(b)
    ensures a == b
  {
    if a != [] && b != [] {
      var m, n := Utf16.Width(a), Utf16.Width(b);
      assert Utf16.First(a) == Utf16.Scalars(a)[0] == Utf16.Scalars(b)[0] == Utf16.First(b);
      assert Utf16.Scalars(a)[1..] == Utf16.Scalars(a[m..]) && Utf16.Scalars(b)[1..] == Utf16.Scalars(b[n..]);
      FirstDetermines(a, b);
      ScalarsInjective(a[m..], b[n..]);
      assert a == a[..m] + a[m..] && b == b[..n] + b[n..];
    }
  }

  lemma FirstDetermines(a: Text, b: Text)
    requires a != [] && b != [] && Utf16.First(a) == Utf16.First(b)
    requires Utf16.Width(a) == 2 || !Utf16.IsSurrogate(a[0])
    requires Utf16.Width(b) == 2 || !Utf16.IsSurrogate(b[0])
    ensures Utf16.Width(a) == Utf16.Width(b) && a[..Utf16.Width(a)] == b[..Utf16.Width(b)]
  {
    if Utf16.Width(a) == 2 {
      var x: int, y: int, u: int, v: int := a[0], a[1], b[0], b[1];
      assert (x - 0xD800) * 0x400 + (y - 0xDC00) == (u - 0xD800) * 0x400 + (v - 0xDC00);
    }
  }

  predicate NoDelimiter(s: Text) {
    forall i | 0 <= i < |s| :: s[i] != OPEN && s[i] != CLOSE
  }

  predicate Colonless(s: Text) {
    forall i | 0 <= i < |s| :: s[i] != COLON
  }

  lemma TagUnits(key: Text)
    ensures SlotTag(key) != [] && NoDelimiter(SlotTag(key))
    ensures Utf16.WellFormed(key) <==> Colonless(SlotTag(key))
  {
    if Utf16.WellFormed(key) {
      PctEncodeUnits(Utf16.Bytes(key));
    } else {
      Base64Length(LittleEndian(key));
      assert SlotTag(key)[5] == COLON;
    }
  }

  /** The tag tells the key, except that the empty key and `_` share one. */
  lemma TagDeterminesKey(a: Text, b: Text)
    requires SlotTag(a) == SlotTag(b)
    ensures a == b || (a == [] && b == [UNDERSCORE]) || (a == [UNDERSCORE] && b == [])
  {
    TagUnits(a);
    TagUnits(b);
    if Utf16.WellFormed(a) {
      UnderscoreTag();
      if a == [] {
        EncodesTo(b, [UNDERSCORE]);
      } else if b == [] {
        EncodesTo(a, [UNDERSCORE]);
      } else {
        NonEmptyTag(a);
        NonEmptyTag(b);
        EncodesTo(a, b);
      }
    } else {
      assert SlotTag(a)[6..] == Base64(LittleEndian(a)) && SlotTag(b)[6..] == Base64(LittleEndian(b));
      Base64Injective(LittleEndian(a), LittleEndian(b));
      LittleEndianInjective(a, b);
    }
  }

  lemma NonEmptyTag(key: Text)
    requires Utf16.WellFormed(key)
    ensures key != [] <==> PctEncode(Utf16.Bytes(key)) != []
  {
    if key != [] { Utf16.ByteLengthIsExact(key); }
  }

  lemma UnderscoreTag()
    ensures Utf16.WellFormed([UNDERSCORE]) && PctEncode(Utf16.Bytes([UNDERSCORE])) == [UNDERSCORE]
    ensures SlotTag([]) == SlotTag([UNDERSCORE]) == [UNDERSCORE]
  {
    var one: Text := [UNDERSCORE];
    assert one[1..] == [];
    assert Utf16.Scalars(one) == [0x5F];
    assert [0x5F as Utf8.Scalar][1..] == [];
    assert Utf16.Bytes(one) == [0x5F];
    assert [0x5F as Byte][1..] == [];
  }

  lemma EncodesTo(a: Text, b: Text)
    requires Utf16.WellFormed(a) && Utf16.WellFormed(b)
    ensures PctEncode(Utf16.Bytes(a)) == PctEncode(Utf16.Bytes(b)) <==> a == b
  {
    if PctEncode(Utf16.Bytes(a)) == PctEncode(Utf16.Bytes(b)) {
      PctEncodeInjective(Utf16.Bytes(a), Utf16.Bytes(b));
      Utf8.EncodeAllInjective(Utf16.Scalars(a), Utf16.Scalars(b));
      ScalarsInjective(a, b);
    }
  }

  // ---------- Building and parsing ----------

  datatype Kind = Data | Lock

  function Mark(kind: Kind): Text {
    if kind == Data then [] else LOCK_MARK
  }

  /** `toRedisKey` and `toLockKey`. */
  function Build(prefix: Text, kind: Kind, key: Text): Text {
    Shell(key, prefix + Mark(kind) + key)
  }

  function Shell(key: Text, suffix: Text): Text {
    VERSION + [OPEN] + SlotTag(key) + [CLOSE, COLON] + suffix
  }

  function StartsWith(s: Text, p: Text): bool {
    |p| <= |s| && s[..|p|] == p
  }

  /** `indexOf('}:', from)`. */
  function TagEnd(s: Text, from: nat): Option<nat>
    decreases |s| - from
  {
    if |s| < from + 2 then None
    else if s[from] == CLOSE && s[from + 1] == COLON then Some(from)
    else TagEnd(s, from + 1)
  }

  datatype Parsed = Parsed(kind: Kind, key: Text)

  /** `parseRedisKey` in the v2 layout. */
  function Parse(prefix: Text, indexKey: Text, redisKey: Text): Option<Parsed> {
    if redisKey == indexKey then None
    else if !StartsWith(redisKey, VERSION + [OPEN]) then None
    else
      var end := TagEnd(redisKey, |VERSION|);
      if end == None || |redisKey| < end.value + 2 then None
      else
        var suffix := redisKey[end.value + 2..];
        if !StartsWith(suffix, prefix) then None
        else
          var key := suffix[|prefix|..];
          if Build(prefix, Data, key) == redisKey then Some(Parsed(Data, key))
          else if !StartsWith(key, LOCK_MARK) then None
          else if Build(prefix, Lock, key[|LOCK_MARK|..]) == redisKey then Some(Parsed(Lock, key[|LOCK_MARK|..]))
          else None
  }

  lemma {:induction false} TagEndAfter(s: Text, from: nat, end: nat)
    requires from <= end && end + 2 <= |s| && s[end] == CLOSE && s[end + 1] == COLON
    requires forall i | from <= i < end :: s[i] != CLOSE
    ensures TagEnd(s, from) == Some(end)
    decreases end - from
  {
    if from < end { TagEndAfter(s, from + 1, end); }
  }

  lemma ShellUnits(key: Text, suffix: Text)
    ensures var s, end := Shell(key, suffix), |VERSION| + 1 + |SlotTag(key)|;
      && |s| == end + 2 + |suffix| && s[..|VERSION| + 1] == VERSION + [OPEN] && s[|VERSION|] == OPEN
      && s[|VERSION| + 1..end] == SlotTag(key) && s[end] == CLOSE && s[end + 1] == COLON && s[end + 2..] == suffix
  {
    hide SlotTag;
    var tag, s, end := SlotTag(key), Shell(key, suffix), |VERSION| + 1 + |SlotTag(key)|;
    var head := VERSION + [OPEN];
    assert s == head + tag + [CLOSE, COLON] + suffix;
    assert s[|head|..end] == tag;
  }

  /** The parts of a built key. */
  lemma ShellParts(key: Text, suffix: Text)
    ensures var s, end := Shell(key, suffix), |VERSION| + 1 + |SlotTag(key)|;
      && StartsWith(s, VERSION + [OPEN]) && TagEnd(s, |VERSION|) == Some(end) && end + 2 <= |s|
      && s[|VERSION| + 1..end] == SlotTag(key) && s[end + 2..] == suffix
  {
    var s, end := Shell(key, suffix), |VERSION| + 1 + |SlotTag(key)|;
    ShellUnits(key, suffix);
    TagUnits(key);
    hide Shell, SlotTag;
    forall i | |VERSION| <= i < end ensures s[i] != CLOSE {
      if |VERSION| < i { assert s[i] == s[|VERSION| + 1..end][i - |VERSION| - 1]; }
    }
    TagEndAfter(s, |VERSION|, end);
  }

  lemma BuildParts(prefix: Text, kind: Kind, key: Text)
    ensures var s, end := Build(prefix, kind, key), |VERSION| + 1 + |SlotTag(key)|;
      && StartsWith(s, VERSION + [OPEN]) && TagEnd(s, |VERSION|) == Some(end) && end + 2 <= |s|
      && s[|VERSION| + 1..end] == SlotTag(key) && s[end + 2..] == prefix + Mark(kind) + key
  {
    ShellParts(key, prefix + Mark(kind) + key);
  }

  /** A tag and a suffix make one key. */
  lemma ShellEqualIff(a: Text, x: Text, b: Text, y: Text)
    ensures Shell(a, x) == Shell(b, y) <==> SlotTag(a) == SlotTag(b) && x == y
  {
    ShellParts(a, x);
    ShellParts(b, y);
    hide SlotTag;
  }

  /** Built keys are equal exactly when their tags and their suffixes are. */
  lemma BuildEqualIff(p: Text, m: Kind, a: Text, q: Text, n: Kind, b: Text)
    ensures Build(p, m, a) == Build(q, n, b) <==> SlotTag(a) == SlotTag(b) && p + Mark(m) + a == q + Mark(n) + b
  {
    ShellEqualIff(a, p + Mark(m) + a, b, q + Mark(n) + b);
  }

  /** Within a store a data key is never a lock key. */
  lemma DataIsNotLock(prefix: Text, a: Text, b: Text)
    ensures Build(prefix, Data, a) != Build(prefix, Lock, b)
  {
    if Build(prefix, Data, a) == Build(prefix, Lock, b) {
      BuildEqualIff(prefix, Data, a, prefix, Lock, b);
      assert |prefix + Mark(Data) + a| == |prefix| + |a| && |prefix + Mark(Lock) + b| == |prefix| + 7 + |b|;
      TagDeterminesKey(a, b);
      assert false;
    }
  }

  /** Parsing inverts building, whatever the prefix and the key. */
  lemma ParseInvertsBuild(prefix: Text, indexKey: Text, kind: Kind, key: Text)
    requires Build(prefix, kind, key) != indexKey
    ensures Parse(prefix, indexKey, Build(prefix, kind, key)) == Some(Parsed(kind, key))
  {
    var s, rest := Build(prefix, kind, key), Mark(kind) + key;
    BuildParts(prefix, kind, key);
    assert prefix + Mark(kind) + key == prefix + rest;
    StartsWithPrefix(prefix, rest);
    if kind == Data {
      assert rest == key;
    } else {
      DataIsNotLock(prefix, rest, key);
      StartsWithPrefix(LOCK_MARK, key);
    }
    hide Build, TagEnd, StartsWith, SlotTag;
  }

  lemma StartsWithPrefix(p: Text, rest: Text)
    ensures StartsWith(p + rest, p) && (p + rest)[|p|..] == rest
  {
  }

  /** And nothing else parses. */
  lemma ParsedWasBuilt(prefix: Text, indexKey: Text, redisKey: Text)
    requires Parse(prefix, indexKey, redisKey) != None
    ensures var r := Parse(prefix, indexKey, redisKey).value; redisKey == Build(prefix, r.kind, r.key) && redisKey != indexKey
  {
  }

  /** Two stores meet on keys that are not empty exactly when one prefix and its mark spell the
      other; so for data keys only when the prefixes are equal. */
  lemma CollisionIff(p: Text, m: Kind, a: Text, q: Text, n: Kind, b: Text)
    requires a != [] && b != []
    ensures Build(p, m, a) == Build(q, n, b) <==> a == b && p + Mark(m) == q + Mark(n)
  {
    BuildEqualIff(p, m, a, q, n, b);
    if SlotTag(a) == SlotTag(b) { TagDeterminesKey(a, b); }
    if a == b { SuffixCancels(p + Mark(m), q + Mark(n), a); }
  }

  lemma SuffixCancels(x: Text, y: Text, s: Text)
    ensures x + s == y + s <==> x == y
  {
    if x + s == y + s {
      assert |x| == |y|;
      assert (x + s)[..|x|] == x && (y + s)[..|x|] == y;
    }
  }

  /** With prefixes none of which is another plus `__lock:`, (prefix, kind, key) is injective on
      keys that are not empty. */
  lemma BuildInjective(p: Text, m: Kind, a: Text, q: Text, n: Kind, b: Text)
    requires a != [] && b != [] && p != q + LOCK_MARK && q != p + LOCK_MARK
    requires Build(p, m, a) == Build(q, n, b)
    ensures p == q && m == n && a == b
  {
    CollisionIff(p, m, a, q, n, b);
    assert p + Mark(Data) == p && q + Mark(Data) == q;
    if m == Lock && n == Lock { SuffixCancels(p, q, LOCK_MARK); }
  }

  /** The empty key is the exception: it meets `_` in the store whose prefix is one `_` shorter. */
  lemma EmptyKeyCollides(prefix: Text, kind: Kind)
    ensures Build(prefix + Mark(kind) + [UNDERSCORE], Data, []) == Build(prefix, kind, [UNDERSCORE])
  {
    UnderscoreTag();
    var p := prefix + Mark(kind) + [UNDERSCORE];
    assert p + Mark(Data) + [] == prefix + Mark(kind) + [UNDERSCORE];
    BuildEqualIff(p, Data, [], prefix, kind, [UNDERSCORE]);
  }

  // ---------- Redis Cluster ----------

  /** The first unit at or after `from`. */
  function IndexOf(s: Text, u: Unit, from: nat): Option<nat>
    decreases |s| - from
  {
    if |s| <= from then None else if s[from] == u then Some(from) else IndexOf(s, u, from + 1)
  }

  /** What Redis Cluster hashes: what stands between the first `{` and the next `}`, unless empty. */
  function HashTag(s: Text): Text {
    var open := IndexOf(s, OPEN, 0);
    if open == None then s
    else
      var close := IndexOf(s, CLOSE, open.value + 1);
      if close == None || close.value <= open.value + 1 || |s| < close.value then s else s[open.value + 1..close.value]
  }

  lemma {:induction false} IndexOfFirst(s: Text, u: Unit, from: nat, at: nat)
    requires from <= at < |s| && s[at] == u && forall i | from <= i < at :: s[i] != u
    ensures IndexOf(s, u, from) == Some(at)
    decreases at - from
  {
    if from < at { IndexOfFirst(s, u, from + 1, at); }
  }

  /** A key's data and lock live in one slot, whatever braces the prefix and the key hold. */
  lemma SameSlot(prefix: Text, kind: Kind, key: Text)
    ensures HashTag(Build(prefix, kind, key)) == SlotTag(key)
  {
    var s, end := Build(prefix, kind, key), |VERSION| + 1 + |SlotTag(key)|;
    BuildParts(prefix, kind, key);
    TagUnits(key);
    forall i | 0 <= i < |VERSION| ensures s[i] != OPEN { assert s[i] == VERSION[i]; }
    IndexOfFirst(s, OPEN, 0, |VERSION|);
    forall i | |VERSION| + 1 <= i < end ensures s[i] != CLOSE { assert s[i] == s[|VERSION| + 1..end][i - |VERSION| - 1]; }
    IndexOfFirst(s, CLOSE, |VERSION| + 1, end);
  }

  // ---------- On the wire ----------

  /** Commands travel as UTF-8, where an unpaired surrogate becomes U+FFFD. */
  function Wire(s: Text): Text {
    if s == [] then []
    else
      var n := Utf16.Width(s);
      (if n == 1 && Utf16.IsSurrogate(s[0]) then [0xFFFD] else s[..n]) + Wire(s[n..])
  }

  lemma {:induction false} WireKeeps(s: Text)
    ensures Utf16.WellFormed(Wire(s))
    ensures Utf16.WellFormed(s) ==> Wire(s) == s
    ensures |Wire(s)| == |s|
  {
    if s != [] {
      var n := Utf16.Width(s);
      WireKeeps(s[n..]);
      var head: Text := if n == 1 && Utf16.IsSurrogate(s[0]) then [0xFFFD] else s[..n];
      assert Utf16.Width(head + Wire(s[n..])) == n;
      assert (head + Wire(s[n..]))[n..] == Wire(s[n..]);
    }
  }

  lemma {:induction false} WireAfter(a: Text, s: Text)
    requires Utf16.WellFormed(a)
    ensures Wire(a + s) == a + Wire(s)
  {
    if a == [] {
      assert a + s == s;
    } else {
      var n := Utf16.Width(a);
      assert Utf16.Width(a + s) == n && (a + s)[n..] == a[n..] + s && (a + s)[..n] == a[..n];
      assert Wire(a + s) == a[..n] + Wire(a[n..] + s);
      WireAfter(a[n..], s);
      hide Wire, Utf16.WellFormed;
      assert a == a[..n] + a[n..];
      assert a[..n] + (a[n..] + Wire(s)) == a + Wire(s);
    }
  }

  lemma WellFormedConcat(a: Text, b: Text)
    requires Utf16.WellFormed(a) && Utf16.WellFormed(b)
    ensures Utf16.WellFormed(a + b)
  {
    if a != [] { LastIsNotHigh(a); }
    Utf16.ByteLengthConcat(a, b);
  }

  lemma HeadIsWellFormed(head: Text, prefix: Text, mark: Text)
    requires Utf16.WellFormed(prefix)
    requires forall i | 0 <= i < |head| :: head[i] < 0x80
    requires forall i | 0 <= i < |mark| :: mark[i] < 0x80
    ensures Utf16.WellFormed(head + prefix + mark)
  {
    hide Utf16.WellFormed;
    Utf16.AsciiLength(head);
    Utf16.AsciiLength(mark);
    WellFormedConcat(head, prefix);
    WellFormedConcat(head + prefix, mark);
  }

  lemma WireOfBuild(prefix: Text, kind: Kind, key: Text)
    requires Utf16.WellFormed(prefix)
    ensures Wire(Build(prefix, kind, key)) == Shell(key, prefix + Mark(kind) + Wire(key))
  {
    TagIsAscii(key);
    hide SlotTag, Wire, Utf16.WellFormed;
    var head, mark := VERSION + [OPEN] + SlotTag(key) + [CLOSE, COLON], Mark(kind);
    HeadIsWellFormed(head, prefix, mark);
    hide Mark;
    Regroup(head, prefix, mark, key);
    WireAfter(head + prefix + mark, key);
    Regroup(head, prefix, mark, Wire(key));
  }

  lemma Regroup(a: Text, b: Text, c: Text, d: Text)
    ensures a + (b + c + d) == a + b + c + d
  {
  }

  lemma {:induction false} LastIsNotHigh(s: Text)
    requires Utf16.WellFormed(s) && s != []
    ensures !Utf16.IsHigh(s[|s| - 1])
  {
    var n := Utf16.Width(s);
    if n < |s| { LastIsNotHigh(s[n..]); }
  }

  lemma TagIsAscii(key: Text)
    ensures forall i | 0 <= i < |SlotTag(key)| :: SlotTag(key)[i] < 0x80
  {
    if Utf16.WellFormed(key) { PctEncodeUnits(Utf16.Bytes(key)); } else { Base64Length(LittleEndian(key)); }
  }

  /** A key that went to Redis and came back in a scan is recognised exactly when it holds no
      unpaired surrogate. */
  lemma WireParses(prefix: Text, indexKey: Text, kind: Kind, key: Text)
    requires Utf16.WellFormed(prefix) && Wire(Build(prefix, kind, key)) != indexKey
    ensures Parse(prefix, indexKey, Wire(Build(prefix, kind, key))) ==
      if Utf16.WellFormed(key) then Some(Parsed(kind, key)) else None
  {
    WireOfBuild(prefix, kind, key);
    WireKeeps(key);
    var s := Wire(Build(prefix, kind, key));
    if Utf16.WellFormed(key) {
      ParseInvertsBuild(prefix, indexKey, kind, key);
    } else if Parse(prefix, indexKey, s) != None {
      ParsedWasBuilt(prefix, indexKey, s);
      var r := Parse(prefix, indexKey, s).value;
      ForeignTag(prefix, kind, key, r.kind, r.key);
    }
  }

  /** The tag of an ill-formed key cannot be rebuilt from what the wire left of it. */
  lemma ForeignTag(prefix: Text, kind: Kind, key: Text, k: Kind, other: Text)
    requires !Utf16.WellFormed(key)
    ensures Shell(key, prefix + Mark(kind) + Wire(key)) != Build(prefix, k, other)
  {
    if Shell(key, prefix + Mark(kind) + Wire(key)) == Build(prefix, k, other) {
      ShellEqualIff(key, prefix + Mark(kind) + Wire(key), other, prefix + Mark(k) + other);
      TagDeterminesKey(key, other);
      UnderscoreTag();
      SuffixesDiffer(prefix, Mark(kind), Mark(k), key);
    }
  }

  lemma SuffixesDiffer(prefix: Text, m: Text, n: Text, key: Text)
    requires !Utf16.WellFormed(key) && (|m| == |n| ==> m == n)
    ensures prefix + m + Wire(key) != prefix + n + key
  {
    WireKeeps(key);
    var x, y := prefix + m + Wire(key), prefix + n + key;
    if m == n {
      assert x[|prefix + m|..] == Wire(key) && y[|prefix + n|..] == key;
    } else {
      assert |x| != |y|;
    }
  }
}
