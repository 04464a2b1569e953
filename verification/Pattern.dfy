/** The wildcard matcher: anchored literal segments found with Knuth-Morris-Pratt
    searches. It is proved equal to the recursive meaning of `*`, a gap of any length
    without line terminators. */
module Pattern {
  import opened Common

  const STAR: Unit := 42

  predicate IsLineTerminator(u: Unit) {
    u == 10 || u == 13 || u == 0x2028 || u == 0x2029
  }

  /** Free of line terminators. */
  predicate Clean(s: seq<Unit>) {
    forall i | 0 <= i < |s| :: !IsLineTerminator(s[i])
  }

  // ---------- Meaning ----------

  /** The pattern read left to right: `*` stands for any clean gap, every other unit for
      itself. */
  ghost predicate Glob(value: seq<Unit>, pattern: seq<Unit>)
    decreases |pattern|
  {
    if pattern == [] then value == []
    else if pattern[0] == STAR then
      exists k | 0 <= k <= |value| :: Clean(value[..k]) && Glob(value[k..], pattern[1..])
    else value != [] && value[0] == pattern[0] && Glob(value[1..], pattern[1..])
  }

  /** Exactly `*` matches everything, line terminators included. */
  ghost predicate Matches(value: seq<Unit>, pattern: seq<Unit>) {
    pattern == [STAR] || Glob(value, pattern)
  }

  // ---------- Segments ----------

  /** `split('*')`. */
  function Split(pattern: seq<Unit>): (parts: seq<seq<Unit>>)
    ensures parts != []
  {
    if pattern == [] then [[]]
    else
      var rest := Split(pattern[1..]);
      if pattern[0] == STAR then [[]] + rest else [[pattern[0]] + rest[0]] + rest[1..]
  }

  predicate Starless(parts: seq<seq<Unit>>) {
    forall p | p in parts :: STAR !in p
  }

  /** `*` followed by the first part, `*` and the next part, and so on. */
  function Tail(parts: seq<seq<Unit>>): seq<Unit> {
    if parts == [] then [] else [STAR] + (parts[0] + Tail(parts[1..]))
  }

  lemma {:induction false} SplitJoins(pattern: seq<Unit>)
    ensures Starless(Split(pattern)) && pattern == Split(pattern)[0] + Tail(Split(pattern)[1..])
    ensures |Split(pattern)| == 1 <==> STAR !in pattern
  {
    if pattern != [] {
      SplitJoins(pattern[1..]);
      var rest := Split(pattern[1..]);
      assert pattern == [pattern[0]] + pattern[1..];
      SplitStep(pattern[0], rest, pattern[1..]);
    }
  }

  /** One more unit before a text that is split. */
  lemma SplitStep(unit: Unit, rest: seq<seq<Unit>>, text: seq<Unit>)
    requires rest != [] && Starless(rest) && text == rest[0] + Tail(rest[1..])
    ensures Starless([[]] + rest)
    ensures unit == STAR ==> [unit] + text == [] + Tail(([[]] + rest)[1..])
    ensures var parts := [[unit] + rest[0]] + rest[1..];
      && [unit] + text == parts[0] + Tail(parts[1..])
      && (unit != STAR ==> Starless(parts))
  {
    assert ([[]] + rest)[1..] == rest;
    var parts := [[unit] + rest[0]] + rest[1..];
    assert parts[1..] == rest[1..];
    assert [unit] + text == ([unit] + rest[0]) + Tail(rest[1..]);
  }

  /** The segments `mids` occur in `u` in order, with clean gaps before, between and after. */
  ghost predicate Chain(u: seq<Unit>, mids: seq<seq<Unit>>)
    decreases |mids|
  {
    if mids == [] then Clean(u)
    else exists q | 0 <= q <= |u| - |mids[0]| ::
        Clean(u[..q]) && Occurs(u, mids[0], q) && Chain(u[q + |mids[0]|..], mids[1..])
  }

  /** `q` is where the first segment of a chain stands. */
  ghost predicate ChainFrom(u: seq<Unit>, mids: seq<seq<Unit>>, q: nat)
    requires mids != []
  {
    && q + |mids[0]| <= |u| && Clean(u[..q]) && Occurs(u, mids[0], q)
    && Chain(u[q + |mids[0]|..], mids[1..])
  }

  lemma ChainIff(u: seq<Unit>, mids: seq<seq<Unit>>)
    requires mids != []
    ensures Chain(u, mids) <==> exists q: nat :: ChainFrom(u, mids, q)
  {
    if Chain(u, mids) {
      var q :| 0 <= q <= |u| - |mids[0]| && Clean(u[..q]) && Occurs(u, mids[0], q) && Chain(u[q + |mids[0]|..], mids[1..]);
      assert ChainFrom(u, mids, q);
    }
    if q: nat :| ChainFrom(u, mids, q) {
      assert Occurs(u, mids[0], q) && 0 <= q <= |u| - |mids[0]|;
    }
  }

  lemma ChainNil(u: seq<Unit>)
    ensures Chain(u, []) <==> Clean(u)
  {
  }

  predicate Occurs(u: seq<Unit>, literal: seq<Unit>, at: int): (here: bool)
    ensures here ==> 0 <= at && at + |literal| <= |u|
  {
    0 <= at && at + |literal| <= |u| && u[at..at + |literal|] == literal
  }

  /** A leading literal consumes itself. */
  lemma {:induction false} GlobLiteral(value: seq<Unit>, literal: seq<Unit>, rest: seq<Unit>)
    requires STAR !in literal
    ensures Glob(value, literal + rest) <==> Occurs(value, literal, 0) && Glob(value[|literal|..], rest)
    decreases |literal|
  {
    if literal == [] {
      assert literal + rest == rest && value[0..] == value;
    } else {
      var pattern := literal + rest;
      assert pattern[0] == literal[0] && pattern[1..] == literal[1..] + rest;
      if value != [] && value[0] == literal[0] {
        GlobLiteral(value[1..], literal[1..], rest);
        if Occurs(value[1..], literal[1..], 0) {
          assert value[..|literal|] == [value[0]] + value[1..][..|literal| - 1];
          assert value[1..][|literal| - 1..] == value[|literal|..];
        }
        if Occurs(value, literal, 0) {
          assert value[1..][..|literal| - 1] == literal[1..];
        }
      }
    }
  }

  /** After the first segment: the last one is anchored at the end, the others form a chain. */
  lemma {:induction false} GlobTail(v: seq<Unit>, parts: seq<seq<Unit>>)
    requires parts != [] && Starless(parts)
    ensures var last := parts[|parts| - 1];
      Glob(v, Tail(parts)) <==>
        && Occurs(v, last, |v| - |last|)
        && Chain(v[..|v| - |last|], parts[..|parts| - 1])
    decreases |parts|
  {
    hide Clean, Occurs, Chain;
    var last := parts[|parts| - 1];
    var first := parts[0];
    var pattern := Tail(parts);
    assert pattern[0] == STAR && pattern[1..] == first + Tail(parts[1..]);
    forall k | 0 <= k <= |v|
      ensures Glob(v[k..], first + Tail(parts[1..])) <==>
        Occurs(v[k..], first, 0) && Glob(v[k..][|first|..], Tail(parts[1..]))
    {
      GlobLiteral(v[k..], first, Tail(parts[1..]));
    }
    if |parts| == 1 {
      LastSegment(v, last);
      assert parts[..|parts| - 1] == [] && Tail(parts[1..]) == [];
      if |last| <= |v| { ChainNil(v[..|v| - |last|]); }
    } else {
      forall k | 0 <= k <= |v| - |first|
        ensures TailAfter(v, parts, k)
      {
        GlobTail(v[k + |first|..], parts[1..]);
        assert parts[1..][..|parts| - 2] == parts[1..|parts| - 1];
      }
      MiddleSegment(v, parts);
    }
  }

  lemma LastSegment(v: seq<Unit>, last: seq<Unit>)
    ensures (exists k | 0 <= k <= |v| :: Clean(v[..k]) && Occurs(v[k..], last, 0) && v[k..][|last|..] == [])
       <==> Occurs(v, last, |v| - |last|) && Clean(v[..|v| - |last|])
  {
    if Occurs(v, last, |v| - |last|) {
      var k := |v| - |last|;
      assert v[k..][..|last|] == last && v[k..][|last|..] == [];
    }
    forall k | 0 <= k <= |v| && Clean(v[..k]) && Occurs(v[k..], last, 0) && v[k..][|last|..] == []
      ensures Occurs(v, last, |v| - |last|) && Clean(v[..|v| - |last|])
    {
      assert k == |v| - |last| && v[k..][..|last|] == v[k..];
    }
  }

  /** `GlobTail` for what follows a first segment placed at `k`. */
  ghost predicate TailAfter(v: seq<Unit>, parts: seq<seq<Unit>>, k: int)
    requires |parts| > 1 && 0 <= k <= |v| - |parts[0]|
  {
    var rest, last := v[k + |parts[0]|..], parts[|parts| - 1];
    Glob(rest, Tail(parts[1..])) <==>
      && Occurs(rest, last, |rest| - |last|)
      && Chain(rest[..|rest| - |last|], parts[1..|parts| - 1])
  }

  lemma MiddleSegment(v: seq<Unit>, parts: seq<seq<Unit>>)
    requires |parts| > 1
    requires forall k | 0 <= k <= |v| - |parts[0]| :: TailAfter(v, parts, k)
    ensures var last := parts[|parts| - 1];
      (exists k | 0 <= k <= |v| :: Clean(v[..k]) && Occurs(v[k..], parts[0], 0) && Glob(v[k..][|parts[0]|..], Tail(parts[1..])))
        <==> Occurs(v, last, |v| - |last|) && Chain(v[..|v| - |last|], parts[..|parts| - 1])
  {
    hide Glob, Chain, Clean, Occurs;
    var first, last := parts[0], parts[|parts| - 1];
    var mids := parts[..|parts| - 1];
    assert mids[0] == first && mids[1..] == parts[1..|parts| - 1];
    forall k | 0 <= k <= |v| && Clean(v[..k]) && Occurs(v[k..], first, 0) && Glob(v[k..][|first|..], Tail(parts[1..]))
      ensures Occurs(v, last, |v| - |last|) && Chain(v[..|v| - |last|], mids)
    {
      Regroup(v, k, first, last);
      assert TailAfter(v, parts, k);
      assert ChainFrom(v[..|v| - |last|], mids, k);
      ChainIff(v[..|v| - |last|], mids);
    }
    if Occurs(v, last, |v| - |last|) && Chain(v[..|v| - |last|], mids) {
      ChainIff(v[..|v| - |last|], mids);
      var k: nat :| ChainFrom(v[..|v| - |last|], mids, k);
      Regroup(v, k, first, last);
      assert TailAfter(v, parts, k);
    }
  }

  /** The same occurrences seen from `v`, from its suffixes and from its prefix. */
  lemma Regroup(v: seq<Unit>, k: nat, first: seq<Unit>, last: seq<Unit>)
    requires k <= |v|
    ensures Occurs(v[k..], first, 0) ==> k + |first| <= |v|
    ensures k + |first| <= |v| ==>
      var rest := v[k + |first|..];
      && v[k..][|first|..] == rest
      && (Occurs(rest, last, |rest| - |last|) ==> k + |first| + |last| <= |v|)
    ensures k + |first| + |last| <= |v| ==>
      var rest, n := v[k + |first|..], |v| - |last|;
      && (Occurs(v[k..], first, 0) <==> Occurs(v[..n], first, k))
      && (Occurs(rest, last, |rest| - |last|) <==> Occurs(v, last, n))
      && v[..n][..k] == v[..k]
      && v[..n][k + |first|..] == rest[..|rest| - |last|]
  {
    if k + |first| + |last| <= |v| {
      var rest, n := v[k + |first|..], |v| - |last|;
      assert v[..n][k..k + |first|] == v[k..][..|first|];
      assert rest[|rest| - |last|..] == v[n..];
    }
  }

  /** A pattern with at least one `*`, in terms of its segments. */
  lemma GlobSegments(value: seq<Unit>, pattern: seq<Unit>)
    requires STAR in pattern
    ensures var parts := Split(pattern);
      var first, last := parts[0], parts[|parts| - 1];
      |parts| >= 2 &&
      (Glob(value, pattern) <==>
        && Occurs(value, first, 0)
        && Occurs(value, last, |value| - |last|)
        && |first| <= |value| - |last|
        && Chain(value[|first|..|value| - |last|], parts[1..|parts| - 1]))
  {
    hide Glob, Chain, Split, Tail;
    SplitJoins(pattern);
    var parts := Split(pattern);
    var first, last := parts[0], parts[|parts| - 1];
    GlobLiteral(value, first, Tail(parts[1..]));
    if Occurs(value, first, 0) {
      var v := value[|first|..];
      GlobTail(v, parts[1..]);
      assert parts[1..][..|parts| - 2] == parts[1..|parts| - 1];
      if |first| <= |value| - |last| {
        assert v[|v| - |last|..] == value[|value| - |last|..];
        assert v[..|v| - |last|] == value[|first|..|value| - |last|];
      }
    }
  }

  lemma GlobWithoutStar(value: seq<Unit>, pattern: seq<Unit>)
    requires STAR !in pattern
    ensures Glob(value, pattern) <==> value == pattern
  {
    GlobLiteral(value, pattern, []);
    assert pattern + [] == pattern;
  }

  // ---------- Taking the leftmost occurrence loses no match ----------

  lemma ExtendGap(x: seq<Unit>, y: seq<Unit>, mids: seq<seq<Unit>>)
    requires Clean(x) && Chain(y, mids)
    ensures Chain(x + y, mids)
  {
    var u := x + y;
    if mids != [] {
      hide Chain;
      ChainIff(y, mids);
      var q: nat :| ChainFrom(y, mids, q);
      var p := |x| + q;
      assert u[..p] == x + y[..q];
      assert u[p..p + |mids[0]|] == y[q..q + |mids[0]|];
      assert u[p + |mids[0]|..] == y[q + |mids[0]|..];
      assert ChainFrom(u, mids, p);
      ChainIff(u, mids);
    }
  }

  /** The periodicity argument: two occurrences with a clean gap before the second force
      the literal itself to be clean, for its first terminator would be a later one. */
  lemma RepeatedLiteralIsClean(u: seq<Unit>, literal: seq<Unit>, f: nat, q: nat)
    requires f < q && Occurs(u, literal, f) && Occurs(u, literal, q) && Clean(u[..q])
    ensures Clean(literal)
  {
    forall t: nat ensures !FirstTerminator(literal, t) {
      if FirstTerminator(literal, t) {
        if f + t < q { GapUnit(u, literal, f, q, t); } else { PeriodShift(u, literal, f, q, t); }
      }
    }
    NoFirstTerminator(literal, |literal|);
  }

  lemma GapUnit(u: seq<Unit>, literal: seq<Unit>, f: nat, q: nat, t: nat)
    requires f + t < q <= |u| && t < |literal| && Occurs(u, literal, f) && Clean(u[..q])
    ensures !IsLineTerminator(literal[t])
  {
    assert u[..q][f + t] == u[f..f + |literal|][t];
  }

  lemma PeriodShift(u: seq<Unit>, literal: seq<Unit>, f: nat, q: nat, t: nat)
    requires f < q <= f + t && t < |literal| && Occurs(u, literal, f) && Occurs(u, literal, q)
    ensures literal[..t][t - (q - f)] == literal[t]
  {
    var earlier := t - (q - f);
    assert u[f + t] == u[f..f + |literal|][t];
    assert u[q + earlier] == u[q..q + |literal|][earlier];
  }

  predicate FirstTerminator(s: seq<Unit>, t: nat) {
    t < |s| && IsLineTerminator(s[t]) && Clean(s[..t])
  }

  lemma {:induction false} NoFirstTerminator(s: seq<Unit>, n: nat)
    requires n <= |s| && forall t: nat :: !FirstTerminator(s, t)
    ensures Clean(s[..n])
  {
    if n > 0 {
      NoFirstTerminator(s, n - 1);
      assert !FirstTerminator(s, n - 1);
      assert s[..n] == s[..n - 1] + [s[n - 1]];
    }
  }

  ghost predicate IsLeftmost(u: seq<Unit>, literal: seq<Unit>, f: nat) {
    Occurs(u, literal, f) && forall q: nat | q < f :: !Occurs(u, literal, q)
  }

  /** Committing to the leftmost occurrence is complete. */
  lemma LeftmostComplete(u: seq<Unit>, mids: seq<seq<Unit>>, f: nat)
    requires mids != [] && IsLeftmost(u, mids[0], f)
    ensures Chain(u, mids) <==> Clean(u[..f]) && Chain(u[f + |mids[0]|..], mids[1..])
  {
    hide Chain;
    var literal := mids[0];
    ChainIff(u, mids);
    if Clean(u[..f]) && Chain(u[f + |literal|..], mids[1..]) {
      assert ChainFrom(u, mids, f);
    }
    if Chain(u, mids) {
      var q: nat :| ChainFrom(u, mids, q);
      assert u[..f] == u[..q][..f];
      if f < q {
        RepeatedLiteralIsClean(u, literal, f, q);
        var x := u[f + |literal|..q + |literal|];
        CleanGap(u, literal, f + |literal|, q);
        ExtendGap(x, u[q + |literal|..], mids[1..]);
        assert x + u[q + |literal|..] == u[f + |literal|..];
      }
    }
  }

  lemma CleanGap(u: seq<Unit>, literal: seq<Unit>, from: nat, q: nat)
    requires Occurs(u, literal, q) && Clean(u[..q]) && Clean(literal) && from <= q + |literal|
    ensures Clean(u[from..q + |literal|])
  {
    forall i | from <= i < q + |literal| ensures !IsLineTerminator(u[i]) {
      if i < q { assert u[..q][i] == u[i]; } else { assert u[q..q + |literal|][i - q] == u[i]; }
    }
  }

  /** The segments stand one after the other in `w`, whatever is between them. */
  ghost predicate Placed(w: seq<Unit>, mids: seq<seq<Unit>>)
    decreases |mids|
  {
    mids == [] || exists q: nat :: Occurs(w, mids[0], q) && Placed(w[q + |mids[0]|..], mids[1..])
  }

  lemma PlacedGrows(x: seq<Unit>, y: seq<Unit>, mids: seq<seq<Unit>>)
    requires Placed(y, mids)
    ensures Placed(x + y, mids)
  {
    if mids != [] {
      var q: nat :| Occurs(y, mids[0], q) && Placed(y[q + |mids[0]|..], mids[1..]);
      PlacedAfter(x + y, mids, |x| + q, y[q + |mids[0]|..]);
    }
  }

  lemma PlacedAfter(w: seq<Unit>, mids: seq<seq<Unit>>, q: nat, rest: seq<Unit>)
    requires mids != [] && q + |mids[0]| <= |w| && w[q..q + |mids[0]|] == mids[0]
    requires w[q + |mids[0]|..] == rest && Placed(rest, mids[1..])
    ensures Placed(w, mids)
  {
    assert w[q..][..|mids[0]|] == w[q..q + |mids[0]|];
    assert Occurs(w, mids[0], q);
  }

  lemma {:induction false} LeftmostExists(u: seq<Unit>, literal: seq<Unit>, q: nat) returns (f: nat)
    requires Occurs(u, literal, q)
    ensures IsLeftmost(u, literal, f) && f <= q
    decreases q
  {
    if p: nat :| p < q && Occurs(u, literal, p) {
      f := LeftmostExists(u, literal, p);
    } else {
      f := q;
    }
  }

  /** When the segments already stand in `w`, a chain through `w + key` leaves all of `key` to the
      last gap. */
  lemma {:induction false} KeyIsGap(w: seq<Unit>, key: seq<Unit>, mids: seq<seq<Unit>>)
    requires Placed(w, mids) && Chain(w + key, mids)
    ensures Clean(key)
    decreases |mids|
  {
    if mids == [] {
      forall i | 0 <= i < |key| ensures !IsLineTerminator(key[i]) { assert (w + key)[|w| + i] == key[i]; }
    } else {
      var u, n := w + key, |mids[0]|;
      var q: nat :| Occurs(w, mids[0], q) && Placed(w[q + n..], mids[1..]);
      assert u[q..][..n] == w[q..][..n];
      var f := LeftmostExists(u, mids[0], q);
      LeftmostComplete(u, mids, f);
      PlacedGrows(w[f + n..q + n], w[q + n..], mids[1..]);
      assert w[f + n..q + n] + w[q + n..] == w[f + n..] && u[f + n..] == w[f + n..] + key;
      KeyIsGap(w[f + n..], key, mids[1..]);
    }
  }

  lemma {:induction false} TailPlaced(parts: seq<seq<Unit>>)
    requires parts != [] && parts[|parts| - 1] == []
    ensures var t := Tail(parts); t != [] && t[|t| - 1] == STAR && Placed(t[..|t| - 1], parts[..|parts| - 1])
    decreases |parts|
  {
    var t := Tail(parts);
    if |parts| > 1 {
      var rest := Tail(parts[1..]);
      TailPlaced(parts[1..]);
      assert t == [STAR] + (parts[0] + rest) && parts[..|parts| - 1][1..] == parts[1..][..|parts| - 2];
      var w := t[..|t| - 1];
      assert w == [STAR] + parts[0] + rest[..|rest| - 1];
      assert w[1..1 + |parts[0]|] == parts[0] && w[1 + |parts[0]|..] == rest[..|rest| - 1];
      PlacedAfter(t[..|t| - 1], parts[..|parts| - 1], 1, rest[..|rest| - 1]);
    }
  }

  lemma {:induction false} SplitEndsEmpty(s: seq<Unit>)
    ensures var parts := Split(s + [STAR]); |parts| >= 2 && parts[|parts| - 1] == []
  {
    if s == [] {
      assert s + [STAR] == [STAR] && [STAR][1..] == [];
    } else {
      assert (s + [STAR])[1..] == s[1..] + [STAR];
      SplitEndsEmpty(s[1..]);
    }
  }

  /** A trailing star after any text that is matched with itself has to bridge all that follows. */
  lemma PrefixedStar(prefix: seq<Unit>, key: seq<Unit>)
    requires Glob(prefix + key, prefix + [STAR])
    ensures Clean(key)
  {
    hide Glob, Chain, Split, Tail, Placed, Clean, Starless, Occurs;
    var value, pattern := prefix + key, prefix + [STAR];
    GlobSegments(value, pattern);
    SplitJoins(pattern);
    SplitEndsEmpty(prefix);
    var parts := Split(pattern);
    var tail := Tail(parts[1..]);
    TailPlaced(parts[1..]);
    var w := tail[..|tail| - 1];
    assert prefix + [STAR] == (parts[0] + w) + [STAR];
    assert prefix == parts[0] + w by { assert (prefix + [STAR])[..|prefix|] == prefix; }
    assert value[|parts[0]|..|value|] == w + key;
    assert parts[1..][..|parts| - 2] == parts[1..|parts| - 1];
    KeyIsGap(w, key, parts[1..|parts| - 1]);
  }

  /** An empty segment (two stars in a row) may be skipped. */
  lemma EmptySegment(u: seq<Unit>, mids: seq<seq<Unit>>)
    requires mids != [] && mids[0] == []
    ensures Chain(u, mids) <==> Chain(u, mids[1..])
  {
    hide Chain;
    ChainIff(u, mids);
    if Chain(u, mids) {
      var q: nat :| ChainFrom(u, mids, q);
      ExtendGap(u[..q], u[q..], mids[1..]);
      assert u[..q] + u[q..] == u;
    }
    if Chain(u, mids[1..]) {
      assert u[0..] == u && ChainFrom(u, mids, 0);
    }
  }

  // ---------- Knuth-Morris-Pratt ----------

  /** The first `k` units of the literal stand just before position `n` of the text. */
  predicate Overlap(text: seq<Unit>, n: nat, literal: seq<Unit>, k: nat) {
    k <= n <= |text| && k <= |literal| && literal[..k] == text[n - k..n]
  }

  /** A proper border of the first `n` units of the literal. */
  predicate Border(literal: seq<Unit>, n: nat, k: nat) {
    k < n && Overlap(literal, n, literal, k)
  }

  ghost predicate LongestBorder(literal: seq<Unit>, n: nat, k: nat) {
    Border(literal, n, k) && forall j: nat | Border(literal, n, j) :: j <= k
  }

  /** The failure table holds the longest proper border of every prefix up to `n`. */
  ghost predicate Table(literal: seq<Unit>, failure: seq<nat>, n: nat) {
    n <= |failure| == |literal| && forall i | 0 <= i < n :: LongestBorder(literal, i + 1, failure[i])
  }

  /** Of two overlaps at the same place, the shorter is a border of the longer. */
  lemma ShorterOverlap(text: seq<Unit>, n: nat, literal: seq<Unit>, k: nat, j: nat)
    requires Overlap(text, n, literal, k) && j < k
    ensures Overlap(text, n, literal, j) <==> Border(literal, k, j)
  {
    assert text[n - j..n] == text[n - k..n][k - j..] == literal[..k][k - j..] == literal[k - j..k];
  }

  lemma OverlapExtends(text: seq<Unit>, n: nat, literal: seq<Unit>, j: nat)
    requires n < |text| && j < |literal|
    ensures Overlap(text, n + 1, literal, j + 1) <==> Overlap(text, n, literal, j) && text[n] == literal[j]
  {
    if j <= n {
      assert literal[..j + 1] == literal[..j] + [literal[j]];
      assert text[n - j..n + 1] == text[n - j..n] + [text[n]];
    }
  }

  /** `matched` bounds every overlap that could grow with the next unit. */
  ghost predicate Bounds(text: seq<Unit>, n: nat, literal: seq<Unit>, limit: nat, matched: nat) {
    && n < |text| && matched < |literal| && Overlap(text, n, literal, matched)
    && AtMost(text, n + 1, literal, limit, matched + 1)
  }

  /** No overlap up to `limit` is longer than `bound`. */
  ghost predicate AtMost(text: seq<Unit>, n: nat, literal: seq<Unit>, limit: nat, bound: nat) {
    forall j: nat | j <= limit && j <= |literal| && Overlap(text, n, literal, j) :: j <= bound
  }

  /** On a mismatch the failure link still bounds them. */
  lemma FallBack(text: seq<Unit>, n: nat, literal: seq<Unit>, limit: nat, matched: nat, link: nat)
    requires Bounds(text, n, literal, limit, matched) && 0 < matched && text[n] != literal[matched]
    requires LongestBorder(literal, matched, link)
    ensures Bounds(text, n, literal, limit, link)
  {
    ShorterOverlap(text, n, literal, matched, link);
    var next := n + 1;
    forall j: nat | j <= limit && j <= |literal| && Overlap(text, next, literal, j) ensures j <= link + 1 {
      if j > 0 {
        OverlapExtends(text, n, literal, j - 1);
        if j - 1 < matched { ShorterOverlap(text, n, literal, matched, j - 1); }
      }
    }
  }

  /** When falling back ends, growing by the next unit gives the longest overlap again. */
  lemma Grown(text: seq<Unit>, n: nat, literal: seq<Unit>, limit: nat, matched: nat)
    requires Bounds(text, n, literal, limit, matched) && matched < limit
    requires matched == 0 || text[n] == literal[matched]
    ensures var k := if text[n] == literal[matched] then matched + 1 else 0;
      && Overlap(text, n + 1, literal, k)
      && AtMost(text, n + 1, literal, limit, k)
  {
    OverlapExtends(text, n, literal, matched);
    var next := n + 1;
    forall j: nat | j <= limit && j <= |literal| && Overlap(text, next, literal, j)
      ensures j <= if text[n] == literal[matched] then matched + 1 else 0
    {
      if j > 0 { OverlapExtends(text, n, literal, j - 1); }
    }
  }

  lemma OverlapIsOccurrence(u: seq<Unit>, n: nat, literal: seq<Unit>)
    requires n <= |u|
    ensures Overlap(u, n, literal, |literal|) <==> Occurs(u, literal, n - |literal|)
  {
    assert literal[..|literal|] == literal;
  }

  /** `findLiteral`: the leftmost occurrence inside [start, end), or -1. The ghost result
      counts loop turns. */
  method FindLiteral(value: seq<Unit>, literal: seq<Unit>, start: nat, end: nat) returns (found: int, ghost steps: nat)
    requires literal != [] && start <= end <= |value|
    ensures found == -1 ==> forall q: nat :: !Occurs(value[start..end], literal, q)
    ensures found != -1 ==> start <= found && IsLeftmost(value[start..end], literal, found - start)
    ensures steps <= 2 * |literal| + 2 * (end - start)
  {
    var failure := new nat[|literal|](_ => 0);
    steps := BuildTable(literal, failure);
    ghost var u, table, spent := value[start..end], failure[..], steps;
    hide Overlap, Occurs, LongestBorder, Bounds, Table;
    NoOverlapYet(u, literal);
    var matched: nat := 0;
    for index := start to end
      invariant matched < |literal| && LongestOverlap(u, index - start, literal, matched)
      invariant forall q: nat | q + |literal| <= index - start :: !Occurs(u, literal, q)
      invariant failure[..] == table
      invariant steps + matched <= spent + 2 * (index - start)
    {
      ghost var n := index - start;
      assert u[n] == value[index];
      BoundsFrom(u, n, literal, |literal|, matched);
      steps := steps + 1;
      while matched > 0 && value[index] != literal[matched]
        invariant Bounds(u, n, literal, |literal|, matched) && matched < |literal|
        invariant failure[..] == table
        invariant steps + matched <= spent + 2 * n + 1
      {
        assert table[matched - 1] == failure[matched - 1];
        TableAt(literal, table, matched);
        FallBack(u, n, literal, |literal|, matched, failure[matched - 1]);
        matched := failure[matched - 1];
        steps := steps + 1;
      }
      Grown(u, n, literal, |literal|, matched);
      if value[index] == literal[matched] { matched := matched + 1; }
      OverlapIsOccurrence(u, n + 1, literal);
      if matched == |literal| {
        return index - |literal| + 1, steps;
      }
    }
    return -1, steps;
  }

  lemma TableAt(literal: seq<Unit>, failure: seq<nat>, matched: nat)
    requires Table(literal, failure, |literal|) && 0 < matched < |literal|
    ensures matched - 1 < |failure| && LongestBorder(literal, matched, failure[matched - 1]) && failure[matched - 1] < matched
  {
  }

  /** The longest overlap, a complete occurrence included. */
  ghost predicate LongestOverlap(text: seq<Unit>, n: nat, literal: seq<Unit>, k: nat) {
    && Overlap(text, n, literal, k)
    && AtMost(text, n, literal, |literal|, k)
  }

  lemma NoOverlapYet(text: seq<Unit>, literal: seq<Unit>)
    requires literal != []
    ensures LongestOverlap(text, 0, literal, 0)
    ensures forall q: nat | q + |literal| <= 0 :: !Occurs(text, literal, q)
  {
  }

  lemma BoundsFrom(text: seq<Unit>, n: nat, literal: seq<Unit>, limit: nat, matched: nat)
    requires n < |text| && matched < |literal| && limit <= |literal| && Overlap(text, n, literal, matched)
    requires forall j: nat | j < limit && Overlap(text, n, literal, j) :: j <= matched
    ensures Bounds(text, n, literal, limit, matched)
  {
    var next := n + 1;
    forall j: nat | j <= limit && j <= |literal| && Overlap(text, next, literal, j) ensures j <= matched + 1 {
      if j > 0 { OverlapExtends(text, n, literal, j - 1); }
    }
  }

  /** The first loop of `findLiteral`, filling the table in place. */
  method BuildTable(literal: seq<Unit>, failure: array<nat>) returns (ghost steps: nat)
    requires literal != [] && failure.Length == |literal| && forall i | 0 <= i < |literal| :: failure[i] == 0
    modifies failure
    ensures Table(literal, failure[..], |literal|)
    ensures steps <= 2 * |literal|
  {
    steps := 0;
    var matched: nat := 0;
    assert Border(literal, 1, 0);
    for index := 1 to |literal|
      invariant Table(literal, failure[..], index)
      invariant matched == failure[index - 1]
      invariant steps + matched <= 2 * index
    {
      ghost var before := failure[..];
      assert LongestBorder(literal, index, before[index - 1]);
      forall j: nat | j < index && Overlap(literal, index, literal, j) ensures j <= matched {
        assert Border(literal, index, j);
      }
      BoundsFrom(literal, index, literal, index, matched);
      steps := steps + 1;
      while matched > 0 && literal[index] != literal[matched]
        invariant Bounds(literal, index, literal, index, matched) && matched < index
        invariant failure[..] == before
        invariant steps + matched <= 2 * index + 1
      {
        assert LongestBorder(literal, matched, before[matched - 1]);
        FallBack(literal, index, literal, index, matched, failure[matched - 1]);
        matched := failure[matched - 1];
        steps := steps + 1;
      }
      Grown(literal, index, literal, index, matched);
      if literal[index] == literal[matched] { matched := matched + 1; }
      failure[index] := matched;
      TableGrows(literal, before, failure[..], index);
    }
  }

  lemma TableGrows(literal: seq<Unit>, before: seq<nat>, after: seq<nat>, n: nat)
    requires Table(literal, before, n) && n < |literal| == |after| && after[..n] == before[..n]
    requires Overlap(literal, n + 1, literal, after[n]) && after[n] <= n
    requires AtMost(literal, n + 1, literal, n, after[n])
    ensures Table(literal, after, n + 1)
  {
    forall i | 0 <= i < n + 1 ensures LongestBorder(literal, i + 1, after[i]) {
      if i < n { assert after[i] == after[..n][i] == before[i]; }
    }
  }

  // ---------- The matcher ----------

  /** `hasLineTerminator` over value[start..end]. */
  method HasLineTerminator(value: seq<Unit>, start: nat, end: nat) returns (has: bool)
    requires start <= end <= |value|
    ensures has <==> !Clean(value[start..end])
  {
    for index := start to end
      invariant Clean(value[start..index])
    {
      if IsLineTerminator(value[index]) {
        assert value[start..end][index - start] == value[index];
        return true;
      }
      assert value[start..index + 1] == value[start..index] + [value[index]];
    }
    return false;
  }

  /** `matchesPattern`. */
  method MatchesPattern(value: seq<Unit>, pattern: seq<Unit>) returns (ok: bool)
    ensures ok <==> Matches(value, pattern)
  {
    hide Glob, Chain, Split, Clean;
    if pattern == [STAR] { return true; }
    if STAR !in pattern {
      GlobWithoutStar(value, pattern);
      return value == pattern;
    }
    GlobSegments(value, pattern);
    var parts := Split(pattern);
    var first, last := parts[0], parts[|parts| - 1];
    if !(|first| <= |value| && value[..|first|] == first) { return false; }
    if !(|last| <= |value| && value[|value| - |last|..] == last) { return false; }
    var position, end := |first|, |value| - |last|;
    if position > end { return false; }
    ghost var middle := Chain(value[position..end], parts[1..|parts| - 1]);
    for index := 1 to |parts| - 1
      invariant |first| <= position <= end
      invariant middle <==> Chain(value[position..end], parts[index..|parts| - 1])
    {
      var literal := parts[index];
      ghost var u, mids := value[position..end], parts[index..|parts| - 1];
      assert mids[0] == literal && mids[1..] == parts[index + 1..|parts| - 1];
      if literal == [] {
        EmptySegment(u, mids);
        continue;
      }
      var found, _ := FindLiteral(value, literal, position, end);
      if found < 0 {
        ChainIff(u, mids);
        return false;
      }
      LeftmostComplete(u, mids, found - position);
      assert u[..found - position] == value[position..found];
      assert u[found - position + |literal|..] == value[found + |literal|..end];
      var terminated := HasLineTerminator(value, position, found);
      if terminated { return false; }
      position := found + |literal|;
    }
    ChainNil(value[position..end]);
    var terminated := HasLineTerminator(value, position, end);
    return !terminated;
  }

  // ---------- Consequences used by the callers ----------

  /** The bypass of line 2 is what separates `*` from `**`. */
  lemma TwoStarsAreNotOne(value: seq<Unit>)
    ensures Matches(value, [STAR])
    ensures Matches(value, [STAR, STAR]) <==> Clean(value)
  {
    var parts: seq<seq<Unit>> := [[], []];
    var one: seq<seq<Unit>> := [[]];
    assert parts[1..] == one && one[1..] == [] && parts[..1] == one;
    assert Tail(one) == [STAR] && Tail(parts) == [STAR, STAR];
    GlobTail(value, parts);
    assert value[..|value|] == value;
    EmptySegment(value, one);
    ChainNil(value);
  }
}
