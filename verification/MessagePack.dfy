/** The structural MessagePack validator. The source replaces the recursive grammar of
    the MessagePack specification ("Formats") by one loop over a stack of pending child
    counts; here that loop is proved to accept exactly the encodings of the grammar's
    values that stay within the limits. */
module MessagePack {
  import opened Common
  import Utf8

  // ---------- The grammar ----------

  /** A value together with the format chosen for it: `head` is the first octets of the
      encoding, up to the body. Map entries are listed key, value, key, value, ... */
  datatype Value =
    | Atom(octets: seq<Byte>)
    | Str(head: seq<Byte>, text: seq<Byte>)
    | Bin(head: seq<Byte>, data: seq<Byte>)
    | Ext(head: seq<Byte>, kind: Byte, data: seq<Byte>)
    | Wrap(head: seq<Byte>, kind: Byte, mark: Byte, inner: Value)
    | Array(head: seq<Byte>, items: seq<Value>)
    | Map(head: seq<Byte>, entries: seq<Value>)

  function BigEndian(s: seq<Byte>): nat {
    if s == [] then 0 else BigEndian(s[..|s| - 1]) * 256 + s[|s| - 1]
  }

  /** A tag octet followed by a `width`-octet big-endian length. */
  predicate Sized(head: seq<Byte>, tag: Byte, width: nat, n: nat) {
    |head| == 1 + width && head[0] == tag && BigEndian(head[1..]) == n
  }

  /** A single tag octet that carries the length itself. */
  predicate Fixed(head: seq<Byte>, low: Byte, high: Byte, n: nat) {
    |head| == 1 && low <= head[0] < high && head[0] - low == n
  }

  predicate StrHead(head: seq<Byte>, n: nat) {
    Fixed(head, 0xA0, 0xC0, n) || Sized(head, 0xD9, 1, n) || Sized(head, 0xDA, 2, n) || Sized(head, 0xDB, 4, n)
  }

  predicate BinHead(head: seq<Byte>, n: nat) {
    Sized(head, 0xC4, 1, n) || Sized(head, 0xC5, 2, n) || Sized(head, 0xC6, 4, n)
  }

  predicate ArrayHead(head: seq<Byte>, n: nat) {
    Fixed(head, 0x90, 0xA0, n) || Sized(head, 0xDC, 2, n) || Sized(head, 0xDD, 4, n)
  }

  predicate MapHead(head: seq<Byte>, n: nat) {
    Fixed(head, 0x80, 0x90, n) || Sized(head, 0xDE, 2, n) || Sized(head, 0xDF, 4, n)
  }

  predicate ExtHead(head: seq<Byte>, n: nat) {
    || (|head| == 1 && FixExt(head[0]) == Some(n))
    || Sized(head, 0xC7, 1, n) || Sized(head, 0xC8, 2, n) || Sized(head, 0xC9, 4, n)
  }

  function FixExt(tag: Byte): Option<nat> {
    if tag == 0xD4 then Some(1) else if tag == 0xD5 then Some(2) else if tag == 0xD6 then Some(4)
    else if tag == 0xD7 then Some(8) else if tag == 0xD8 then Some(16) else None
  }

  /** Body octets of a tag that is neither counted nor nested. */
  function AtomWidth(tag: Byte): Option<nat> {
    if tag < 0x80 || tag >= 0xE0 || (tag == 0xC0 || tag == 0xC2 || tag == 0xC3) then Some(0)
    else if (tag == 0xCC || tag == 0xD0) then Some(1)
    else if (tag == 0xCD || tag == 0xD1) then Some(2)
    else if (tag == 0xCA || tag == 0xCE || tag == 0xD2) then Some(4)
    else if (tag == 0xCB || tag == 0xCF || tag == 0xD3) then Some(8)
    else None
  }

  /** msgpackr's Error, Set and RegExp wrappers. */
  predicate IsWrapper(kind: Byte) {
    (kind == 0x65 || kind == 0x73 || kind == 0x78)
  }

  const ELEMENT_WIDTHS: seq<nat> := [1, 1, 1, 2, 2, 4, 4, 4, 8, 8, 8]

  /** The leaf extensions msgpackr emits: undefined, dates, big integers, typed arrays. */
  predicate LeafExtension(kind: Byte, data: seq<Byte>) {
    match kind
    case 0x00 => |data| == 1
    case 0xFF => (|data| == 1 || |data| == 4 || |data| == 8 || |data| == 12)
    case 0x42 => |data| > 0
    case 0x74 =>
      && data != []
      && (data[0] == 16 || data[0] == 17
          || (data[0] < 11 && (|data| - 1) % ELEMENT_WIDTHS[data[0]] == 0))
    case _ => false
  }

  ghost predicate WellFormed(v: Value) {
    match v
    case Atom(octets) => octets != [] && AtomWidth(octets[0]) == Some(|octets| - 1)
    case Str(head, text) => StrHead(head, |text|) && Utf8.IsUtf8(text)
    case Bin(head, data) => BinHead(head, |data|)
    case Ext(head, kind, data) => ExtHead(head, |data|) && LeafExtension(kind, data)
    case Wrap(head, kind, _, inner) => ExtHead(head, 1) && IsWrapper(kind) && WellFormed(inner)
    case Array(head, items) => ArrayHead(head, |items|) && forall x | x in items :: WellFormed(x)
    case Map(head, entries) =>
      |entries| % 2 == 0 && MapHead(head, |entries| / 2) && forall x | x in entries :: WellFormed(x)
  }

  function Encode(v: Value): seq<Byte> {
    match v
    case Atom(octets) => octets
    case Str(head, text) => head + text
    case Bin(head, data) => head + data
    case Ext(head, kind, data) => head + [kind] + data
    case Wrap(head, kind, mark, inner) => head + [kind, mark] + Encode(inner)
    case Array(head, items) => head + EncodeAll(items)
    case Map(head, entries) => head + EncodeAll(entries)
  }

  function EncodeAll(vs: seq<Value>): seq<Byte> {
    if vs == [] then [] else Encode(vs[0]) + EncodeAll(vs[1..])
  }

  /** Nesting of containers and wrappers; an empty container already counts one. */
  function Depth(v: Value): nat {
    match v
    case Wrap(_, _, _, inner) => 1 + Depth(inner)
    case Array(_, items) => 1 + DepthAll(items)
    case Map(_, entries) => 1 + DepthAll(entries)
    case _ => 0
  }

  function DepthAll(vs: seq<Value>): nat {
    if vs == [] then 0 else Max(Depth(vs[0]), DepthAll(vs[1..]))
  }

  /** Values in the tree, map keys and wrappers included. */
  function Count(v: Value): nat {
    match v
    case Wrap(_, _, _, inner) => 1 + Count(inner)
    case Array(_, items) => 1 + CountAll(items)
    case Map(_, entries) => 1 + CountAll(entries)
    case _ => 1
  }

  function CountAll(vs: seq<Value>): nat {
    if vs == [] then 0 else Count(vs[0]) + CountAll(vs[1..])
  }

  /** The largest collection in the tree: elements of an array, pairs of a map. */
  function Largest(v: Value): nat {
    match v
    case Wrap(_, _, _, inner) => Max(1, Largest(inner))
    case Array(_, items) => Max(|items|, LargestAll(items))
    case Map(_, entries) => Max(|entries| / 2, LargestAll(entries))
    case _ => 0
  }

  function LargestAll(vs: seq<Value>): nat {
    if vs == [] then 0 else Max(Largest(vs[0]), LargestAll(vs[1..]))
  }

  /** What the validator promises: the octets are exactly one value within the limits. */
  ghost predicate Acceptable(input: seq<Byte>, limits: Limits) {
    && |input| <= limits.maxDecodedBytes
    && exists v: Value :: IsValueOf(v, input, limits)
  }

  ghost predicate IsValueOf(v: Value, input: seq<Byte>, limits: Limits) {
    && WellFormed(v)
    && Encode(v) == input
    && Depth(v) <= limits.maxDepth
    && Largest(v) <= limits.maxCollectionLength
    && Count(v) <= limits.maxTotalValues
  }

  // ---------- Deterministic reading ----------

  /** What one header announces: a complete leaf, or a container whose children follow. */
  datatype Token =
    | Leaf(next: nat)
    | Open(next: nat, items: nat, children: nat)

  ghost function Read(input: seq<Byte>, at: nat): (t: Option<Token>)
    requires at <= |input|
    ensures t.Some? ==> at < t.value.next <= |input|
  {
    if at == |input| then None else
    var tag, body := input[at], at + 1;
    if AtomWidth(tag).Some? then Skip(input, body, AtomWidth(tag).value)
    else if tag < 0x90 then Some(Open(body, tag - 0x80, 2 * (tag - 0x80)))
    else if tag < 0xA0 then Some(Open(body, tag - 0x90, tag - 0x90))
    else if tag < 0xC0 then ReadText(input, body, tag - 0xA0)
    else if FixExt(tag).Some? then ReadExtension(input, body, FixExt(tag).value)
    else if CountWidth(tag) == 0 || CountWidth(tag) > |input| - body then None
    else
      var start := body + CountWidth(tag);
      var n := BigEndian(input[body..start]);
      if tag <= 0xC6 then Skip(input, start, n)
      else if tag <= 0xC9 then ReadExtension(input, start, n)
      else if tag <= 0xDB then ReadText(input, start, n)
      else if tag <= 0xDD then Some(Open(start, n, n))
      else Some(Open(start, n, 2 * n))
  }

  /** Width of the length field that follows a sized tag; 0 for every other tag. */
  function CountWidth(tag: Byte): nat {
    if (tag == 0xC4 || tag == 0xC7 || tag == 0xD9) then 1
    else if (tag == 0xC5 || tag == 0xC8 || tag == 0xDA || tag == 0xDC || tag == 0xDE) then 2
    else if (tag == 0xC6 || tag == 0xC9 || tag == 0xDB || tag == 0xDD || tag == 0xDF) then 4
    else 0
  }

  function Skip(input: seq<Byte>, at: nat, n: nat): Option<Token>
    requires at <= |input|
  {
    if n <= |input| - at then Some(Leaf(at + n)) else None
  }

  ghost function ReadText(input: seq<Byte>, at: nat, n: nat): Option<Token>
    requires at <= |input|
  {
    if n <= |input| - at && Utf8.IsUtf8(input[at..at + n]) then Some(Leaf(at + n)) else None
  }

  function ReadExtension(input: seq<Byte>, at: nat, n: nat): (t: Option<Token>)
    requires at <= |input|
    ensures t.Some? ==> at < t.value.next <= |input|
  {
    if n + 1 > |input| - at then None
    else if IsWrapper(input[at]) then if n == 1 then Some(Open(at + 2, 1, 1)) else None
    else if LeafExtension(input[at], input[at + 1..at + 1 + n]) then Some(Leaf(at + 1 + n))
    else None
  }

  datatype Parsed = Parsed(next: nat, count: nat)

  predicate Admits(limits: Limits, depth: nat, items: nat) {
    items <= limits.maxCollectionLength && depth + 1 <= limits.maxDepth
  }

  /** Reads one value below `depth` open containers. */
  ghost function Parse(input: seq<Byte>, limits: Limits, at: nat, depth: nat): (r: Option<Parsed>)
    requires at <= |input|
    ensures r.Some? ==> at < r.value.next <= |input| && 1 <= r.value.count
    decreases |input| - at, 0
  {
    match Read(input, at)
    case None => None
    case Some(Leaf(next)) => Some(Parsed(next, 1))
    case Some(Open(next, items, children)) =>
      if !Admits(limits, depth, items) then None else
      match ParseMany(input, limits, next, depth + 1, children)
      case None => None
      case Some(r) => Some(Parsed(r.next, 1 + r.count))
  }

  /** Reads `n` values; each takes at least one octet, so the cut on line 57 loses none. */
  ghost function ParseMany(input: seq<Byte>, limits: Limits, at: nat, depth: nat, n: nat): (r: Option<Parsed>)
    requires at <= |input|
    ensures r.Some? ==> at + n <= r.value.next <= |input| && n <= r.value.count
    decreases |input| - at, n
  {
    if n == 0 then Some(Parsed(at, 0)) else
    match Parse(input, limits, at, depth)
    case None => None
    case Some(first) =>
      match ParseMany(input, limits, first.next, depth, n - 1)
      case None => None
      case Some(rest) => Some(Parsed(rest.next, first.count + rest.count))
  }

  // ---------- Reading and the grammar agree ----------

  /** `part` stands at offset `at` of `input`. */
  predicate Here(input: seq<Byte>, at: nat, part: seq<Byte>) {
    at + |part| <= |input| && input[at..at + |part|] == part
  }

  lemma HereSplits(input: seq<Byte>, at: nat, a: seq<Byte>, b: seq<Byte>)
    ensures Here(input, at, a + b) <==> Here(input, at, a) && Here(input, at + |a|, b)
  {
    if Here(input, at, a + b) {
      assert input[at..at + |a|] == (a + b)[..|a|] == a;
      assert input[at + |a|..at + |a| + |b|] == (a + b)[|a|..] == b;
    }
    if Here(input, at, a) && Here(input, at + |a|, b) {
      assert input[at..at + |a + b|] == input[at..at + |a|] + input[at + |a|..at + |a| + |b|];
    }
  }

  lemma HeadReads(input: seq<Byte>, at: nat, head: seq<Byte>)
    requires Here(input, at, head) && head != []
    ensures input[at] == head[0]
    ensures |head| > 1 ==> input[at + 1..at + |head|] == head[1..]
  {
    assert input[at] == input[at..at + |head|][0];
    assert input[at + 1..at + |head|] == input[at..at + |head|][1..];
  }

  /** A leaf of the grammar is read as one leaf token spanning it. */
  lemma LeafReads(v: Value, input: seq<Byte>, at: nat)
    requires WellFormed(v) && IsLeaf(v)
    requires Here(input, at, Encode(v))
    ensures Read(input, at) == Some(Leaf(at + |Encode(v)|))
  {
    match v
    case Atom(octets) => HeadReads(input, at, octets);
    case Str(head, text) => StrReads(input, at, head, text);
    case Bin(head, data) => BinReads(input, at, head, data);
    case Ext(head, kind, data) => ExtReads(input, at, head, kind, data);
  }

  predicate IsLeaf(v: Value) {
    v.Atom? || v.Str? || v.Bin? || v.Ext?
  }

  lemma StrReads(input: seq<Byte>, at: nat, head: seq<Byte>, text: seq<Byte>)
    requires StrHead(head, |text|) && Here(input, at, head + text)
    ensures Read(input, at) == ReadText(input, at + |head|, |text|)
    ensures input[at + |head|..at + |head| + |text|] == text
  {
    HereSplits(input, at, head, text);
    HeadReads(input, at, head);
  }

  lemma BinReads(input: seq<Byte>, at: nat, head: seq<Byte>, data: seq<Byte>)
    requires BinHead(head, |data|) && Here(input, at, head + data)
    ensures Read(input, at) == Some(Leaf(at + |head| + |data|))
  {
    HereSplits(input, at, head, data);
    HeadReads(input, at, head);
  }

  lemma ExtReads(input: seq<Byte>, at: nat, head: seq<Byte>, kind: Byte, data: seq<Byte>)
    requires ExtHead(head, |data|) && Here(input, at, head + [kind] + data)
    ensures Read(input, at) == ReadExtension(input, at + |head|, |data|)
    ensures input[at + |head|] == kind
    ensures input[at + |head| + 1..at + |head| + 1 + |data|] == data
  {
    assert head + [kind] + data == head + ([kind] + data);
    HereSplits(input, at, head, [kind] + data);
    HereSplits(input, at + |head|, [kind], data);
    HeadReads(input, at + |head|, [kind]);
    ExtHeadReads(input, at, head, |data|);
  }

  lemma ExtHeadReads(input: seq<Byte>, at: nat, head: seq<Byte>, n: nat)
    requires ExtHead(head, n) && Here(input, at, head)
    ensures Read(input, at) == ReadExtension(input, at + |head|, n)
  {
    HeadReads(input, at, head);
  }

  /** Octets before the children of a container or wrapper. */
  function Front(v: Value): seq<Byte>
    requires !IsLeaf(v)
  {
    if v.Wrap? then v.head + [v.kind, v.mark] else v.head
  }

  function Children(v: Value): seq<Value>
    requires !IsLeaf(v)
  {
    match v
    case Wrap(_, _, _, inner) => [inner]
    case Array(_, items) => items
    case Map(_, entries) => entries
  }

  function Items(v: Value): nat
    requires !IsLeaf(v)
  {
    if v.Map? then |v.entries| / 2 else |Children(v)|
  }

  lemma OpenShape(v: Value)
    requires !IsLeaf(v) && WellFormed(v)
    ensures Encode(v) == Front(v) + EncodeAll(Children(v)) && Front(v) != []
    ensures Depth(v) == 1 + DepthAll(Children(v)) && Count(v) == 1 + CountAll(Children(v))
    ensures Largest(v) == Max(Items(v), LargestAll(Children(v)))
    ensures forall x | x in Children(v) :: WellFormed(x)
  {
    if v.Wrap? {
      assert [v.inner][1..] == [];
      assert EncodeAll([v.inner]) == Encode(v.inner) + [];
    }
  }

  lemma OpenReads(v: Value, input: seq<Byte>, at: nat)
    requires !IsLeaf(v) && WellFormed(v) && Here(input, at, Encode(v))
    ensures Read(input, at) == Some(Open(at + |Front(v)|, Items(v), |Children(v)|))
    ensures Here(input, at + |Front(v)|, EncodeAll(Children(v)))
  {
    hide Read;
    OpenShape(v);
    HereSplits(input, at, Front(v), EncodeAll(Children(v)));
    if v.Wrap? {
      assert Front(v) == v.head + [v.kind] + [v.mark];
      ExtReads(input, at, v.head, v.kind, [v.mark]);
    } else {
      CollectionReads(v, input, at);
    }
  }

  lemma CollectionReads(v: Value, input: seq<Byte>, at: nat)
    requires (v.Array? || v.Map?) && WellFormed(v) && Here(input, at, v.head)
    ensures Read(input, at) == Some(Open(at + |v.head|, Items(v), |Children(v)|))
  {
    HeadReads(input, at, v.head);
  }

  /** Completeness: every value of the grammar within the limits is read, in full. */
  lemma {:induction false} ParseComplete(v: Value, input: seq<Byte>, limits: Limits, at: nat, depth: nat)
    requires WellFormed(v) && Here(input, at, Encode(v))
    requires depth + Depth(v) <= limits.maxDepth && Largest(v) <= limits.maxCollectionLength
    ensures Parse(input, limits, at, depth) == Some(Parsed(at + |Encode(v)|, Count(v)))
    decreases |Encode(v)|, 0
  {
    hide Read, WellFormed, Here;
    if IsLeaf(v) {
      LeafReads(v, input, at);
    } else {
      OpenShape(v);
      OpenReads(v, input, at);
      ParseManyComplete(Children(v), input, limits, at + |Front(v)|, depth + 1);
    }
  }

  lemma {:induction false} ParseManyComplete(vs: seq<Value>, input: seq<Byte>, limits: Limits, at: nat, depth: nat)
    requires forall v | v in vs :: WellFormed(v)
    requires Here(input, at, EncodeAll(vs))
    requires depth + DepthAll(vs) <= limits.maxDepth && LargestAll(vs) <= limits.maxCollectionLength
    ensures ParseMany(input, limits, at, depth, |vs|) == Some(Parsed(at + |EncodeAll(vs)|, CountAll(vs)))
    decreases |EncodeAll(vs)|, |vs|
  {
    hide Read, Parse, Encode, Depth, Count, Largest, WellFormed, Here;
    if vs != [] {
      HereSplits(input, at, Encode(vs[0]), EncodeAll(vs[1..]));
      ParseComplete(vs[0], input, limits, at, depth);
      ParseManyComplete(vs[1..], input, limits, at + |Encode(vs[0])|, depth);
    }
  }

  /** Soundness: whatever is read is the encoding of a value within the limits. */
  lemma {:induction false} ParseSound(input: seq<Byte>, limits: Limits, at: nat, depth: nat) returns (v: Value)
    requires at <= |input| && Parse(input, limits, at, depth).Some?
    ensures WellFormed(v) && Here(input, at, Encode(v))
    ensures Parse(input, limits, at, depth) == Some(Parsed(at + |Encode(v)|, Count(v)))
    ensures depth <= limits.maxDepth ==> depth + Depth(v) <= limits.maxDepth
    ensures Largest(v) <= limits.maxCollectionLength
    decreases |input| - at, 0
  {
    var t := Read(input, at).value;
    if t.Leaf? {
      v := LeafOf(input, at);
    } else {
      var head := input[at..t.next];
      var vs := ParseManySound(input, limits, t.next, depth + 1, t.children);
      v := OpenOf(input, at, vs);
    }
  }

  lemma {:induction false} ParseManySound(input: seq<Byte>, limits: Limits, at: nat, depth: nat, n: nat) returns (vs: seq<Value>)
    requires at <= |input| && ParseMany(input, limits, at, depth, n).Some?
    ensures |vs| == n && forall v | v in vs :: WellFormed(v)
    ensures Here(input, at, EncodeAll(vs))
    ensures ParseMany(input, limits, at, depth, n) == Some(Parsed(at + |EncodeAll(vs)|, CountAll(vs)))
    ensures depth <= limits.maxDepth ==> depth + DepthAll(vs) <= limits.maxDepth
    ensures LargestAll(vs) <= limits.maxCollectionLength
    decreases |input| - at, n
  {
    hide Read, Parse, Encode, Depth, Count, Largest, WellFormed, Here;
    if n == 0 {
      vs := [];
      assert input[at..at] == [];
      HereSlice(input, at, at);
    } else {
      var v := ParseSound(input, limits, at, depth);
      var rest := ParseManySound(input, limits, at + |Encode(v)|, depth, n - 1);
      vs := [v] + rest;
      assert vs[1..] == rest && vs[0] == v;
      HereSplits(input, at, Encode(v), EncodeAll(rest));
    }
  }

  /** The leaf whose encoding a leaf token spans. */
  lemma LeafOf(input: seq<Byte>, at: nat) returns (v: Value)
    requires at <= |input| && Read(input, at).Some? && Read(input, at).value.Leaf?
    ensures WellFormed(v) && IsLeaf(v)
    ensures Here(input, at, Encode(v)) && at + |Encode(v)| == Read(input, at).value.next
  {
    hide LeafExtension, Utf8.IsUtf8, EncodeAll, BigEndian;
    var tag, next := input[at], Read(input, at).value.next;
    if AtomWidth(tag).Some? {
      v := Atom(input[at..next]);
    } else {
      var start := at + 1 + CountWidth(tag);
      var head := input[at..start];
      assert head[1..] == input[at + 1..start];
      if FixExt(tag).Some? || 0xC7 <= tag <= 0xC9 {
        v := ExtOf(input, start, head, if FixExt(tag).Some? then FixExt(tag).value else BigEndian(head[1..]));
        assert head + [v.kind] + v.data == input[at..next];
      } else {
        v := SpanOf(input, at, head, start, next);
      }
    }
  }

  lemma SpanOf(input: seq<Byte>, at: nat, head: seq<Byte>, start: nat, next: nat) returns (v: Value)
    requires at < start <= next <= |input| && head == input[at..start]
    requires (StrHead(head, next - start) && Utf8.IsUtf8(input[start..next])) || BinHead(head, next - start)
    ensures (v.Str? || v.Bin?) && WellFormed(v) && Here(input, at, Encode(v)) && |Encode(v)| == next - at
  {
    v := if StrHead(head, next - start) then Str(head, input[start..next]) else Bin(head, input[start..next]);
    assert head + input[start..next] == input[at..next];
  }

  lemma ExtOf(input: seq<Byte>, start: nat, head: seq<Byte>, n: nat) returns (v: Value)
    requires start <= |input| && ReadExtension(input, start, n).Some? && ReadExtension(input, start, n).value.Leaf?
    requires ExtHead(head, n)
    ensures v.Ext? && v.head == head && WellFormed(v)
    ensures v.kind == input[start] && v.data == input[start + 1..start + 1 + n]
    ensures |v.data| == n && ReadExtension(input, start, n).value.next == start + 1 + n
  {
    v := Ext(head, input[start], input[start + 1..start + 1 + n]);
  }

  /** The container a token opens, around the children read after it. */
  lemma OpenOf(input: seq<Byte>, at: nat, vs: seq<Value>) returns (v: Value)
    requires at <= |input| && Read(input, at).Some? && Read(input, at).value.Open?
    requires |vs| == Read(input, at).value.children && forall x | x in vs :: WellFormed(x)
    requires Here(input, Read(input, at).value.next, EncodeAll(vs))
    ensures WellFormed(v) && !IsLeaf(v) && Here(input, at, Encode(v))
    ensures at + |Encode(v)| == Read(input, at).value.next + |EncodeAll(vs)|
    ensures Count(v) == 1 + CountAll(vs) && Depth(v) == 1 + DepthAll(vs)
    ensures Largest(v) == Max(Read(input, at).value.items, LargestAll(vs))
  {
    hide LeafExtension, Utf8.IsUtf8, EncodeAll, CountAll, DepthAll, LargestAll, BigEndian;
    var tag, t := input[at], Read(input, at).value;
    var start := at + 1 + CountWidth(tag);
    var head := input[at..start];
    assert head[1..] == input[at + 1..start];
    if 0x90 <= tag < 0xA0 || 0xDC <= tag <= 0xDD {
      v := Array(head, vs);
      HereSplits(input, at, head, EncodeAll(vs));
    } else if 0x80 <= tag < 0x90 || 0xDE <= tag <= 0xDF {
      v := Map(head, vs);
      HereSplits(input, at, head, EncodeAll(vs));
    } else {
      v := WrapOf(input, at, head, vs);
    }
  }

  lemma HereSlice(input: seq<Byte>, from: nat, to: nat)
    requires from <= to <= |input|
    ensures Here(input, from, input[from..to])
  {
  }

  lemma WrapOf(input: seq<Byte>, at: nat, head: seq<Byte>, vs: seq<Value>) returns (v: Value)
    requires at + |head| + 2 <= |input| && head == input[at..at + |head|] && ExtHead(head, 1)
    requires IsWrapper(input[at + |head|]) && |vs| == 1 && WellFormed(vs[0])
    requires Here(input, at + |head| + 2, EncodeAll(vs))
    ensures WellFormed(v) && v.Wrap? && Here(input, at, Encode(v))
    ensures |Encode(v)| == |head| + 2 + |EncodeAll(vs)|
    ensures Count(v) == 1 + CountAll(vs) && Depth(v) == 1 + DepthAll(vs)
    ensures Largest(v) == Max(1, LargestAll(vs))
  {
    var start := at + |head|;
    v := Wrap(head, input[start], input[start + 1], vs[0]);
    hide Here;
    OpenShape(v);
    assert vs == Children(v);
    assert input[at..start + 2] == input[at..start] + [input[start], input[start + 1]];
    assert Here(input, at, Front(v)) by { HereSlice(input, at, start + 2); }
    HereSplits(input, at, Front(v), EncodeAll(vs));
  }

  /** The recursive reading decides the grammar. */
  lemma ParseDecides(input: seq<Byte>, limits: Limits)
    requires limits.Valid()
    ensures (exists v: Value :: IsValueOf(v, input, limits)) <==>
            (exists count: nat :: count <= limits.maxTotalValues && Parse(input, limits, 0, 0) == Some(Parsed(|input|, count)))
  {
    if v: Value :| IsValueOf(v, input, limits) {
      ParseComplete(v, input, limits, 0, 0);
    }
    if count: nat :| count <= limits.maxTotalValues && Parse(input, limits, 0, 0) == Some(Parsed(|input|, count)) {
      var v := ParseSound(input, limits, 0, 0);
      assert IsValueOf(v, input, limits);
    }
  }

  // ---------- The validator ----------

  /** What is left to read when `pending` counts the missing children of each open
      container, innermost last. */
  ghost function Resume(input: seq<Byte>, limits: Limits, at: nat, pending: seq<nat>): (r: Option<Parsed>)
    requires at <= |input|
    ensures r.Some? ==> at <= r.value.next <= |input|
    decreases |pending|
  {
    if pending == [] then Some(Parsed(at, 0)) else
    var top := |pending| - 1;
    match ParseMany(input, limits, at, top, pending[top])
    case None => None
    case Some(inner) =>
      match Resume(input, limits, inner.next, pending[..top])
      case None => None
      case Some(rest) => Some(Parsed(rest.next, inner.count + rest.count))
  }

  /** The verdict the rest of the scan will reach. */
  ghost predicate Verdict(input: seq<Byte>, limits: Limits, at: nat, pending: seq<nat>, total: nat)
    requires at <= |input|
  {
    var r := Resume(input, limits, at, pending);
    r.Some? && r.value.next == |input| && total + r.value.count <= limits.maxTotalValues
  }

  /** The variables shared by the closures of `isSafeMessagePack`. */
  class Scanner {
    const input: seq<Byte>
    const limits: Limits
    var position: nat
    var pending: seq<nat>
    var totalValues: nat

    constructor (input: seq<Byte>, limits: Limits)
      ensures this.input == input && this.limits == limits
      ensures position == 0 && pending == [1] && totalValues == 0
    {
      this.input, this.limits := input, limits;
      position, pending, totalValues := 0, [1], 0;
    }

    method Advance(bytes: int) returns (ok: bool)
      requires position <= |input|
      modifies this`position
      ensures ok <==> 0 <= bytes <= |input| - old(position)
      ensures position == if ok then old(position) + bytes else old(position)
    {
      if bytes < 0 || bytes > |input| - position { return false; }
      position := position + bytes;
      return true;
    }

    /** Reads a big-endian length, or -1 when it is cut short. */
    method Length(bytes: nat) returns (value: int)
      requires position <= |input|
      modifies this`position
      ensures value == -1 <==> bytes > |input| - old(position)
      ensures value == -1 ==> position == old(position)
      ensures value != -1 ==> position == old(position) + bytes && value == BigEndian(input[old(position)..position])
    {
      if bytes > |input| - position { return -1; }
      value := 0;
      for i := 0 to bytes
        invariant position == old(position) + i <= |input|
        invariant value == BigEndian(input[old(position)..position])
      {
        value := value * 256 + input[position];
        position := position + 1;
        assert input[old(position)..position][..i] == input[old(position)..position - 1];
      }
    }

    method Text(bytes: int) returns (ok: bool)
      requires position <= |input|
      modifies this`position
      ensures ok <==> 0 <= bytes <= |input| - old(position) && Utf8.IsUtf8(input[old(position)..old(position) + bytes])
      ensures ok ==> position == old(position) + bytes
    {
      if !(bytes >= 0 && bytes <= |input| - position) { return false; }
      ok := Utf8.IsSafeUtf8(input, position, position + bytes);
      if ok { ok := Advance(bytes); }
    }

    method Container(items: int, isMap: bool) returns (ok: bool)
      requires position <= |input|
      modifies this`pending
      ensures var children := if isMap then 2 * items else items;
        && (ok <==> && 0 <= items <= limits.maxCollectionLength
                    && children <= |input| - position
                    && |old(pending)| <= limits.maxDepth)
        && (ok ==> pending == old(pending) + if children == 0 then [] else [children])
    {
      if items < 0 || items > limits.maxCollectionLength { return false; }
      var children := if isMap then items * 2 else items;
      if children > |input| - position || |pending| > limits.maxDepth { return false; }
      if children != 0 { pending := pending + [children]; }
      return true;
    }

    /** The body of an extension of announced length `bytes`. */
    method Extension(bytes: int) returns (ok: bool)
      requires position <= |input| && -1 <= bytes
      modifies this`position, this`pending
      ensures Follows(if bytes == -1 then None else ReadExtension(input, old(position), bytes), old(pending), ok)
    {
      if bytes < 0 || bytes + 1 > |input| - position { return false; }
      var kind := input[position];
      position := position + 1;
      ghost var data := input[position..position + bytes];
      if kind == 0x65 || kind == 0x73 || kind == 0x78 {
        if bytes != 1 { return false; }
        var _ := Advance(bytes);
        ok := Container(1, false);
        return;
      }
      if kind == 0x00 {
        if bytes == 1 { ok := Advance(bytes); } else { ok := false; }
      } else if kind == 0xFF {
        if bytes == 1 || bytes == 4 || bytes == 8 || bytes == 12 { ok := Advance(bytes); } else { ok := false; }
      } else if kind == 0x42 {
        if bytes > 0 { ok := Advance(bytes); } else { ok := false; }
      } else if kind == 0x74 {
        if bytes < 1 { return false; }
        var typeCode := input[position];
        assert data[0] == typeCode;
        if !(typeCode == 16 || typeCode == 17
             || (typeCode < |ELEMENT_WIDTHS| && (bytes - 1) % ELEMENT_WIDTHS[typeCode] == 0)) { return false; }
        ok := Advance(bytes);
      } else {
        ok := false;
      }
    }

    /** A container may be opened below the open ones `before`. */
    ghost predicate Admitted(t: Token, before: seq<nat>) {
      t.Open? ==> && t.items <= limits.maxCollectionLength
                  && |before| <= limits.maxDepth
                  && t.children <= |input| - t.next
    }

    /** `ok` says whether the token was read and, for a container, admitted; the position
        and the stack then stand after it. */
    ghost predicate Follows(t: Option<Token>, before: seq<nat>, ok: bool)
      reads this
    {
      && (ok <==> t.Some? && Admitted(t.value, before))
      && (ok ==> position == t.value.next)
      && (ok ==> pending == Pushed(before, t.value))
    }

    /** One turn of the loop: consume the next child of the innermost open container. */
    method Take() returns (ok: bool)
      requires position <= |input| && |pending| <= limits.maxDepth + 1
      requires pending != [] && 0 < pending[|pending| - 1]
      modifies this`position, this`pending, this`totalValues
      ensures !ok ==> !Verdict(input, limits, old(position), old(pending), old(totalValues))
      ensures ok ==> old(position) < position <= |input| && |pending| <= limits.maxDepth + 1
      ensures ok ==> totalValues <= limits.maxTotalValues
      ensures ok ==> (Verdict(input, limits, old(position), old(pending), old(totalValues)) <==>
                      Verdict(input, limits, position, pending, totalValues))
    {
      hide Read;
      hide Verdict;
      ghost var at, before, total := position, pending, totalValues;
      var parent := |pending| - 1;
      pending := pending[parent := pending[parent] - 1];
      totalValues := totalValues + 1;
      if totalValues > limits.maxTotalValues || position >= |input| {
        ReadNeedsInput(input, at);
        NoTokenRejects(input, limits, at, before, total);
        return false;
      }
      var tag := input[position];
      position := position + 1;
      ghost var rest := pending;
      ok := Dispatch(tag);
      if Read(input, at).Some? {
        TakeKeepsVerdict(input, limits, at, before, total, Read(input, at).value);
      } else {
        NoTokenRejects(input, limits, at, before, total);
      }
    }

    /** The part of one value that follows its tag octet. */
    method Dispatch(tag: Byte) returns (ok: bool)
      requires 0 < position <= |input| && input[position - 1] == tag
      modifies this`position, this`pending
      ensures Follows(Read(input, old(position) - 1), old(pending), ok)
    {
      var n: int;
      if tag < 0x80 || tag >= 0xE0 { return true; }
      if tag < 0x90 { ok := Container(tag - 0x80, true); return; }
      if tag < 0xA0 { ok := Container(tag - 0x90, false); return; }
      if tag < 0xC0 { ok := Text(tag - 0xA0); return; }
      if tag == 0xC0 || tag == 0xC2 || tag == 0xC3 { return true; }
      if tag == 0xC1 { return false; }
      if 0xC4 <= tag <= 0xC6 || 0xD9 <= tag <= 0xDB || 0xC7 <= tag <= 0xC9 || 0xDC <= tag {
        ok := DispatchSized(tag);
        return;
      }
      if tag == 0xCC || tag == 0xD0 { ok := Advance(1); return; }
      if tag == 0xCD || tag == 0xD1 { ok := Advance(2); return; }
      if tag == 0xCA || tag == 0xCE || tag == 0xD2 { ok := Advance(4); return; }
      if tag == 0xCB || tag == 0xCF || tag == 0xD3 { ok := Advance(8); return; }
      if tag == 0xD4 { ok := Extension(1); return; }
      if tag == 0xD5 { ok := Extension(2); return; }
      if tag == 0xD6 { ok := Extension(4); return; }
      if tag == 0xD7 { ok := Extension(8); return; }
      ok := Extension(16);
    }

    /** The cases whose tag is followed by a length field. */
    method DispatchSized(tag: Byte) returns (ok: bool)
      requires 0 < position <= |input| && input[position - 1] == tag && 0 < CountWidth(tag)
      modifies this`position, this`pending
      ensures Follows(Read(input, old(position) - 1), old(pending), ok)
    {
      hide LeafExtension, Utf8.IsUtf8, BigEndian;
      var n := Length(CountWidth(tag));
      if tag <= 0xC6 { ok := Advance(n); }
      else if tag <= 0xC9 { ok := Extension(n); }
      else if tag <= 0xDB { ok := Text(n); }
      else if tag <= 0xDD { ok := Container(n, false); }
      else { ok := Container(n, true); }
    }
  }

  function Pushed(pending: seq<nat>, t: Token): seq<nat> {
    if t.Open? && t.children != 0 then pending + [t.children] else pending
  }

  // ---------- One turn of the loop preserves the verdict ----------

  lemma PopKeepsVerdict(input: seq<Byte>, limits: Limits, at: nat, pending: seq<nat>, total: nat)
    requires at <= |input| && pending != [] && pending[|pending| - 1] == 0
    ensures Verdict(input, limits, at, pending, total) == Verdict(input, limits, at, pending[..|pending| - 1], total)
  {
  }

  lemma ReadNeedsInput(input: seq<Byte>, at: nat)
    requires at <= |input|
    ensures at == |input| ==> Read(input, at).None?
  {
  }

  lemma NoTokenRejects(input: seq<Byte>, limits: Limits, at: nat, pending: seq<nat>, total: nat)
    requires at <= |input| && pending != [] && 0 < pending[|pending| - 1]
    requires Read(input, at).None? || total >= limits.maxTotalValues
    ensures !Verdict(input, limits, at, pending, total)
  {
    hide Read;
    var top := |pending| - 1;
    var inner := ParseMany(input, limits, at, top, pending[top]);
    if Read(input, at).None? {
      assert Parse(input, limits, at, top).None?;
    } else if inner.Some? {
      assert inner.value.count >= 1;
    }
  }

  /** Consuming one leaf, or opening one container, leaves the verdict as it was; refusing
      a container loses nothing. */
  lemma TakeKeepsVerdict(input: seq<Byte>, limits: Limits, at: nat, pending: seq<nat>, total: nat, t: Token)
    requires at <= |input| && pending != [] && 0 < pending[|pending| - 1] && Read(input, at) == Some(t)
    ensures var top := |pending| - 1;
      var rest := pending[top := pending[top] - 1];
      Verdict(input, limits, at, pending, total) <==>
        && (t.Open? ==> Admits(limits, top, t.items) && t.children <= |input| - t.next)
        && Verdict(input, limits, t.next, Pushed(rest, t), total + 1)
  {
    hide Read;
    var top := |pending| - 1;
    var n := pending[top];
    var rest := pending[top := n - 1];
    assert rest[..top] == pending[..top];
    if t.Open? {
      if Admits(limits, top, t.items) {
        var inner := ParseMany(input, limits, t.next, top + 1, t.children);
        if t.children == 0 {
          assert inner == Some(Parsed(t.next, 0));
        } else {
          var pushed := rest + [t.children];
          assert pushed[..top + 1] == rest;
          assert Resume(input, limits, t.next, pushed) == ThenResume(input, limits, inner, rest);
        }
        assert Parse(input, limits, at, top) ==
          if inner.None? then None else Some(Parsed(inner.value.next, 1 + inner.value.count));
      } else {
        assert Parse(input, limits, at, top).None?;
      }
    } else {
      assert Parse(input, limits, at, top) == Some(Parsed(t.next, 1));
    }
  }

  /** Resumes after a part that was read or not. */
  ghost function ThenResume(input: seq<Byte>, limits: Limits, first: Option<Parsed>, pending: seq<nat>): Option<Parsed>
    requires first.Some? ==> first.value.next <= |input|
  {
    if first.None? then None else
    match Resume(input, limits, first.value.next, pending)
    case None => None
    case Some(rest) => Some(Parsed(rest.next, first.value.count + rest.count))
  }

  /** `isSafeMessagePack`. The ghost result is the greatest height the stack reached. */
  method IsSafeMessagePack(input: seq<Byte>, limits: Limits) returns (ok: bool, ghost peak: nat)
    requires limits.Valid()
    ensures ok <==> Acceptable(input, limits)
    ensures peak <= limits.maxDepth + 1
  {
    hide Read;
    peak := 1;
    if |input| > limits.maxDecodedBytes { return false, peak; }
    VerdictDecides(input, limits);
    var s := new Scanner(input, limits);
    while s.pending != []
      invariant s.position <= |input| && s.input == input && s.limits == limits
      invariant Verdict(input, limits, 0, [1], 0) <==>
                Verdict(input, limits, s.position, s.pending, s.totalValues)
      invariant s.totalValues <= limits.maxTotalValues
      invariant |s.pending| <= peak <= limits.maxDepth + 1
      decreases |input| - s.position, |s.pending|
    {
      var parent := |s.pending| - 1;
      if s.pending[parent] == 0 {
        PopKeepsVerdict(input, limits, s.position, s.pending, s.totalValues);
        s.pending := s.pending[..parent];
        continue;
      }
      var read := s.Take();
      if !read { return false, peak; }
      peak := Max(peak, |s.pending|);
    }
    return s.position == |input|, peak;
  }

  lemma ParseOne(input: seq<Byte>, limits: Limits, at: nat, depth: nat)
    requires at <= |input|
    ensures ParseMany(input, limits, at, depth, 1) == Parse(input, limits, at, depth)
  {
    hide Read;
    if Parse(input, limits, at, depth).Some? {
      assert ParseMany(input, limits, Parse(input, limits, at, depth).value.next, depth, 0).Some?;
    }
  }

  lemma VerdictDecides(input: seq<Byte>, limits: Limits)
    requires limits.Valid()
    ensures Verdict(input, limits, 0, [1], 0) <==> exists v: Value :: IsValueOf(v, input, limits)
  {
    ParseDecides(input, limits);
    ParseOne(input, limits, 0, 0);
    assert [1][..0] == [];
    if Parse(input, limits, 0, 0).Some? {
      assert Resume(input, limits, Parse(input, limits, 0, 0).value.next, []).Some?;
    }
  }
}
