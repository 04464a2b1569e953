/** `isSafeJson` scans brackets in one pass, without parsing. On every JSON text of
    RFC 8259 it is proved to accept exactly when the nesting depth, each collection's
    size, the number of values and object names, and the length are within the limits. */
module JsonScan {
  import opened Common
  import Utf8

  // ---------- Reference: sections 2 to 7 of RFC 8259 ----------

  /** One character of a string: unescaped, a two-character escape, or \uXXXX. */
  datatype Char =
    | Plain(cp: Utf8.Scalar)
    | Short(letter: Byte)
    | Hex(digits: seq<Byte>)

  datatype Json =
    | Literal(word: seq<Byte>)
    | Number(minus: bool, whole: seq<Byte>, fraction: seq<Byte>, exponent: seq<Byte>)
    | String(chars: seq<Char>)
    | Array(pad: seq<Byte>, elements: seq<Item>)
    | Object(pad: seq<Byte>, members: seq<Item>)

  /** An array element, or an object member when `name` is present, with its whitespace. */
  datatype Item = Item(before: seq<Byte>, name: Option<Name>, value: Json, after: seq<Byte>)

  datatype Name = Name(chars: seq<Char>, beforeColon: seq<Byte>, afterColon: seq<Byte>)

  /** JSON-text = ws value ws. */
  datatype Text = Text(before: seq<Byte>, value: Json, after: seq<Byte>)

  predicate IsSpace(b: Byte) {
    b == 0x20 || b == 0x09 || b == 0x0A || b == 0x0D
  }

  predicate IsWhitespace(s: seq<Byte>) {
    forall i | 0 <= i < |s| :: IsSpace(s[i])
  }

  predicate IsDigit(b: Byte) {
    0x30 <= b <= 0x39
  }

  predicate IsDigits(s: seq<Byte>) {
    s != [] && forall i | 0 <= i < |s| :: IsDigit(s[i])
  }

  predicate IsHexDigit(b: Byte) {
    IsDigit(b) || 0x41 <= b <= 0x46 || 0x61 <= b <= 0x66
  }

  predicate GoodChar(c: Char) {
    match c
    case Plain(cp) => 0x20 <= cp && cp != 0x22 && cp != 0x5C
    case Short(b) =>
      b == 0x22 || b == 0x5C || b == 0x2F || b == 0x62 || b == 0x66 || b == 0x6E || b == 0x72 || b == 0x74
    case Hex(digits) => |digits| == 4 && forall i | 0 <= i < 4 :: IsHexDigit(digits[i])
  }

  predicate GoodChars(chars: seq<Char>) {
    forall c | c in chars :: GoodChar(c)
  }

  const TRUE_WORD: seq<Byte> := [0x74, 0x72, 0x75, 0x65]
  const FALSE_WORD: seq<Byte> := [0x66, 0x61, 0x6C, 0x73, 0x65]
  const NULL_WORD: seq<Byte> := [0x6E, 0x75, 0x6C, 0x6C]

  predicate GoodNumber(whole: seq<Byte>, fraction: seq<Byte>, exponent: seq<Byte>) {
    && IsDigits(whole) && (whole[0] == 0x30 ==> |whole| == 1)
    && (fraction != [] ==> fraction[0] == 0x2E && IsDigits(fraction[1..]))
    && (exponent != [] ==>
          && (exponent[0] == 0x65 || exponent[0] == 0x45)
          && 2 <= |exponent|
          && IsDigits(if exponent[1] == 0x2B || exponent[1] == 0x2D then exponent[2..] else exponent[1..]))
  }

  predicate GoodJson(v: Json) {
    match v
    case Literal(word) => word == TRUE_WORD || word == FALSE_WORD || word == NULL_WORD
    case Number(_, whole, fraction, exponent) => GoodNumber(whole, fraction, exponent)
    case String(chars) => GoodChars(chars)
    case Array(pad, elements) => IsWhitespace(pad) && forall e | e in elements :: e.name.None? && GoodItem(e)
    case Object(pad, members) => IsWhitespace(pad) && forall m | m in members :: m.name.Some? && GoodItem(m)
  }

  predicate GoodItem(e: Item) {
    && IsWhitespace(e.before) && IsWhitespace(e.after) && GoodJson(e.value)
    && (e.name.Some? ==> GoodName(e.name.value))
  }

  predicate GoodName(n: Name) {
    GoodChars(n.chars) && IsWhitespace(n.beforeColon) && IsWhitespace(n.afterColon)
  }

  predicate GoodText(t: Text) {
    IsWhitespace(t.before) && GoodJson(t.value) && IsWhitespace(t.after)
  }

  function PrintChar(c: Char): seq<Byte> {
    match c
    case Plain(cp) => Utf8.Encode(cp)
    case Short(b) => [0x5C, b]
    case Hex(digits) => [0x5C, 0x75] + digits
  }

  function PrintChars(chars: seq<Char>): seq<Byte> {
    if chars == [] then [] else PrintChar(chars[0]) + PrintChars(chars[1..])
  }

  function PrintString(chars: seq<Char>): seq<Byte> {
    [0x22] + (PrintChars(chars) + [0x22])
  }

  function PrintNumber(minus: bool, whole: seq<Byte>, fraction: seq<Byte>, exponent: seq<Byte>): seq<Byte> {
    (if minus then [0x2D] else []) + whole + fraction + exponent
  }

  function Print(v: Json): seq<Byte> {
    match v
    case Literal(word) => word
    case Number(minus, whole, fraction, exponent) => PrintNumber(minus, whole, fraction, exponent)
    case String(chars) => PrintString(chars)
    case Array(pad, elements) => [0x5B] + ((if elements == [] then pad else PrintItems(elements)) + [0x5D])
    case Object(pad, members) => [0x7B] + ((if members == [] then pad else PrintItems(members)) + [0x7D])
  }

  function PrintItem(e: Item): seq<Byte> {
    e.before + ((if e.name.Some? then PrintName(e.name.value) else []) + (Print(e.value) + e.after))
  }

  function PrintName(n: Name): seq<Byte> {
    PrintString(n.chars) + (n.beforeColon + ([0x3A] + n.afterColon))
  }

  /** Items separated by commas. */
  function PrintItems(items: seq<Item>): seq<Byte>
    requires items != []
  {
    if |items| == 1 then PrintItem(items[0])
    else PrintItem(items[0]) + ([0x2C] + PrintItems(items[1..]))
  }

  function PrintText(t: Text): seq<Byte> {
    t.before + (Print(t.value) + t.after)
  }

  /** Nesting of arrays and objects. */
  function Depth(v: Json): nat {
    match v
    case Array(_, elements) => 1 + DepthAll(elements)
    case Object(_, members) => 1 + DepthAll(members)
    case _ => 0
  }

  function DepthAll(items: seq<Item>): nat {
    if items == [] then 0 else Max(Depth(items[0].value), DepthAll(items[1..]))
  }

  /** Values and object names strictly inside `v`. */
  function Inside(v: Json): nat {
    match v
    case Array(_, elements) => |elements| + InsideAll(elements)
    case Object(_, members) => 2 * |members| + InsideAll(members)
    case _ => 0
  }

  function InsideAll(items: seq<Item>): nat {
    if items == [] then 0 else Inside(items[0].value) + InsideAll(items[1..])
  }

  function Largest(v: Json): nat {
    match v
    case Array(_, elements) => Max(|elements|, LargestAll(elements))
    case Object(_, members) => Max(|members|, LargestAll(members))
    case _ => 0
  }

  function LargestAll(items: seq<Item>): nat {
    if items == [] then 0 else Max(Largest(items[0].value), LargestAll(items[1..]))
  }

  predicate Within(t: Text, limits: Limits) {
    && |PrintText(t)| <= limits.maxDecodedBytes
    && Depth(t.value) <= limits.maxDepth
    && Largest(t.value) <= limits.maxCollectionLength
    && 1 + Inside(t.value) <= limits.maxTotalValues
  }

  // ---------- The scanner as a state machine, one octet a step ----------

  datatype Frame = Frame(close: Byte, items: nat, content: bool)

  datatype State =
    | Failed
    | Running(stack: seq<Frame>, quoted: bool, escaped: bool, total: nat)

  const START := Running([], false, false, 1)

  function Mark(stack: seq<Frame>): seq<Frame> {
    if stack == [] then [] else stack[|stack| - 1 := stack[|stack| - 1].(content := true)]
  }

  function Step(limits: Limits, s: State, b: Byte): State {
    if s.Failed? then s
    else if s.escaped then s.(escaped := false)
    else if s.quoted then
      if b == 0x5C then s.(escaped := true) else if b == 0x22 then s.(quoted := false) else s
    else if b == 0x22 then s.(quoted := true, stack := Mark(s.stack))
    else if b == 0x7B || b == 0x5B then
      if |s.stack| >= limits.maxDepth then Failed
      else s.(stack := Mark(s.stack) + [Frame(if b == 0x7B then 0x7D else 0x5D, 1, false)])
    else if b == 0x7D || b == 0x5D then Close(limits, s, b)
    else if b == 0x2C && s.stack != [] then
      var top := s.stack[|s.stack| - 1];
      if top.items + 1 > limits.maxCollectionLength then Failed
      else s.(stack := s.stack[|s.stack| - 1 := top.(items := top.items + 1)])
    else if !IsSpace(b) then s.(stack := Mark(s.stack))
    else s
  }

  function Close(limits: Limits, s: State, b: Byte): State
    requires s.Running?
  {
    if s.stack == [] then Failed else
    var top := s.stack[|s.stack| - 1];
    if top.close != b || (top.content && top.items > limits.maxCollectionLength) then Failed else
    var total := s.total + if !top.content then 0 else if b == 0x7D then 2 * top.items else top.items;
    if total > limits.maxTotalValues then Failed else s.(stack := s.stack[..|s.stack| - 1], total := total)
  }

  function Run(limits: Limits, s: State, input: seq<Byte>): State
    decreases |input|
  {
    if input == [] then s else Run(limits, Step(limits, s, input[0]), input[1..])
  }

  predicate Accepts(s: State) {
    s.Running? && !s.quoted && s.stack == []
  }

  // ---------- Running over printed text ----------

  lemma {:induction false} RunConcat(limits: Limits, s: State, a: seq<Byte>, b: seq<Byte>)
    ensures Run(limits, s, a + b) == Run(limits, Run(limits, s, a), b)
    decreases |a|
  {
    hide Step;
    if a == [] {
      assert a + b == b;
    } else {
      assert (a + b)[1..] == a[1..] + b;
      RunConcat(limits, Step(limits, s, a[0]), a[1..], b);
    }
  }

  lemma RunOne(limits: Limits, s: State, b: Byte)
    ensures Run(limits, s, [b]) == Step(limits, s, b)
  {
    hide Step;
    assert [b][1..] == [];
  }

  lemma {:induction false} RunFailed(limits: Limits, input: seq<Byte>)
    ensures Run(limits, Failed, input) == Failed
    decreases |input|
  {
    if input != [] {
      RunFailed(limits, input[1..]);
    }
  }

  predicate Outside(s: State) {
    s.Running? && !s.quoted && !s.escaped
  }

  lemma {:induction false} RunSpace(limits: Limits, s: State, ws: seq<Byte>)
    requires IsWhitespace(ws) && (Outside(s) || s.Failed?)
    ensures Run(limits, s, ws) == s
    decreases |ws|
  {
    if ws != [] {
      assert Step(limits, s, ws[0]) == s;
      RunSpace(limits, s, ws[1..]);
    }
  }

  /** An octet of a number or literal: not structural, not whitespace. */
  predicate IsTokenByte(b: Byte) {
    !IsSpace(b) && b != 0x22 && b != 0x7B && b != 0x5B && b != 0x7D && b != 0x5D && b != 0x2C
  }

  lemma {:induction false} RunToken(limits: Limits, s: State, token: seq<Byte>)
    requires Outside(s) && token != [] && forall i | 0 <= i < |token| :: IsTokenByte(token[i])
    ensures Run(limits, s, token) == s.(stack := Mark(s.stack))
    decreases |token|
  {
    var t := s.(stack := Mark(s.stack));
    assert Step(limits, s, token[0]) == t;
    if |token| > 1 {
      RunToken(limits, t, token[1..]);
    }
  }

  predicate IsStringByte(b: Byte) {
    b != 0x22 && b != 0x5C
  }

  lemma {:induction false} RunQuoted(limits: Limits, s: State, bytes: seq<Byte>)
    requires s.Running? && s.quoted && !s.escaped && forall i | 0 <= i < |bytes| :: IsStringByte(bytes[i])
    ensures Run(limits, s, bytes) == s
    decreases |bytes|
  {
    if bytes != [] {
      assert Step(limits, s, bytes[0]) == s;
      RunQuoted(limits, s, bytes[1..]);
    }
  }

  lemma RunChar(limits: Limits, s: State, c: Char)
    requires s.Running? && s.quoted && !s.escaped && GoodChar(c)
    ensures Run(limits, s, PrintChar(c)) == s
  {
    if c.Plain? {
      RunQuoted(limits, s, PrintChar(c));
    } else {
      var second := PrintChar(c)[1];
      var rest := PrintChar(c)[2..];
      assert PrintChar(c) == [0x5C] + ([second] + rest);
      RunConcat(limits, s, [0x5C], [second] + rest);
      RunOne(limits, s, 0x5C);
      var mid := s.(escaped := true);
      RunConcat(limits, mid, [second], rest);
      RunOne(limits, mid, second);
      RunQuoted(limits, s, rest);
    }
  }

  lemma {:induction false} RunChars(limits: Limits, s: State, chars: seq<Char>)
    requires s.Running? && s.quoted && !s.escaped && GoodChars(chars)
    ensures Run(limits, s, PrintChars(chars)) == s
  {
    if chars != [] {
      RunConcat(limits, s, PrintChar(chars[0]), PrintChars(chars[1..]));
      RunChar(limits, s, chars[0]);
      RunChars(limits, s, chars[1..]);
    }
  }

  lemma RunString(limits: Limits, s: State, chars: seq<Char>)
    requires Outside(s) && GoodChars(chars)
    ensures Run(limits, s, PrintString(chars)) == s.(stack := Mark(s.stack))
  {
    var q := s.(quoted := true, stack := Mark(s.stack));
    RunConcat(limits, s, [0x22], PrintChars(chars) + [0x22]);
    RunOne(limits, s, 0x22);
    RunConcat(limits, q, PrintChars(chars), [0x22]);
    RunChars(limits, q, chars);
    RunOne(limits, q, 0x22);
  }

  /** The state after a value, or `Failed` when a limit is exceeded on the way. */
  function After(limits: Limits, s: State, v: Json): State
    requires Outside(s)
  {
    if && |s.stack| + Depth(v) <= limits.maxDepth
       && Largest(v) <= limits.maxCollectionLength
       && s.total + Inside(v) <= limits.maxTotalValues
    then s.(stack := Mark(s.stack), total := s.total + Inside(v))
    else Failed
  }

  /** The state after the remaining items of the innermost collection. */
  function AfterItems(limits: Limits, s: State, items: seq<Item>): State
    requires Outside(s) && s.stack != [] && items != []
  {
    var top := s.stack[|s.stack| - 1];
    if && |s.stack| + DepthAll(items) <= limits.maxDepth
       && LargestAll(items) <= limits.maxCollectionLength
       && top.items + |items| - 1 <= limits.maxCollectionLength
       && s.total + InsideAll(items) <= limits.maxTotalValues
    then s.(stack := s.stack[|s.stack| - 1 := top.(items := top.items + |items| - 1, content := true)],
            total := s.total + InsideAll(items))
    else Failed
  }

  ghost predicate Ready(limits: Limits, s: State) {
    && limits.Valid() && Outside(s) && s.total <= limits.maxTotalValues && |s.stack| <= limits.maxDepth
    && forall f | f in s.stack :: 1 <= f.items <= limits.maxCollectionLength
  }

  lemma {:induction false} RunValue(limits: Limits, s: State, v: Json)
    requires Ready(limits, s) && GoodJson(v)
    ensures Run(limits, s, Print(v)) == After(limits, s, v)
    decreases v, 0
  {
    match v
    case Literal(word) => RunToken(limits, s, word);
    case Number(minus, whole, fraction, exponent) => RunToken(limits, s, Print(v));
    case String(chars) => RunString(limits, s, chars);
    case Array(pad, elements) => RunCollection(limits, s, v, 0x5B, 0x5D, pad, elements);
    case Object(pad, members) => RunCollection(limits, s, v, 0x7B, 0x7D, pad, members);
  }

  lemma {:induction false} RunCollection(limits: Limits, s: State, v: Json, open: Byte, close: Byte, pad: seq<Byte>, items: seq<Item>)
    requires Ready(limits, s) && IsWhitespace(pad) && forall e | e in items :: GoodItem(e)
    requires (v == Array(pad, items) && open == 0x5B && close == 0x5D) || (v == Object(pad, items) && open == 0x7B && close == 0x7D)
    ensures Run(limits, s, Print(v)) == After(limits, s, v)
    decreases items, 1
  {
    var body := if items == [] then pad else PrintItems(items);
    RunConcat(limits, s, [open], body + [close]);
    RunOne(limits, s, open);
    var inner := Step(limits, s, open);
    RunConcat(limits, inner, body, [close]);
    if inner.Failed? {
      RunFailed(limits, body);
      RunFailed(limits, [close]);
    } else {
      if items == [] {
        RunSpace(limits, inner, pad);
      } else {
        RunItems(limits, inner, items);
      }
      RunOne(limits, Run(limits, inner, body), close);
      CloseCollection(limits, s, v, close, items);
    }
  }

  lemma CloseCollection(limits: Limits, s: State, v: Json, close: Byte, items: seq<Item>)
    requires Ready(limits, s) && |s.stack| < limits.maxDepth
    requires (v.Array? && v.elements == items && close == 0x5D) || (v.Object? && v.members == items && close == 0x7D)
    ensures var inner := s.(stack := Mark(s.stack) + [Frame(close, 1, false)]);
      Step(limits, if items == [] then inner else AfterItems(limits, inner, items), close) == After(limits, s, v)
  {
    var inner := s.(stack := Mark(s.stack) + [Frame(close, 1, false)]);
    var filled := if items == [] then inner else AfterItems(limits, inner, items);
    assert Depth(v) == 1 + DepthAll(items) && Largest(v) == Max(|items|, LargestAll(items));
    assert Inside(v) == (if v.Array? then |items| else 2 * |items|) + InsideAll(items);
    if filled.Running? {
      assert filled.stack[..|s.stack|] == Mark(s.stack);
      var top := filled.stack[|s.stack|];
      assert top == Frame(close, Max(1, |items|), items != []);
    } else {
      assert After(limits, s, v).Failed?;
    }
  }

  lemma {:induction false} RunItems(limits: Limits, s: State, items: seq<Item>)
    requires Ready(limits, s) && s.stack != [] && items != [] && forall e | e in items :: GoodItem(e)
    ensures Run(limits, s, PrintItems(items)) == AfterItems(limits, s, items)
    decreases items, 0
  {
    hide Run, Print, GoodJson;
    RunItem(limits, s, items[0]);
    var mid := Run(limits, s, PrintItem(items[0]));
    if |items| == 1 {
      LastItem(limits, s, items);
    } else {
      RunConcat(limits, s, PrintItem(items[0]), [0x2C] + PrintItems(items[1..]));
      RunConcat(limits, mid, [0x2C], PrintItems(items[1..]));
      RunOne(limits, mid, 0x2C);
      var next := Step(limits, mid, 0x2C);
      if next.Failed? {
        RunFailed(limits, PrintItems(items[1..]));
      } else {
        RunItems(limits, next, items[1..]);
        SameLast(s.stack, next.stack, |items|);
      }
    }
  }

  lemma LastItem(limits: Limits, s: State, items: seq<Item>)
    requires Ready(limits, s) && s.stack != [] && |items| == 1
    ensures After(limits, s, items[0].value) == AfterItems(limits, s, items)
  {
    var last := |s.stack| - 1;
    assert items[1..] == [] && s.stack[last] in s.stack;
    assert DepthAll(items) == Depth(items[0].value) && InsideAll(items) == Inside(items[0].value);
    assert LargestAll(items) == Largest(items[0].value);
    assert s.stack[last].(items := s.stack[last].items + 0, content := true) == s.stack[last].(content := true);
  }

  /** Updating the innermost frame twice is updating it once. */
  lemma SameLast(before: seq<Frame>, after: seq<Frame>, n: nat)
    requires before != [] && 1 < n
    requires var last := |before| - 1; after == Mark(before)[last := Mark(before)[last].(items := before[last].items + 1)]
    ensures var last := |before| - 1;
      after[last := after[last].(items := after[last].items + (n - 1) - 1, content := true)]
        == before[last := before[last].(items := before[last].items + n - 1, content := true)]
  {
  }

  lemma {:induction false} RunItem(limits: Limits, s: State, e: Item)
    requires Ready(limits, s) && s.stack != [] && GoodItem(e)
    ensures Run(limits, s, PrintItem(e)) == After(limits, s, e.value)
    decreases e, 0
  {
    var name := if e.name.Some? then PrintName(e.name.value) else [];
    RunConcat(limits, s, e.before, name + (Print(e.value) + e.after));
    RunSpace(limits, s, e.before);
    RunConcat(limits, s, name, Print(e.value) + e.after);
    var named := if e.name.Some? then s.(stack := Mark(s.stack)) else s;
    if e.name.Some? {
      RunName(limits, s, e.name.value);
    }
    RunConcat(limits, named, Print(e.value), e.after);
    RunValue(limits, named, e.value);
    RunSpace(limits, After(limits, named, e.value), e.after);
  }

  lemma RunName(limits: Limits, s: State, n: Name)
    requires Outside(s) && GoodName(n)
    ensures Run(limits, s, PrintName(n)) == s.(stack := Mark(s.stack))
  {
    var t := s.(stack := Mark(s.stack));
    assert Mark(t.stack) == t.stack;
    RunConcat(limits, s, PrintString(n.chars), n.beforeColon + ([0x3A] + n.afterColon));
    RunString(limits, s, n.chars);
    RunConcat(limits, t, n.beforeColon, [0x3A] + n.afterColon);
    RunSpace(limits, t, n.beforeColon);
    RunConcat(limits, t, [0x3A], n.afterColon);
    RunOne(limits, t, 0x3A);
    RunSpace(limits, t, n.afterColon);
  }

  /** On every RFC 8259 text the state machine decides the limits. */
  lemma TextDecided(t: Text, limits: Limits)
    requires limits.Valid() && GoodText(t)
    ensures |PrintText(t)| <= limits.maxDecodedBytes && Accepts(Run(limits, START, PrintText(t))) <==> Within(t, limits)
  {
    RunConcat(limits, START, t.before, Print(t.value) + t.after);
    RunSpace(limits, START, t.before);
    RunConcat(limits, START, Print(t.value), t.after);
    RunValue(limits, START, t.value);
    RunSpace(limits, After(limits, START, t.value), t.after);
  }

  // ---------- The scanner ----------

  /** `isSafeJson`. */
  method IsSafeJson(input: seq<Byte>, limits: Limits) returns (ok: bool)
    requires limits.Valid()
    ensures ok <==> |input| <= limits.maxDecodedBytes && Accepts(Run(limits, START, input))
    ensures forall t: Text | GoodText(t) && PrintText(t) == input :: ok <==> Within(t, limits)
  {
    forall t: Text | GoodText(t) && PrintText(t) == input
      ensures |input| <= limits.maxDecodedBytes && Accepts(Run(limits, START, input)) <==> Within(t, limits)
    {
      TextDecided(t, limits);
    }
    if |input| > limits.maxDecodedBytes { return false; }
    var stack: seq<Frame> := [];
    var quoted, totalValues: nat, i := false, 1, 0;
    while i < |input|
      invariant 0 <= i <= |input| + 1 && (i > |input| ==> quoted)
      invariant i <= |input| ==> Run(limits, START, input) == Run(limits, Running(stack, quoted, false, totalValues), input[i..])
      invariant i > |input| ==> Run(limits, START, input) == Running(stack, quoted, true, totalValues)
    {
      ghost var now, rest := Running(stack, quoted, false, totalValues), input[i..];
      var byte := input[i];
      assert rest[0] == byte && rest[1..] == input[i + 1..];
      i := i + 1;
      if quoted {
        if byte == 0x5C {
          i := i + 1;
          if i <= |input| {
            assert input[i - 1..][1..] == input[i..];
          }
          continue;
        }
        if byte == 0x22 { quoted := false; }
        continue;
      }
      var top := |stack| - 1;
      if byte == 0x22 {
        quoted := true;
        if top >= 0 { stack := stack[top := stack[top].(content := true)]; }
        continue;
      }
      if byte == 0x7B || byte == 0x5B {
        if top >= 0 { stack := stack[top := stack[top].(content := true)]; }
        if |stack| >= limits.maxDepth { RunFailed(limits, rest[1..]); return false; }
        stack := stack + [Frame(if byte == 0x7B then 0x7D else 0x5D, 1, false)];
      } else if byte == 0x7D || byte == 0x5D {
        if top < 0 || stack[top].close != byte { RunFailed(limits, rest[1..]); return false; }
        if stack[top].content && stack[top].items > limits.maxCollectionLength { RunFailed(limits, rest[1..]); return false; }
        if stack[top].content {
          totalValues := totalValues + stack[top].items * (if stack[top].close == 0x7D then 2 else 1);
        }
        if totalValues > limits.maxTotalValues { RunFailed(limits, rest[1..]); return false; }
        stack := stack[..top];
      } else if byte == 0x2C && top >= 0 {
        stack := stack[top := stack[top].(items := stack[top].items + 1)];
        if stack[top].items > limits.maxCollectionLength { RunFailed(limits, rest[1..]); return false; }
      } else if byte != 0x20 && byte != 0x09 && byte != 0x0A && byte != 0x0D && top >= 0 {
        stack := stack[top := stack[top].(content := true)];
      }
    }
    return !quoted && stack == [];
  }
}
