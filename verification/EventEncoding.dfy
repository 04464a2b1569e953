/** `encodeBoundedEvent`: a running byte counter over a plain-data snapshot, proved to be the
    exact UTF-8 length of the JSON text that is printed afterwards. */
module EventEncoding {
  import opened Common
  import Utf16

  const MAX_METADATA_DEPTH: nat := 8
  const MAX_METADATA_VALUES: nat := 4096

  type Text = seq<Unit>

  /** The JSON text of a finite number, or `null`: ASCII, and never empty. */
  type Numeral = s: Text | s != [] && forall i | 0 <= i < |s| :: s[i] < 0x80 witness [0x30]

  /** What a caller may pass. `Unsupported` stands for functions, symbols, accessors, foreign
      prototypes and cycles. An object's fields come in the order of `for in`. */
  datatype Value =
    | Null
    | Undefined
    | Boolean(truth: bool)
    | Number(numeral: Numeral)
    | String(text: Text)
    | Array(items: seq<Value>)
    | Object(fields: seq<Field>)
    | Unsupported

  datatype Field = Field(name: Text, value: Value)

  // ---------- Reference: section 25.5.2 of ECMA-262 ----------

  const COMMA: Unit := 0x2C
  const COLON: Unit := 0x3A
  const QUOTE: Unit := 0x22
  const BACKSLASH: Unit := 0x5C
  const NULL_TEXT: Text := [0x6E, 0x75, 0x6C, 0x6C]
  const TRUE_TEXT: Text := [0x74, 0x72, 0x75, 0x65]
  const FALSE_TEXT: Text := [0x66, 0x61, 0x6C, 0x73, 0x65]

  function HexDigit(d: nat): Unit
    requires d < 16
  {
    if d < 10 then 0x30 + d else 0x61 + d - 10
  }

  /** UnicodeEscape. */
  function UnicodeEscape(u: Unit): Text {
    [BACKSLASH, 0x75, HexDigit(u / 0x1000), HexDigit(u / 0x100 % 16), HexDigit(u / 16 % 16), HexDigit(u % 16)]
  }

  /** The single-letter escapes of table 76, 0 where there is none. */
  function Letter(u: Unit): Unit {
    if u == 0x08 then 0x62
    else if u == 0x09 then 0x74
    else if u == 0x0A then 0x6E
    else if u == 0x0C then 0x66
    else if u == 0x0D then 0x72
    else if u == QUOTE || u == BACKSLASH then u
    else 0
  }

  /** What QuoteJSONString appends for the first code point. */
  function Piece(s: Text): (p: Text)
    requires s != []
    ensures p != [] && !Utf16.IsHigh(p[|p| - 1])
  {
    if Utf16.Width(s) == 2 then s[..2]
    else if Letter(s[0]) != 0 then [BACKSLASH, Letter(s[0])]
    else if s[0] < 0x20 || Utf16.IsSurrogate(s[0]) then UnicodeEscape(s[0])
    else [s[0]]
  }

  function Quoted(s: Text): Text {
    if s == [] then [] else Piece(s) + Quoted(s[Utf16.Width(s)..])
  }

  function QuoteJSONString(s: Text): Text {
    [QUOTE] + Quoted(s) + [QUOTE]
  }

  /** The JSON text of a snapshot; an undefined field is left out, anything else undefined is null. */
  function Print(v: Value): Text {
    match v
    case Null => NULL_TEXT
    case Undefined => NULL_TEXT
    case Boolean(truth) => if truth then TRUE_TEXT else FALSE_TEXT
    case Number(text) => text
    case String(text) => QuoteJSONString(text)
    case Array(items) => [0x5B] + PrintItems(items, true) + [0x5D]
    case Object(fields) => [0x7B] + PrintFields(fields, true) + [0x7D]
    case Unsupported => []
  }

  function PrintItems(items: seq<Value>, first: bool): Text {
    if items == [] then []
    else (if first then [] else [COMMA]) + Print(items[0]) + PrintItems(items[1..], false)
  }

  function PrintFields(fields: seq<Field>, first: bool): Text {
    if fields == [] then []
    else if fields[0].value.Undefined? then PrintFields(fields[1..], first)
    else (if first then [] else [COMMA]) + QuoteJSONString(fields[0].name) + [COLON] + Print(fields[0].value) +
         PrintFields(fields[1..], false)
  }

  predicate Plain(v: Value) {
    match v
    case Array(items) => forall i | 0 <= i < |items| :: Plain(items[i])
    case Object(fields) => forall i | 0 <= i < |fields| :: Plain(fields[i].value)
    case Unsupported => false
    case _ => true
  }

  /** Levels below the value; a field left out has none. */
  function Height(v: Value): nat {
    match v
    case Array(items) => ItemsHeight(items)
    case Object(fields) => FieldsHeight(fields)
    case _ => 0
  }

  function ItemsHeight(items: seq<Value>): nat {
    if items == [] then 0 else Max(1 + Height(items[0]), ItemsHeight(items[1..]))
  }

  function FieldsHeight(fields: seq<Field>): nat {
    if fields == [] then 0
    else if fields[0].value.Undefined? then FieldsHeight(fields[1..])
    else Max(1 + Height(fields[0].value), FieldsHeight(fields[1..]))
  }

  /** Values and own field names. */
  function Nodes(v: Value): nat {
    match v
    case Array(items) => 1 + ItemNodes(items)
    case Object(fields) => 1 + FieldNodes(fields)
    case _ => 1
  }

  function ItemNodes(items: seq<Value>): nat {
    if items == [] then 0 else Nodes(items[0]) + ItemNodes(items[1..])
  }

  function FieldNodes(fields: seq<Field>): nat {
    if fields == [] then 0
    else 1 + (if fields[0].value.Undefined? then 0 else Nodes(fields[0].value)) + FieldNodes(fields[1..])
  }

  // ---------- What the counters add up ----------

  datatype Cost = Cost(size: nat, nodes: nat, good: bool)

  function Plus(a: Cost, b: Cost): Cost {
    Cost(a.size + b.size, a.nodes + b.nodes, a.good && b.good)
  }

  function PieceSize(s: Text): nat
    requires s != []
  {
    if s[0] == QUOTE || s[0] == BACKSLASH then 2
    else if s[0] < 32 then (if s[0] == 8 || s[0] == 9 || s[0] == 10 || s[0] == 12 || s[0] == 13 then 2 else 6)
    else if s[0] < 128 then 1
    else if s[0] < 2048 then 2
    else if Utf16.Width(s) == 2 then 4
    else if Utf16.IsSurrogate(s[0]) then 6
    else 3
  }

  function QuotedSize(s: Text): nat {
    if s == [] then 0 else PieceSize(s) + QuotedSize(s[Utf16.Width(s)..])
  }

  function CostOf(v: Value, depth: nat): Cost {
    var here := depth <= MAX_METADATA_DEPTH;
    match v
    case Null => Cost(4, 1, here)
    case Undefined => Cost(4, 1, here)
    case Boolean(truth) => Cost(if truth then 4 else 5, 1, here)
    case Number(text) => Cost(|text|, 1, here)
    case String(text) => Cost(2 + QuotedSize(text), 1, here)
    case Array(items) => Plus(Cost(2, 1, here), CostOfItems(items, true, depth + 1))
    case Object(fields) => Plus(Cost(2, 1, here), CostOfFields(fields, true, depth + 1))
    case Unsupported => Cost(0, 1, false)
  }

  function CostOfItems(items: seq<Value>, first: bool, depth: nat): Cost {
    if items == [] then Cost(0, 0, true)
    else Plus(Plus(Cost(if first then 0 else 1, 0, true), CostOf(items[0], depth)), CostOfItems(items[1..], false, depth))
  }

  function CostOfFields(fields: seq<Field>, first: bool, depth: nat): Cost {
    if fields == [] then Cost(0, 0, true)
    else if fields[0].value.Undefined? then Plus(Cost(0, 1, true), CostOfFields(fields[1..], first, depth))
    else
      var name := Cost((if first then 0 else 1) + 2 + QuotedSize(fields[0].name) + 1, 1, true);
      Plus(Plus(name, CostOf(fields[0].value, depth)), CostOfFields(fields[1..], false, depth))
  }

  // ---------- The counter is exact ----------

  lemma PieceLength(s: Text)
    requires s != []
    ensures Utf16.ByteLength(Piece(s)) == PieceSize(s)
  {
    var p := Piece(s);
    if Utf16.Width(s) == 2 {
      assert p == [s[0], s[1]] && p[Utf16.Width(p)..] == [];
    } else if Letter(s[0]) != 0 || s[0] < 0x20 || Utf16.IsSurrogate(s[0]) {
      Utf16.AsciiLength(p);
    } else {
      assert p[1..] == [];
    }
  }

  lemma {:induction false} QuotedLength(s: Text)
    ensures Utf16.ByteLength(Quoted(s)) == QuotedSize(s)
  {
    if s != [] {
      PieceLength(s);
      QuotedLength(s[Utf16.Width(s)..]);
      Utf16.ByteLengthConcat(Piece(s), Quoted(s[Utf16.Width(s)..]));
    }
  }

  /** ASCII on either side of a text is counted apart. */
  lemma Around(before: Text, s: Text, after: Text)
    requires forall i | 0 <= i < |before| :: before[i] < 0x80
    requires forall i | 0 <= i < |after| :: after[i] < 0x80
    ensures Utf16.ByteLength(before + s + after) == |before| + Utf16.ByteLength(s) + |after|
  {
    Utf16.AsciiLength(before);
    Utf16.AsciiLength(after);
    Utf16.ByteLengthConcat(before, s);
    Utf16.ByteLengthConcat(before + s, after);
  }

  lemma QuoteLength(s: Text)
    ensures Utf16.ByteLength(QuoteJSONString(s)) == 2 + QuotedSize(s)
  {
    QuotedLength(s);
    Around([QUOTE], Quoted(s), [QUOTE]);
  }

  /** Texts that end and start with ASCII may be measured apart; printed values do. */
  predicate Closed(s: Text) {
    s != [] && s[0] < 0x80 && s[|s| - 1] < 0x80
  }

  lemma PrintIsClosed(v: Value)
    requires Plain(v)
    ensures Closed(Print(v))
  {
    match v
    case String(text) => assert QuoteJSONString(text)[0] == QUOTE && QuoteJSONString(text)[|QuoteJSONString(text)| - 1] == QUOTE;
    case Array(items) => assert Print(v)[0] == 0x5B && Print(v)[|Print(v)| - 1] == 0x5D;
    case Object(fields) => assert Print(v)[0] == 0x7B && Print(v)[|Print(v)| - 1] == 0x7D;
    case _ =>
  }

  /** The counter equals the UTF-8 length of the text, the nodes are those of the tree, and the
      depth check holds exactly when the tree is low enough. */
  lemma {:induction false} CostIsExact(v: Value, depth: nat)
    requires Plain(v)
    ensures CostOf(v, depth) == Cost(Utf16.ByteLength(Print(v)), Nodes(v), depth + Height(v) <= MAX_METADATA_DEPTH)
    decreases v
  {
    hide Utf16.ByteLength, Utf16.WellFormed, PrintItems, PrintFields, CostOfItems, CostOfFields, Quoted, QuotedSize;
    match v
    case Number(text) => Utf16.AsciiLength(text);
    case String(text) => QuoteLength(text);
    case Array(items) =>
      ItemsCostIsExact(items, true, depth + 1);
      Around([0x5B], PrintItems(items, true), [0x5D]);
    case Object(fields) =>
      FieldsCostIsExact(fields, true, depth + 1);
      Around([0x7B], PrintFields(fields, true), [0x7D]);
    case _ => Utf16.AsciiLength(Print(v));
  }

  lemma {:induction false} ItemsCostIsExact(items: seq<Value>, first: bool, depth: nat)
    requires (forall i | 0 <= i < |items| :: Plain(items[i])) && 0 < depth
    ensures CostOfItems(items, first, depth) ==
      Cost(Utf16.ByteLength(PrintItems(items, first)), ItemNodes(items), items == [] || depth - 1 + ItemsHeight(items) <= MAX_METADATA_DEPTH)
    decreases items
  {
    hide Utf16.ByteLength, Utf16.WellFormed, Print, Height, Nodes, CostOf, Plain;
    Utf16.AsciiLength([]);
    if items != [] {
      CostIsExact(items[0], depth);
      ItemsCostIsExact(items[1..], false, depth);
      PrintIsClosed(items[0]);
      var comma: Text := if first then [] else [COMMA];
      Around(comma, Print(items[0]), []);
      assert comma + Print(items[0]) + [] == comma + Print(items[0]);
      Utf16.ByteLengthConcat(comma + Print(items[0]), PrintItems(items[1..], false));
    }
  }

  lemma {:induction false} FieldsCostIsExact(fields: seq<Field>, first: bool, depth: nat)
    requires (forall i | 0 <= i < |fields| :: Plain(fields[i].value)) && 0 < depth
    ensures CostOfFields(fields, first, depth) ==
      Cost(Utf16.ByteLength(PrintFields(fields, first)), FieldNodes(fields),
           FieldsHeight(fields) == 0 || depth - 1 + FieldsHeight(fields) <= MAX_METADATA_DEPTH)
    decreases fields
  {
    hide Utf16.ByteLength, Utf16.WellFormed, Print, Height, Nodes, CostOf, Plain, QuoteJSONString, QuotedSize;
    Utf16.AsciiLength([]);
    if fields != [] {
      var rest := fields[1..];
      if fields[0].value.Undefined? {
        FieldsCostIsExact(rest, first, depth);
      } else {
        CostIsExact(fields[0].value, depth);
        FieldsCostIsExact(rest, false, depth);
        PrintIsClosed(fields[0].value);
        var comma: Text := if first then [] else [COMMA];
        var name, value := QuoteJSONString(fields[0].name), Print(fields[0].value);
        QuoteLength(fields[0].name);
        Around(comma, name, [COLON]);
        Utf16.ByteLengthConcat(comma + name + [COLON], value);
        Utf16.ByteLengthConcat(comma + name + [COLON] + value, PrintFields(rest, false));
      }
    }
  }

  // ---------- The encoder ----------

  /** A text fits: plain data, low and small enough, and short enough once printed. */
  predicate Encodable(v: Value, maxBytes: nat) {
    && Plain(v) && Height(v) <= MAX_METADATA_DEPTH && Nodes(v) <= MAX_METADATA_VALUES
    && |Utf16.Bytes(Print(v))| <= maxBytes
  }

  /** More work that fits in what is left. */
  predicate Fits(c: Cost, bytes: nat, values: nat, maxBytes: nat) {
    c.good && bytes + c.size <= maxBytes && values + c.nodes <= MAX_METADATA_VALUES
  }

  lemma {:induction false} ItemsCostSomething(items: seq<Value>, first: bool, depth: nat)
    requires forall i | 0 <= i < |items| :: Plain(items[i])
    ensures |items| <= CostOfItems(items, first, depth).nodes && |items| <= CostOfItems(items, first, depth).size
  {
    if items != [] {
      CostIsExact(items[0], depth);
      PrintIsClosed(items[0]);
      Utf16.AsciiLength([]);
      ValueCosts(items[0], depth);
      ItemsCostSomething(items[1..], false, depth);
    }
  }

  lemma ValueCosts(v: Value, depth: nat)
    requires Plain(v)
    ensures 1 <= CostOf(v, depth).size && 1 <= CostOf(v, depth).nodes
  {
  }

  lemma {:induction false} NotPlainNotGood(v: Value, depth: nat)
    ensures CostOf(v, depth).good ==> Plain(v)
    decreases v
  {
    match v
    case Array(items) => ItemsNotPlain(items, true, depth + 1);
    case Object(fields) => FieldsNotPlain(fields, true, depth + 1);
    case _ =>
  }

  lemma {:induction false} ItemsNotPlain(items: seq<Value>, first: bool, depth: nat)
    ensures CostOfItems(items, first, depth).good ==> forall i | 0 <= i < |items| :: Plain(items[i])
    decreases items
  {
    hide CostOf, Plain;
    if items != [] {
      NotPlainNotGood(items[0], depth);
      ItemsNotPlain(items[1..], false, depth);
      if CostOfItems(items, first, depth).good {
        forall i | 0 <= i < |items| ensures Plain(items[i]) { if 0 < i { assert items[i] == items[1..][i - 1]; } }
      }
    }
  }

  lemma {:induction false} FieldsNotPlain(fields: seq<Field>, first: bool, depth: nat)
    ensures CostOfFields(fields, first, depth).good ==> forall i | 0 <= i < |fields| :: Plain(fields[i].value)
    decreases fields
  {
    hide CostOf;
    if fields != [] {
      if fields[0].value.Undefined? {
        FieldsNotPlain(fields[1..], first, depth);
      } else {
        NotPlainNotGood(fields[0].value, depth);
        FieldsNotPlain(fields[1..], false, depth);
      }
      if CostOfFields(fields, first, depth).good {
        forall i | 0 <= i < |fields| ensures Plain(fields[i].value) { if 0 < i { assert fields[i] == fields[1..][i - 1]; } }
      }
    }
  }

  /** Fitting from scratch is being encodable. */
  lemma FitsIffEncodable(v: Value, maxBytes: nat)
    ensures Fits(CostOf(v, 0), 0, 0, maxBytes) <==> Encodable(v, maxBytes)
    ensures Encodable(v, maxBytes) ==> Utf16.ByteLength(Print(v)) <= maxBytes
  {
    NotPlainNotGood(v, 0);
    if Plain(v) {
      CostIsExact(v, 0);
      Utf16.ByteLengthIsExact(Print(v));
    }
  }

  class Encoder {
    const maxBytes: nat
    var bytes: nat
    var values: nat

    constructor (maxBytes: nat)
      ensures this.maxBytes == maxBytes && bytes == 0 && values == 0
    {
      this.maxBytes, bytes, values := maxBytes, 0, 0;
    }

    /** `reserve`, with `false` for the rejection. */
    method Reserve(size: nat) returns (ok: bool)
      modifies this`bytes
      ensures bytes == old(bytes) + size && ok == (bytes <= maxBytes)
    {
      bytes := bytes + size;
      ok := bytes <= maxBytes;
    }

    method CountString(input: Text) returns (ok: bool)
      modifies this`bytes
      ensures ok <==> old(bytes) + 2 + QuotedSize(input) <= maxBytes
      ensures ok ==> bytes == old(bytes) + 2 + QuotedSize(input)
    {
      ok := Reserve(2);
      if !ok { return; }
      var i := 0;
      assert input[0..] == input;
      while i < |input|
        modifies this`bytes
        invariant i <= |input| && bytes <= maxBytes
        invariant bytes + QuotedSize(input[i..]) == old(bytes) + 2 + QuotedSize(input)
      {
        var code := input[i];
        ghost var rest := input[i..];
        assert rest[1..] == input[i + 1..] && (i + 1 < |input| ==> rest[2..] == input[i + 2..]);
        var width := 1;
        if code == 34 || code == 92 {
          ok := Reserve(2);
        } else if code < 32 {
          ok := Reserve(if code == 8 || code == 9 || code == 10 || code == 12 || code == 13 then 2 else 6);
        } else if code < 128 {
          ok := Reserve(1);
        } else if code < 2048 {
          ok := Reserve(2);
        } else if 0xD800 <= code <= 0xDBFF {
          if i + 1 < |input| && 0xDC00 <= input[i + 1] <= 0xDFFF {
            ok := Reserve(4);
            width := 2;
          } else {
            ok := Reserve(6);
          }
        } else {
          ok := Reserve(if 0xDC00 <= code <= 0xDFFF then 6 else 3);
        }
        assert width == Utf16.Width(rest);
        if !ok { return; }
        i := i + width;
      }
      assert input[i..] == [];
      ok := true;
    }

    /** `snapshot`: rejected exactly when the value does not fit in what is left. */
    method Snapshot(input: Value, depth: nat) returns (ok: bool)
      requires bytes <= maxBytes
      modifies this`bytes, this`values
      ensures ok <==> Fits(CostOf(input, depth), old(bytes), old(values), maxBytes)
      ensures ok ==> bytes == old(bytes) + CostOf(input, depth).size && values == old(values) + CostOf(input, depth).nodes
      decreases input, 1
    {
      hide CostOfItems, CostOfFields, QuotedSize;
      values := values + 1;
      if MAX_METADATA_VALUES < values || MAX_METADATA_DEPTH < depth { return false; }
      match input
      case Null => ok := Reserve(4);
      case String(text) => ok := CountString(text);
      case Boolean(truth) => ok := Reserve(if truth then 4 else 5);
      case Number(numeral) => ok := Reserve(|numeral|);
      case Undefined => ok := Reserve(4);
      case Unsupported => ok := false;
      case Array(items) =>
        if MAX_METADATA_VALUES < |items| || maxBytes < |items| {
          NotPlainNotGood(input, depth);
          if Plain(input) { ItemsCostSomething(items, true, depth + 1); }
          return false;
        }
        ok := Reserve(2);
        if ok { ok := SnapshotItems(items, depth + 1); }
      case Object(fields) =>
        ok := Reserve(2);
        if ok { ok := SnapshotFields(fields, depth + 1); }
    }

    method SnapshotItems(items: seq<Value>, depth: nat) returns (ok: bool)
      requires bytes <= maxBytes && values <= MAX_METADATA_VALUES
      modifies this`bytes, this`values
      ensures ok <==> Fits(CostOfItems(items, true, depth), old(bytes), old(values), maxBytes)
      ensures ok ==> var c := CostOfItems(items, true, depth); bytes == old(bytes) + c.size && values == old(values) + c.nodes
      decreases items, 0
    {
      hide CostOf;
      var i := 0;
      assert items[0..] == items;
      ghost var total := CostOfItems(items, true, depth);
      while i < |items|
        modifies this`bytes, this`values
        invariant i <= |items| && bytes <= maxBytes && values <= MAX_METADATA_VALUES
        invariant var c := CostOfItems(items[i..], i == 0, depth);
          bytes + c.size == old(bytes) + total.size && values + c.nodes == old(values) + total.nodes && c.good == total.good
      {
        assert items[i..][1..] == items[i + 1..];
        if 0 < i {
          ok := Reserve(1);
          if !ok { return; }
        }
        ok := Snapshot(items[i], depth);
        if !ok { return; }
        i := i + 1;
      }
      assert items[i..] == [];
      ok := true;
    }

    method SnapshotFields(fields: seq<Field>, depth: nat) returns (ok: bool)
      requires bytes <= maxBytes && values <= MAX_METADATA_VALUES
      modifies this`bytes, this`values
      ensures ok <==> Fits(CostOfFields(fields, true, depth), old(bytes), old(values), maxBytes)
      ensures ok ==> var c := CostOfFields(fields, true, depth); bytes == old(bytes) + c.size && values == old(values) + c.nodes
      decreases fields, 0
    {
      hide CostOf, QuotedSize;
      var i, count := 0, 0;
      assert fields[0..] == fields;
      ghost var total := CostOfFields(fields, true, depth);
      while i < |fields|
        modifies this`bytes, this`values
        invariant i <= |fields| && bytes <= maxBytes && values <= MAX_METADATA_VALUES && 0 <= count
        invariant var c := CostOfFields(fields[i..], count == 0, depth);
          bytes + c.size == old(bytes) + total.size && values + c.nodes == old(values) + total.nodes && c.good == total.good
      {
        var field := fields[i];
        assert fields[i..][1..] == fields[i + 1..];
        values := values + 1;
        if MAX_METADATA_VALUES < values { return false; }
        if !field.value.Undefined? {
          if 0 < count {
            ok := Reserve(1);
            if !ok { return; }
          }
          count := count + 1;
          ok := CountString(field.name);
          if !ok { return; }
          ok := Reserve(1);
          if !ok { return; }
          ok := Snapshot(field.value, depth);
          if !ok { return; }
        }
        i := i + 1;
      }
      assert fields[i..] == [];
      ok := true;
    }
  }

  /** The event is encoded exactly when it is encodable, and the check of the finished text
      never rejects what the counter let through. */
  method EncodeBoundedEvent(value: Value, maxBytes: nat) returns (json: Option<Text>)
    ensures json == if Encodable(value, maxBytes) then Some(Print(value)) else None
  {
    FitsIffEncodable(value, maxBytes);
    var encoder := new Encoder(maxBytes);
    var ok := encoder.Snapshot(value, 0);
    if !ok { return None; }
    var text := Print(value);
    json := if Utf16.ByteLength(text) <= maxBytes then Some(text) else None;
  }
}
