/** HC1 records: four tag bytes and a body. The packer, the JSON library and the compressors are
    functions with inverse laws; what is proved is what the readers and writers make of them. */
module Codec {
  import opened Common
  import Utf8
  import MessagePack
  import JsonScan

  type Bytes = seq<Byte>

  const MSGPACK_TAG: Bytes := [0x48, 0x43, 0x31, 0x4D]
  const JSON_TAG: Bytes := [0x48, 0x43, 0x31, 0x4A]
  const FAMILY: Bytes := [0x48, 0x43, 0x31]
  const PORTABLE_GZIP_MIN_BYTES: nat := 1024
  const MAX_PORTABLE_DECODED_BYTES: nat := 25 * 1024 * 1024
  const BOM: Bytes := [0xEF, 0xBB, 0xBF]

  /** `__hybridcache_null__`. */
  const SENTINEL_TEXT: Bytes :=
    [0x5F, 0x5F, 0x68, 0x79, 0x62, 0x72, 0x69, 0x64, 0x63, 0x61, 0x63, 0x68, 0x65, 0x5F, 0x6E, 0x75, 0x6C, 0x6C, 0x5F, 0x5F]

  /** The sentinel as MessagePack: a fixstr of twenty octets. */
  const PACKED_SENTINEL: Bytes := [0xB4] + SENTINEL_TEXT

  /** A cached value: a string by its UTF-8 octets, anything else by an identity. */
  datatype Value = Null | Undefined | Text(utf8: Bytes) | Other(id: nat)

  const SENTINEL := Text(SENTINEL_TEXT)

  datatype Compressor = Gzip | Zstd | Lz4 | Snappy

  function TagOf(c: Compressor): Bytes {
    match c
    case Gzip => [0x48, 0x43, 0x31, 0x47]
    case Zstd => [0x48, 0x43, 0x31, 0x5A]
    case Lz4 => [0x48, 0x43, 0x31, 0x4C]
    case Snappy => [0x48, 0x43, 0x31, 0x53]
  }

  /** A platform, Node or a Worker; `None` where its library throws. */
  datatype Runtime = Runtime(
    pack: Value -> Option<Bytes>,
    unpack: Bytes -> Option<Value>,
    stringify: Value -> Option<Bytes>,
    parse: Bytes -> Option<Value>,
    compress: (Compressor, Bytes) -> Bytes,
    decompress: (Compressor, Bytes, nat) -> Option<Bytes>,
    zstdAvailable: bool)

  /** Inverse pairs, the MessagePack form of one string, and JSON texts that are UTF-8 and not
      preceded by a byte order mark, with which no JSON text may start. */
  ghost predicate Lawful(rt: Runtime) {
    && rt.pack(SENTINEL) == Some(PACKED_SENTINEL)
    && (forall v: Value | rt.pack(v).Some? :: rt.unpack(rt.pack(v).value) == Some(v))
    && (forall v: Value | rt.stringify(v).Some? ::
          rt.parse(rt.stringify(v).value) == Some(v) && Utf8.IsUtf8(rt.stringify(v).value))
    && (forall t: Bytes | StartsWith(t, BOM) :: rt.parse(t) == None)
    && (forall c: Compressor, b: Bytes, cap: nat ::
          rt.decompress(c, rt.compress(c, b), cap) == if |b| <= cap then Some(b) else None)
    && (forall c: Compressor, b: Bytes, cap: nat :: rt.decompress(c, b, cap).Some? ==> |rt.decompress(c, b, cap).value| <= cap)
  }

  /** Two platforms with the same packer and the same JSON; their gzip may differ. */
  ghost predicate SameValues(a: Runtime, b: Runtime) {
    a.pack == b.pack && a.unpack == b.unpack && a.stringify == b.stringify && a.parse == b.parse
  }

  /** `reader` restores whatever `writer` gzips. */
  ghost predicate Gunzips(reader: Runtime, writer: Runtime) {
    forall b: Bytes, cap: nat ::
      reader.decompress(Gzip, writer.compress(Gzip, b), cap) == if |b| <= cap then Some(b) else None
  }

  predicate StartsWith(s: Bytes, p: Bytes) {
    |p| <= |s| && s[..|p|] == p
  }

  // ---------- Writing ----------

  datatype Tier = Tier(maxBytes: Option<nat>, compressor: Option<Compressor>)

  /** `format` and `compression`, resolved. */
  datatype Policy = Policy(json: bool, tiers: seq<Tier>)

  /** `selectCodec`: what this process cannot run falls back to lz4. */
  function SelectCodec(rt: Runtime, tiers: seq<Tier>, length: nat): Option<Compressor> {
    if tiers == [] then None
    else if tiers[0].maxBytes == None || length < tiers[0].maxBytes.value then
      if tiers[0].compressor == Some(Zstd) && !rt.zstdAvailable then Some(Lz4) else tiers[0].compressor
    else SelectCodec(rt, tiers[1..], length)
  }

  /** At least fifteen percent saved. */
  predicate Saves(original: nat, compressed: nat) {
    0 < original && 100 * compressed <= 85 * original
  }

  /** `serialize`. */
  function Serialize(rt: Runtime, v: Value, policy: Policy): Option<Bytes> {
    if v.Null? || v.Undefined? then Some(MSGPACK_TAG + PACKED_SENTINEL)
    else if v == SENTINEL || policy.json then
      if rt.stringify(v) == None then None else Some(JSON_TAG + rt.stringify(v).value)
    else if rt.pack(v) == None then None
    else
      var packed := rt.pack(v).value;
      var codec := SelectCodec(rt, policy.tiers, |packed|);
      if codec.Some? && Saves(|packed|, |rt.compress(codec.value, packed)|)
      then Some(TagOf(codec.value) + rt.compress(codec.value, packed))
      else Some(MSGPACK_TAG + packed)
  }

  /** The Node policy a Worker writes with: gzip from 1024 octets on, or nothing. */
  function PortablePolicy(auto: bool): Policy {
    Policy(false, if auto then [Tier(Some(PORTABLE_GZIP_MIN_BYTES), None), Tier(None, Some(Gzip))] else [Tier(None, None)])
  }

  /** `serializePortable`. */
  function SerializePortable(rt: Runtime, v: Value, auto: bool): Option<Bytes> {
    if v == SENTINEL then if rt.stringify(v) == None then None else Some(JSON_TAG + rt.stringify(v).value)
    else
      var packed := rt.pack(if v.Null? || v.Undefined? then SENTINEL else v);
      if packed == None then None
      else if auto && !v.Undefined? && PORTABLE_GZIP_MIN_BYTES <= |packed.value| then
        var gzipped := rt.compress(Gzip, packed.value);
        if MAX_PORTABLE_DECODED_BYTES < |gzipped| then None
        else if Saves(|packed.value|, |gzipped|) then Some(TagOf(Gzip) + gzipped)
        else Some(MSGPACK_TAG + packed.value)
      else Some(MSGPACK_TAG + packed.value)
  }

  /** A Worker writes what Node writes under the portable policy when their gzip agrees on the
      value, unless the compressed form outgrows the platform's limit and it throws. */
  lemma PortableWritesAgree(node: Runtime, worker: Runtime, v: Value, auto: bool)
    requires Lawful(worker) && SameValues(node, worker)
    requires worker.pack(v).Some? ==> node.compress(Gzip, worker.pack(v).value) == worker.compress(Gzip, worker.pack(v).value)
    ensures SerializePortable(worker, v, auto) == Serialize(node, v, PortablePolicy(auto)) ||
      (SerializePortable(worker, v, auto) == None && auto && worker.pack(v).Some? &&
       MAX_PORTABLE_DECODED_BYTES < |worker.compress(Gzip, worker.pack(v).value)|)
  {
    var tiers := PortablePolicy(auto).tiers;
    if auto { assert tiers[1..] == [Tier(None, Some(Gzip))]; }
    if worker.pack(v).Some? {
      var n := |worker.pack(v).value|;
      assert SelectCodec(node, tiers, n) == if auto && PORTABLE_GZIP_MIN_BYTES <= n then Some(Gzip) else None;
    }
  }

  // ---------- Reading ----------

  datatype Decoded = Miss | Hit(value: Value)

  function Found(v: Option<Value>): Decoded {
    if v.Some? then Hit(v.value) else Miss
  }

  predicate SafeJson(body: Bytes, limits: Limits) {
    |body| <= limits.maxDecodedBytes && JsonScan.Accepts(JsonScan.Run(limits, JsonScan.START, body))
  }

  /** `toString('ascii', 0, 4)` clears the top bit of every octet. */
  function AsciiTag(raw: Bytes): Bytes
    requires 4 <= |raw|
  {
    [raw[0] % 128, raw[1] % 128, raw[2] % 128, raw[3] % 128]
  }

  function CodecByTag(tag: Bytes): Option<Compressor> {
    if tag == TagOf(Gzip) then Some(Gzip)
    else if tag == TagOf(Zstd) then Some(Zstd)
    else if tag == TagOf(Lz4) then Some(Lz4)
    else if tag == TagOf(Snappy) then Some(Snappy)
    else None
  }

  ghost function UnpackChecked(rt: Runtime, payload: Bytes, limits: Limits): Decoded {
    if MessagePack.Acceptable(payload, limits) then Found(rt.unpack(payload)) else Miss
  }

  ghost function ParseChecked(rt: Runtime, body: Bytes, limits: Limits): Decoded {
    if SafeJson(body, limits) && Utf8.IsUtf8(body) then Found(rt.parse(body)) else Miss
  }

  function Unwrapped(d: Decoded): Decoded {
    if d == Hit(SENTINEL) then Hit(Null) else d
  }

  /** A record without a tag: MessagePack first, then JSON. */
  ghost function DecodeLegacy(rt: Runtime, raw: Bytes, limits: Limits): Decoded {
    var d := UnpackChecked(rt, raw, limits);
    Unwrapped(if d.Hit? then d else ParseChecked(rt, raw, limits))
  }

  /** `decodeCacheRecord`. */
  ghost function DecodeNode(rt: Runtime, raw: Bytes, limits: Limits): Decoded {
    if limits.maxEncodedBytes < |raw| then Miss
    else if 4 <= |raw| && CodecByTag(AsciiTag(raw)).Some? then
      var expanded := rt.decompress(CodecByTag(AsciiTag(raw)).value, raw[4..], limits.maxDecodedBytes);
      if expanded == None || limits.maxDecodedBytes < |expanded.value| then Miss
      else if expanded.value == PACKED_SENTINEL then Hit(Null)
      else UnpackChecked(rt, expanded.value, limits)
    else if 4 <= |raw| && AsciiTag(raw) == MSGPACK_TAG then
      if limits.maxDecodedBytes < |raw| - 4 then Miss
      else if raw == MSGPACK_TAG + PACKED_SENTINEL then Hit(Null)
      else UnpackChecked(rt, raw[4..], limits)
    else if 4 <= |raw| && AsciiTag(raw) == JSON_TAG then ParseChecked(rt, raw[4..], limits)
    else if StartsWith(raw, FAMILY) then Miss
    else DecodeLegacy(rt, raw, limits)
  }

  /** `TextDecoder` drops one byte order mark. */
  function WithoutBom(text: Bytes): Bytes {
    if StartsWith(text, BOM) then text[3..] else text
  }

  /** `decodePortableCacheRecord`: whatever throws is a miss. */
  ghost function DecodeWorker(rt: Runtime, raw: Bytes, limits: Limits): Decoded {
    if limits.maxEncodedBytes < |raw| then Miss
    else if StartsWith(raw, JSON_TAG) then
      if SafeJson(raw[4..], limits) && Utf8.IsUtf8(raw[4..]) then Found(rt.parse(WithoutBom(raw[4..]))) else Miss
    else if StartsWith(raw, MSGPACK_TAG) then Validated(rt, raw[4..], limits)
    else if StartsWith(raw, TagOf(Gzip)) then
      var expanded := rt.decompress(Gzip, raw[4..], limits.maxDecodedBytes);
      if expanded == None then Miss else Validated(rt, expanded.value, limits)
    else Miss
  }

  ghost function Validated(rt: Runtime, packed: Bytes, limits: Limits): Decoded {
    if !MessagePack.Acceptable(packed, limits) then Miss
    else if packed == PACKED_SENTINEL then Hit(Null)
    else Found(rt.unpack(packed))
  }

  // ---------- The sentinel ----------

  /** The packed sentinel is one string, accepted within any limits that leave room for it. */
  lemma SentinelIsAcceptable(limits: Limits)
    requires limits.Valid()
    ensures MessagePack.Acceptable(PACKED_SENTINEL, limits) <==> |PACKED_SENTINEL| <= limits.maxDecodedBytes
  {
    AsciiIsUtf8(SENTINEL_TEXT);
    var v := MessagePack.Str([0xB4], SENTINEL_TEXT);
    assert MessagePack.IsValueOf(v, PACKED_SENTINEL, limits);
  }

  lemma {:induction false} AsciiIsUtf8(s: Bytes)
    requires forall i | 0 <= i < |s| :: s[i] < 0x80
    ensures Utf8.IsUtf8(s)
  {
    if s == [] {
      assert Utf8.EncodeAll([]) == s;
    } else {
      AsciiIsUtf8(s[1..]);
      var rest: seq<Utf8.Scalar> :| Utf8.EncodeAll(rest) == s[1..];
      var first: Utf8.Scalar := s[0];
      var all: seq<Utf8.Scalar> := [first] + rest;
      assert all[1..] == rest;
      assert Utf8.EncodeAll(all) == [s[0]] + s[1..] == s;
    }
  }

  // ---------- Round trips ----------

  predicate UsesJson(v: Value, policy: Policy) {
    !v.Null? && !v.Undefined? && (v == SENTINEL || policy.json)
  }

  /** The record and what it holds are within the reader's limits. */
  ghost predicate Fits(rt: Runtime, v: Value, policy: Policy, raw: Bytes, limits: Limits) {
    && limits.Valid() && |raw| <= limits.maxEncodedBytes
    && if v.Null? || v.Undefined? then |PACKED_SENTINEL| <= limits.maxDecodedBytes
       else if UsesJson(v, policy) then rt.stringify(v).Some? && SafeJson(rt.stringify(v).value, limits)
       else rt.pack(v).Some? && MessagePack.Acceptable(rt.pack(v).value, limits)
  }

  /** What a reader gives back for a cached value. */
  function Cached(v: Value): Value {
    if v.Undefined? then Null else v
  }

  lemma TagSplits(tag: Bytes, body: Bytes)
    requires |tag| == 4 && forall i | 0 <= i < 4 :: tag[i] < 128
    ensures AsciiTag(tag + body) == tag && (tag + body)[4..] == body && StartsWith(tag + body, tag)
  {
  }

  /** Only the sentinel string packs to the packed sentinel. */
  lemma PackedSentinelIsUnique(rt: Runtime, v: Value)
    requires Lawful(rt) && rt.pack(v) == Some(PACKED_SENTINEL)
    ensures v == SENTINEL
  {
    assert rt.unpack(PACKED_SENTINEL) == Some(v) && rt.unpack(PACKED_SENTINEL) == Some(SENTINEL);
  }

  /** Strict decoding of an encoding is a hit with the encoded value, whatever the policy;
      undefined comes back as null. */
  lemma RoundTrip(rt: Runtime, v: Value, policy: Policy, limits: Limits)
    requires Lawful(rt) && Serialize(rt, v, policy).Some? && Fits(rt, v, policy, Serialize(rt, v, policy).value, limits)
    ensures DecodeNode(rt, Serialize(rt, v, policy).value, limits) == Hit(Cached(v))
  {
    var raw := Serialize(rt, v, policy).value;
    if v.Null? || v.Undefined? {
      TagSplits(MSGPACK_TAG, PACKED_SENTINEL);
    } else if UsesJson(v, policy) {
      TagSplits(JSON_TAG, rt.stringify(v).value);
    } else {
      PackedRoundTrip(rt, v, policy, limits);
    }
  }

  lemma PackedRoundTrip(rt: Runtime, v: Value, policy: Policy, limits: Limits)
    requires Lawful(rt) && !v.Null? && !v.Undefined? && !UsesJson(v, policy)
    requires Serialize(rt, v, policy).Some? && Fits(rt, v, policy, Serialize(rt, v, policy).value, limits)
    ensures DecodeNode(rt, Serialize(rt, v, policy).value, limits) == Hit(v)
  {
    var packed := rt.pack(v).value;
    if packed == PACKED_SENTINEL { PackedSentinelIsUnique(rt, v); }
    var codec := SelectCodec(rt, policy.tiers, |packed|);
    hide MessagePack.Acceptable;
    if codec.Some? && Saves(|packed|, |rt.compress(codec.value, packed)|) {
      TagSplits(TagOf(codec.value), rt.compress(codec.value, packed));
      assert rt.decompress(codec.value, rt.compress(codec.value, packed), limits.maxDecodedBytes) == Some(packed) by {
        assert |packed| <= limits.maxDecodedBytes by { AcceptableIsShort(packed, limits); }
      }
    } else {
      TagSplits(MSGPACK_TAG, packed);
      AcceptableIsShort(packed, limits);
      assert MSGPACK_TAG + packed != MSGPACK_TAG + PACKED_SENTINEL by {
        assert (MSGPACK_TAG + packed)[4..] == packed && (MSGPACK_TAG + PACKED_SENTINEL)[4..] == PACKED_SENTINEL;
      }
    }
  }

  lemma AcceptableIsShort(packed: Bytes, limits: Limits)
    requires MessagePack.Acceptable(packed, limits)
    ensures |packed| <= limits.maxDecodedBytes
  {
  }

  /** A cached null and a cached copy of the sentinel string are never taken for each other. */
  lemma NullIsNotSentinel(rt: Runtime, v: Value, policy: Policy, limits: Limits)
    requires Lawful(rt) && Serialize(rt, v, policy).Some? && Fits(rt, v, policy, Serialize(rt, v, policy).value, limits)
    ensures DecodeNode(rt, Serialize(rt, v, policy).value, limits) == Hit(Null) <==> v.Null? || v.Undefined?
    ensures DecodeNode(rt, Serialize(rt, v, policy).value, limits) == Hit(SENTINEL) <==> v == SENTINEL
  {
    RoundTrip(rt, v, policy, limits);
  }

  // ---------- Node and Worker ----------

  /** A JSON body behind a byte order mark that would be JSON without it. */
  ghost predicate MarkedJson(rt: Runtime, raw: Bytes, limits: Limits) {
    && StartsWith(raw, JSON_TAG) && |raw| <= limits.maxEncodedBytes && StartsWith(raw[4..], BOM)
    && SafeJson(raw[4..], limits) && Utf8.IsUtf8(raw[4..]) && rt.parse(raw[4..][3..]).Some?
  }

  /** The two platforms make the same of a gzip record's body. */
  predicate SameGunzip(node: Runtime, worker: Runtime, raw: Bytes, limits: Limits) {
    StartsWith(raw, TagOf(Gzip)) ==>
      node.decompress(Gzip, raw[4..], limits.maxDecodedBytes) == worker.decompress(Gzip, raw[4..], limits.maxDecodedBytes)
  }

  /** On HC1M, HC1G and HC1J the two readers agree, gzip bodies apart that their platforms read
      differently, except on JSON behind a byte order mark, which only the Worker reads. */
  lemma ReadersAgreeIff(node: Runtime, worker: Runtime, raw: Bytes, limits: Limits)
    requires Lawful(node) && Lawful(worker) && SameValues(node, worker) && limits.Valid()
    requires StartsWith(raw, MSGPACK_TAG) || StartsWith(raw, TagOf(Gzip)) || StartsWith(raw, JSON_TAG)
    requires SameGunzip(node, worker, raw, limits)
    ensures DecodeNode(node, raw, limits) == DecodeWorker(worker, raw, limits) <==> !MarkedJson(worker, raw, limits)
    ensures MarkedJson(worker, raw, limits) ==> DecodeNode(node, raw, limits) == Miss
  {
    assert raw == raw[..4] + raw[4..];
    TagSplits(raw[..4], raw[4..]);
    SentinelIsAcceptable(limits);
    hide MessagePack.Acceptable;
    if StartsWith(raw, MSGPACK_TAG) {
      assert raw[4..] == PACKED_SENTINEL <==> raw == MSGPACK_TAG + PACKED_SENTINEL;
      if !MessagePack.Acceptable(raw[4..], limits) {
      } else {
        AcceptableIsShort(raw[4..], limits);
      }
    } else if StartsWith(raw, JSON_TAG) {
      assert StartsWith(raw[4..], BOM) ==> worker.parse(raw[4..]) == None;
    }
  }

  /** What a Worker writes, both read back, if Node restores what the Worker gzips. */
  lemma PortableRoundTrip(node: Runtime, worker: Runtime, v: Value, auto: bool, limits: Limits)
    requires Lawful(node) && Lawful(worker) && SameValues(node, worker) && Gunzips(node, worker)
    requires SerializePortable(worker, v, auto).Some?
    requires Fits(worker, v, PortablePolicy(auto), SerializePortable(worker, v, auto).value, limits)
    ensures DecodeWorker(worker, SerializePortable(worker, v, auto).value, limits) == Hit(Cached(v))
    ensures DecodeNode(node, SerializePortable(worker, v, auto).value, limits) == Hit(Cached(v))
  {
    PortableWritesAgree(worker, worker, v, auto);
    var raw := SerializePortable(worker, v, auto).value;
    RoundTrip(worker, v, PortablePolicy(auto), limits);
    PortableTag(worker, v, auto);
    PortableGunzips(node, worker, v, auto, limits);
    hide DecodeNode, DecodeWorker, Serialize, SerializePortable, MessagePack.Acceptable;
    ReadersAgreeIff(worker, worker, raw, limits);
    ReadersAgreeIff(node, worker, raw, limits);
  }

  lemma PortableGunzips(node: Runtime, worker: Runtime, v: Value, auto: bool, limits: Limits)
    requires Lawful(worker) && Gunzips(node, worker) && SerializePortable(worker, v, auto).Some?
    ensures SameGunzip(node, worker, SerializePortable(worker, v, auto).value, limits)
  {
    var raw := SerializePortable(worker, v, auto).value;
    if StartsWith(raw, TagOf(Gzip)) {
      var packed := worker.pack(if v.Null? || v.Undefined? then SENTINEL else v).value;
      TagSplits(TagOf(Gzip), worker.compress(Gzip, packed));
      assert raw[..4] == TagOf(Gzip);
      assert raw == TagOf(Gzip) + worker.compress(Gzip, packed);
    }
  }

  lemma PortableTag(rt: Runtime, v: Value, auto: bool)
    requires SerializePortable(rt, v, auto).Some?
    ensures var raw := SerializePortable(rt, v, auto).value;
      StartsWith(raw, MSGPACK_TAG) || StartsWith(raw, TagOf(Gzip)) || StartsWith(raw, JSON_TAG)
  {
  }

  // ---------- Records without a tag ----------

  predicate IsKnownTag(tag: Bytes) {
    tag == MSGPACK_TAG || tag == JSON_TAG || CodecByTag(tag).Some?
  }

  /** No MessagePack record that the validator accepts starts with `HC1`, and none is taken for a
      tagged one, although the reader ignores the top bits of a tag. */
  lemma LegacyIsNotTagged(raw: Bytes, limits: Limits)
    requires MessagePack.Acceptable(raw, limits)
    ensures !StartsWith(raw, FAMILY) && (4 <= |raw| ==> !IsKnownTag(AsciiTag(raw)))
  {
    hide MessagePack.WellFormed, MessagePack.Encode, MessagePack.Depth, MessagePack.Largest, MessagePack.Count, IsKnownTag, AsciiTag;
    var v: MessagePack.Value :| MessagePack.IsValueOf(v, raw, limits);
    if 2 <= |raw| { NotAFixint(v, raw); }
    if 4 <= |raw| {
      if raw[0] == 0xC8 { LongExtension(v, raw); }
      TagOctets(raw);
    }
  }

  /** The octets a reader takes for a known tag. */
  lemma TagOctets(raw: Bytes)
    requires 4 <= |raw|
    ensures IsKnownTag(AsciiTag(raw)) ==> (raw[0] == 0x48 || raw[0] == 0xC8) && raw[1] != 0
    ensures IsKnownTag(AsciiTag(raw)) ==> raw[3] != 0x00 && raw[3] != 0xFF && raw[3] != 0x42 && raw[3] != 0x74
  {
    if IsKnownTag(AsciiTag(raw)) {
      var tag := AsciiTag(raw);
      assert tag[0] == 0x48 && tag[1] == 0x43;
      assert tag[3] == 0x4D || tag[3] == 0x4A || tag[3] == 0x47 || tag[3] == 0x5A || tag[3] == 0x4C || tag[3] == 0x53;
    }
  }

  /** More than one octet cannot start with `H`, a positive fixint. */
  lemma NotAFixint(v: MessagePack.Value, raw: Bytes)
    requires MessagePack.WellFormed(v) && MessagePack.Encode(v) == raw && 2 <= |raw|
    ensures raw[0] != 0x48
  {
    hide MessagePack.BigEndian, MessagePack.EncodeAll, Utf8.IsUtf8, MessagePack.LeafExtension;
    match v
    case Atom(octets) =>
    case Str(head, _) => assert raw[0] == head[0];
    case Bin(head, _) => assert raw[0] == head[0];
    case Ext(head, _, _) => assert raw[0] == head[0];
    case Wrap(head, _, _, _) => assert raw[0] == head[0];
    case Array(head, _) => assert raw[0] == head[0];
    case Map(head, _) => assert raw[0] == head[0];
  }

  /** An extension with a two-octet length is none of ours: either its length is small or its
      kind is not a letter of a tag. */
  lemma LongExtension(v: MessagePack.Value, raw: Bytes)
    requires MessagePack.WellFormed(v) && MessagePack.Encode(v) == raw && 4 <= |raw| && raw[0] == 0xC8
    ensures raw[3] == 0x00 || raw[3] == 0xFF || raw[3] == 0x42 || raw[3] == 0x74 || raw[1] == 0
  {
    hide MessagePack.BigEndian, MessagePack.EncodeAll, Utf8.IsUtf8;
    match v
    case Ext(head, kind, data) => ExtTag(raw, head, [kind] + data, |data|);
    case Wrap(head, kind, mark, inner) => ExtTag(raw, head, [kind, mark] + MessagePack.Encode(inner), 1);
    case _ =>
  }

  lemma ExtTag(raw: Bytes, head: Bytes, rest: Bytes, n: nat)
    requires MessagePack.ExtHead(head, n) && rest != [] && 4 <= |raw| && raw == head + rest && raw[0] == 0xC8
    ensures raw[3] == rest[0] && (n < 0x100 ==> raw[1] == 0)
  {
    assert raw[0] == head[0];
    assert MessagePack.Sized(head, 0xC8, 2, n);
    var length := head[1..];
    assert length[..1][..0] == [] && length[..1] == [head[1]];
    assert MessagePack.BigEndian(length[..1]) == head[1] as int;
  }

  /** Nor does any JSON text. */
  lemma JsonIsNotTagged(t: JsonScan.Text)
    requires JsonScan.GoodText(t)
    ensures var raw := JsonScan.PrintText(t);
      raw != [] && raw[0] != 0x48 && raw[0] != 0xC8 && !StartsWith(raw, FAMILY) && (4 <= |raw| ==> !IsKnownTag(AsciiTag(raw)))
  {
    JsonStart(t.value);
    var raw := JsonScan.PrintText(t);
    hide JsonScan.Print, JsonScan.GoodJson, IsKnownTag, AsciiTag;
    if 4 <= |raw| { TagOctets(raw); }
    assert raw[0] == if t.before == [] then JsonScan.Print(t.value)[0] else t.before[0];
  }

  lemma JsonStart(v: JsonScan.Json)
    requires JsonScan.GoodJson(v)
    ensures JsonScan.Print(v) != [] && JsonScan.Print(v)[0] < 0x80 && JsonScan.Print(v)[0] != 0x48
  {
  }

  /** So every accepted record of an earlier release is read as such. */
  lemma LegacyIsRead(rt: Runtime, raw: Bytes, limits: Limits)
    requires MessagePack.Acceptable(raw, limits) && |raw| <= limits.maxEncodedBytes && rt.unpack(raw).Some?
    ensures DecodeNode(rt, raw, limits) == Unwrapped(Hit(rt.unpack(raw).value))
  {
    LegacyIsNotTagged(raw, limits);
  }

  /** The top bits of a tag make no difference to the Node reader, and all to the Worker's. */
  lemma MaskedTagIsRead(rt: Runtime, body: Bytes, limits: Limits)
    requires |body| + 4 <= limits.maxEncodedBytes && |body| <= limits.maxDecodedBytes
    ensures DecodeNode(rt, [0xC8, 0xC3, 0xB1, 0xCD] + body, limits) == UnpackChecked(rt, body, limits)
    ensures DecodeWorker(rt, [0xC8, 0xC3, 0xB1, 0xCD] + body, limits) == Miss
  {
    var raw: Bytes := [0xC8, 0xC3, 0xB1, 0xCD] + body;
    assert raw[4..] == body;
    assert AsciiTag(raw) == MSGPACK_TAG;
    assert raw[0] == 0xC8 && raw != MSGPACK_TAG + PACKED_SENTINEL;
  }

  // ---------- The loops ----------

  method HasWireTag(bytes: Bytes, tag: Bytes) returns (has: bool)
    requires |tag| == 4
    ensures has <==> StartsWith(bytes, tag)
  {
    if |bytes| < 4 { return false; }
    for index := 0 to 4
      invariant forall i | 0 <= i < index :: bytes[i] == tag[i]
    {
      if bytes[index] != tag[index] { return false; }
    }
    assert bytes[..4] == tag;
    has := true;
  }

  method SameBytes(left: Bytes, right: Bytes) returns (same: bool)
    ensures same <==> left == right
  {
    if |left| != |right| { return false; }
    for index := 0 to |left|
      invariant forall i | 0 <= i < index :: left[i] == right[i]
    {
      if left[index] != right[index] { return false; }
    }
    same := true;
  }

  /** `result.set(chunk, offset)`. */
  method SetAt(result: array<Byte>, chunk: Bytes, offset: nat)
    requires offset + |chunk| <= result.Length
    modifies result
    ensures result[..] == old(result[..offset]) + chunk + old(result[offset + |chunk|..])
  {
    for i := 0 to |chunk|
      invariant result[..offset] == old(result[..offset]) && result[offset + |chunk|..] == old(result[offset + |chunk|..])
      invariant forall k | 0 <= k < i :: result[offset + k] == chunk[k]
    {
      result[offset + i] := chunk[i];
    }
    assert result[offset..offset + |chunk|] == chunk;
    assert result[..] == result[..offset] + result[offset..offset + |chunk|] + result[offset + |chunk|..];
  }

  method WithWireTag(tag: Bytes, body: Bytes) returns (record: Bytes)
    ensures record == tag + body
  {
    var result := new Byte[|tag| + |body|](_ => 0);
    SetAt(result, tag, 0);
    assert result[..|tag|] == tag;
    SetAt(result, body, |tag|);
    record := result[..];
    assert record == tag + body;
  }

  function Concat(chunks: seq<Bytes>): Bytes {
    if chunks == [] then [] else Concat(chunks[..|chunks| - 1]) + chunks[|chunks| - 1]
  }

  lemma {:induction false} ConcatGrows(chunks: seq<Bytes>, n: nat)
    requires n <= |chunks|
    ensures |Concat(chunks[..n])| <= |Concat(chunks)|
    decreases |chunks|
  {
    if n < |chunks| {
      ConcatGrows(chunks[..|chunks| - 1], n);
      assert chunks[..|chunks| - 1][..n] == chunks[..n];
    } else {
      assert chunks[..n] == chunks;
    }
  }

  lemma ConcatNext(chunks: seq<Bytes>, n: nat)
    requires n < |chunks|
    ensures Concat(chunks[..n + 1]) == Concat(chunks[..n]) + chunks[n]
  {
    assert chunks[..n + 1][..n] == chunks[..n];
  }

  /** `transform`: the chunks a stream delivers, joined, or `None` as soon as they exceed the limit;
      how the stream cuts its chunks makes no difference. */
  method Transform(chunks: seq<Bytes>, maxBytes: nat) returns (output: Option<Bytes>)
    ensures output == if |Concat(chunks)| <= maxBytes then Some(Concat(chunks)) else None
  {
    var length, i := 0, 0;
    assert chunks[..0] == [];
    while i < |chunks|
      invariant i <= |chunks| && length == |Concat(chunks[..i])| && length <= maxBytes
    {
      ConcatNext(chunks, i);
      length := length + |chunks[i]|;
      i := i + 1;
      if maxBytes < length {
        ConcatGrows(chunks, i);
        return None;
      }
    }
    assert chunks[..i] == chunks;
    var buffer := new Byte[length](_ => 0);
    var offset, j := 0, 0;
    while j < |chunks|
      invariant j <= |chunks| && offset == |Concat(chunks[..j])| <= buffer.Length
      invariant buffer[..offset] == Concat(chunks[..j])
    {
      ConcatNext(chunks, j);
      ConcatGrows(chunks, j + 1);
      ghost var before := buffer[..];
      SetAt(buffer, chunks[j], offset);
      assert buffer[..offset + |chunks[j]|] == before[..offset] + chunks[j];
      offset := offset + |chunks[j]|;
      j := j + 1;
    }
    assert chunks[..j] == chunks;
    assert buffer[..offset] == buffer[..];
    output := Some(buffer[..]);
  }

  // ---------- The readers, calling the validators ----------

  method UnpackIfSafe(rt: Runtime, payload: Bytes, limits: Limits) returns (d: Decoded)
    requires limits.Valid()
    ensures d == UnpackChecked(rt, payload, limits)
  {
    var ok, _ := MessagePack.IsSafeMessagePack(payload, limits);
    if !ok { return Miss; }
    d := Found(rt.unpack(payload));
  }

  method ParseIfSafe(rt: Runtime, body: Bytes, limits: Limits) returns (d: Decoded)
    requires limits.Valid()
    ensures d == ParseChecked(rt, body, limits)
  {
    var safe := JsonScan.IsSafeJson(body, limits);
    if !safe { return Miss; }
    var utf8 := Utf8.IsSafeUtf8(body, 0, |body|);
    assert body[0..|body|] == body;
    if !utf8 { return Miss; }
    d := Found(rt.parse(body));
  }

  /** `decodeCacheRecord`: each branch returns at once. */
  method DecodeCacheRecord(rt: Runtime, raw: Bytes, limits: Limits) returns (d: Decoded)
    requires limits.Valid()
    ensures d == DecodeNode(rt, raw, limits)
  {
    if limits.maxEncodedBytes < |raw| { return Miss; }
    if 4 <= |raw| {
      var tag, body := AsciiTag(raw), raw[4..];
      var codec := CodecByTag(tag);
      if codec.Some? {
        var expanded := rt.decompress(codec.value, body, limits.maxDecodedBytes);
        if expanded == None || limits.maxDecodedBytes < |expanded.value| { return Miss; }
        if expanded.value == PACKED_SENTINEL { return Hit(Null); }
        d := UnpackIfSafe(rt, expanded.value, limits);
        return;
      }
      if tag == MSGPACK_TAG {
        if limits.maxDecodedBytes < |body| { return Miss; }
        if raw == MSGPACK_TAG + PACKED_SENTINEL { return Hit(Null); }
        d := UnpackIfSafe(rt, body, limits);
        return;
      }
      if tag == JSON_TAG {
        d := ParseIfSafe(rt, body, limits);
        return;
      }
    }
    if StartsWith(raw, FAMILY) { return Miss; }
    d := UnpackIfSafe(rt, raw, limits);
    if d == Miss { d := ParseIfSafe(rt, raw, limits); }
    if d == Hit(SENTINEL) { d := Hit(Null); }
  }

  method CheckThenUnpack(rt: Runtime, packed: Bytes, limits: Limits) returns (d: Decoded)
    requires limits.Valid()
    ensures d == Validated(rt, packed, limits)
  {
    var ok, _ := MessagePack.IsSafeMessagePack(packed, limits);
    if !ok { return Miss; }
    var null_ := SameBytes(packed, PACKED_SENTINEL);
    d := if null_ then Hit(Null) else Found(rt.unpack(packed));
  }

  /** `decodePortableCacheRecord` around `deserializePortable`. */
  method DecodePortableCacheRecord(rt: Runtime, payload: Bytes, limits: Limits) returns (d: Decoded)
    requires limits.Valid()
    ensures d == DecodeWorker(rt, payload, limits)
  {
    if limits.maxEncodedBytes < |payload| { return Miss; }
    var json := HasWireTag(payload, JSON_TAG);
    if json {
      var body := payload[4..];
      var safe := JsonScan.IsSafeJson(body, limits);
      if !safe { return Miss; }
      var utf8 := Utf8.IsSafeUtf8(body, 0, |body|);
      assert body[0..|body|] == body;
      if !utf8 { return Miss; }
      return Found(rt.parse(WithoutBom(body)));
    }
    var packed := HasWireTag(payload, MSGPACK_TAG);
    if packed {
      d := CheckThenUnpack(rt, payload[4..], limits);
      return;
    }
    var gzip := HasWireTag(payload, TagOf(Gzip));
    if !gzip { return Miss; }
    var expanded := rt.decompress(Gzip, payload[4..], limits.maxDecodedBytes);
    if expanded == None { return Miss; }
    d := CheckThenUnpack(rt, expanded.value, limits);
  }
}
