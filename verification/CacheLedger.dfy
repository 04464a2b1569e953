/** The byte-counted maps of `HybridCache` and the ledger they draw on. Every method moves the
    ledger by exactly what it moves the cache's counters, so no release is ever clamped. */
module CacheLedger {
  import opened Common
  import opened ByteLedger
  import opened InflightLoads
  import OriginGate
  import opened OrderedMap
  import Semaphore
  import Utf16

  const MAX_GENERATION_ENTRIES: nat := 10000
  const MAX_GENERATION_BYTES: nat := 2 * 1024 * 1024
  const MAX_SAFE_INTEGER: nat := 9007199254740991
  const FOLLOWER_METADATA_BYTES: nat := 160

  /** What `rememberStale` counts for a copy of `size` octets. */
  function StaleBytes(key: Key, size: nat): nat {
    size + Utf16.ByteLength(key.text) * 2 + 80
  }

  /** One entry of a counted map. Its value is what the map stores besides: a generation, the
      arena position of a revision record, or nothing. */
  type Item = OrderedMap.Item<nat>

  // ---------- Counted maps ----------

  predicate Counted(m: seq<Item>, bytes: nat) {
    Distinct(m) && bytes == ByteSum(m)
  }

  /** Dropping from the front until both limits hold. */
  function Trim(m: seq<Item>, maxEntries: nat, maxBytes: nat): (r: seq<Item>)
    ensures |r| <= maxEntries && ByteSum(r) <= maxBytes && |r| <= |m|
  {
    if |m| <= maxEntries && ByteSum(m) <= maxBytes then m else Trim(m[1..], maxEntries, maxBytes)
  }

  /** One turn of a trimming loop, or its end. */
  lemma TrimTurn(m: seq<Item>, maxEntries: nat, maxBytes: nat)
    ensures if |m| <= maxEntries && ByteSum(m) <= maxBytes then Trim(m, maxEntries, maxBytes) == m
            else m != [] && Trim(m, maxEntries, maxBytes) == Trim(m[1..], maxEntries, maxBytes)
  {
  }

  /** The oldest entries gone that leave no room for one more. */
  function Shortened(m: seq<Item>, maxEntries: Option<nat>): seq<Item>
    requires maxEntries != Some(0)
  {
    if maxEntries.Some? then Trim(m, maxEntries.value - 1, ByteSum(m)) else m
  }

  /** The key's entry gone, and the oldest others that leave no room for its bytes. */
  function RoomFor(m: seq<Item>, key: Key, bytes: nat): seq<Item>
    requires bytes <= MAX_AUXILIARY_MAP_BYTES
  {
    Trim(Without(m, key), |Without(m, key)|, MAX_AUXILIARY_MAP_BYTES - bytes)
  }

  /** A reservation decides: `entry` joins what is left of the map, or nothing does. `spare` is
      what the map may count at most while the rest of the ledger stays. */
  predicate Renewed(rest: seq<Item>, entry: Item, spare: int, m: seq<Item>, kept: bool) {
    kept == (ByteSum(rest) + entry.bytes <= spare) && m == if kept then rest + [entry] else rest
  }

  /** What is left are the newest entries, in order. */
  lemma {:induction false} TrimIsTail(m: seq<Item>, maxEntries: nat, maxBytes: nat)
    ensures var r := Trim(m, maxEntries, maxBytes); r == m[|m| - |r|..]
  {
    if !(|m| <= maxEntries && ByteSum(m) <= maxBytes) {
      TrimIsTail(m[1..], maxEntries, maxBytes);
      var r := Trim(m[1..], maxEntries, maxBytes);
      assert m[1..][|m| - 1 - |r|..] == m[|m| - |r|..];
    }
  }

  /** What is trimmed had to go: every longer tail breaks a limit. */
  lemma {:induction false} TrimIsLeast(m: seq<Item>, maxEntries: nat, maxBytes: nat, k: nat)
    requires k < |m| - |Trim(m, maxEntries, maxBytes)|
    ensures maxEntries < |m[k..]| || maxBytes < ByteSum(m[k..])
  {
    if k == 0 {
      assert m[0..] == m;
    } else {
      assert m[1..][k - 1..] == m[k..];
      TrimIsLeast(m[1..], maxEntries, maxBytes, k - 1);
    }
  }

  lemma OneFits(m: seq<Item>, maxEntries: nat, maxBytes: nat)
    requires m != [] && 0 < maxEntries && m[|m| - 1].bytes <= maxBytes
    ensures |m| == 1 ==> |m| <= maxEntries && ByteSum(m) <= maxBytes
  {
    if |m| == 1 { assert m[1..] == [] && ByteSum(m[1..]) == 0; }
  }

  lemma {:induction false} TrimKeepsLast(m: seq<Item>, maxEntries: nat, maxBytes: nat)
    requires m != [] && 0 < maxEntries && m[|m| - 1].bytes <= maxBytes
    ensures Has(Trim(m, maxEntries, maxBytes), m[|m| - 1].key)
  {
    if |m| <= maxEntries && ByteSum(m) <= maxBytes {
      LastIsHeld(m);
    } else {
      assert |m| != 1 by { OneFits(m, maxEntries, maxBytes); }
      TrimKeepsLast(m[1..], maxEntries, maxBytes);
    }
  }

  // ---------- Generations as a map ----------

  /** `getGeneration`. */
  function Current(m: seq<Item>, text: seq<Unit>): nat {
    if Has(m, Key(text, false)) then Get(m, Key(text, false)).value else 0
  }

  /** The generation a delete moves a key to: the event's, or else the next one. */
  function AfterDelete(m: seq<Item>, text: seq<Unit>, generation: Option<int>): int {
    if generation.Some? then Max(Current(m, text), generation.value) else Current(m, text) + 1
  }

  /** `left` is what the ledger has left when `storeGeneration` asks. */
  predicate Storable(m: seq<Item>, text: seq<Unit>, generation: int, left: int) {
    && 0 <= generation <= MAX_SAFE_INTEGER
    && (Has(m, Key(text, false)) ||
        (|m| < MAX_GENERATION_ENTRIES && ByteSum(m) + KeyMetadataBytes(Key(text, false)) <= MAX_GENERATION_BYTES &&
         KeyMetadataBytes(Key(text, false)) <= left))
  }

  function Stored(m: seq<Item>, text: seq<Unit>, generation: nat): seq<Item> {
    var key := Key(text, false);
    if Has(m, key) then Retagged(m, key, generation) else m + [Item(key, KeyMetadataBytes(key), generation)]
  }

  lemma StandsStill(l: Ledger, h: Books)
    requires Sound(l)
    ensures Moves(l, h, l, h)
  {
  }

  /** Moves of one holder, one after the other. */
  lemma MovesTogether(l0: Ledger, h0: Books, l1: Ledger, h1: Books, l2: Ledger, h2: Books)
    requires Moves(l0, h0, l1, h1) && Moves(l1, h1, l2, h2)
    ensures Moves(l0, h0, l2, h2)
  {
  }

  /** A revision record; guards share it by reference. */
  datatype Revision = Revision(key: Key, bytes: nat, references: nat, registered: bool)

  predicate Listed(r: Revision, i: Item) {
    r.key == i.key && r.bytes == i.bytes && r.registered && 0 < r.references
  }

  predicate AllListed(m: seq<Item>, records: seq<Revision>) {
    forall i | i in m :: i.value < |records| && Listed(records[i.value], i)
  }

  /** A new record leaves the list as it is, or joins it. */
  lemma ListedGrows(m: seq<Item>, records: seq<Revision>, r: Revision)
    requires AllListed(m, records)
    ensures AllListed(m, records + [r])
    ensures r.registered && 0 < r.references ==> AllListed(m + [Item(r.key, r.bytes, |records|)], records + [r])
  {
  }

  datatype Guard = Guard(key: Key, record: nat)

  class HybridCache {
    const memoryBudget: MemoryBudget
    const originGate: OriginGate.OriginLoadGate
    const versioned: bool
    var closed: bool
    var inflight: seq<Load>
    var inflightBytes: nat
    var stale: seq<Item>
    var staleBytes: nat
    var negative: seq<Item>
    var negativeBytes: nat
    var generations: seq<Item>
    var generationBytes: nat
    var generationTrackingSaturated: bool
    var seenEvents: seq<Item>
    var seenEventBytes: nat
    var records: seq<Revision>
    var keyRevisions: seq<Item>
    var keyRevisionBytes: nat
    var activeFollowers: nat
    var followerBytes: nat
    var retained: seq<nat>
    var retainedBytes: nat

    ghost predicate StaleOk()
      reads this`stale, this`staleBytes, this`closed
    {
      Counted(stale, staleBytes) && (closed ==> stale == [])
    }

    ghost predicate InflightOk()
      reads this`inflight, this`inflightBytes, this`closed
    {
      && Loads().Valid() && inflightBytes <= MAX_AUXILIARY_MAP_BYTES
      && (closed ==> inflight == [] && inflightBytes == 0)
    }

    ghost predicate NegativeOk()
      reads this`negative, this`negativeBytes, this`closed
    {
      Counted(negative, negativeBytes) && negativeBytes <= MAX_AUXILIARY_MAP_BYTES && (closed ==> negative == [])
    }

    ghost predicate GenerationsOk()
      reads this`generations, this`generationBytes
    {
      && Counted(generations, generationBytes) && generationBytes <= MAX_GENERATION_BYTES
      && |generations| <= MAX_GENERATION_ENTRIES && forall i | i in generations :: 96 <= i.bytes
    }

    ghost predicate SeenOk()
      reads this`seenEvents, this`seenEventBytes, this`closed
    {
      Counted(seenEvents, seenEventBytes) && seenEventBytes <= MAX_AUXILIARY_MAP_BYTES && (closed ==> seenEvents == [])
    }

    ghost predicate RevisionsOk()
      reads this`keyRevisions, this`keyRevisionBytes, this`records
    {
      && Counted(keyRevisions, keyRevisionBytes) && keyRevisionBytes <= MAX_AUXILIARY_MAP_BYTES
      && AllListed(keyRevisions, records)
    }

    ghost predicate TasksOk()
      reads this`activeFollowers, this`followerBytes, this`retained, this`retainedBytes
    {
      followerBytes == activeFollowers * FOLLOWER_METADATA_BYTES && retainedBytes == Total(retained)
    }

    /** The counters are the sums of what they count, within their limits; that of the loads may
        exceed its sum. A closed cache keeps no stale, negative, seen or in-flight entry. */
    ghost predicate Valid()
      reads this
    {
      StaleOk() && InflightOk() && NegativeOk() && GenerationsOk() && SeenOk() && RevisionsOk() && TasksOk()
    }

    /** The cache's share of the ledger. */
    function Holdings(): Books
      reads this, originGate`queuedBytes
    {
      Books(0, staleBytes, 0, retainedBytes + originGate.queuedBytes, 0,
            inflightBytes + negativeBytes + generationBytes + seenEventBytes + keyRevisionBytes + followerBytes)
    }

    /** What a map of the cache may count while the rest of the ledger stays as it is. */
    ghost function Spare<T>(m: seq<OrderedMap.Item<T>>): int
      reads memoryBudget
    {
      memoryBudget.target - memoryBudget.used + ByteSum(m)
    }

    /** The gate draws on the same ledger, and closes with the cache. */
    ghost predicate GateOk()
      reads this`closed, originGate`closed, originGate`queuedBytes
    {
      originGate.memoryBudget == memoryBudget && (closed ==> originGate.closed && originGate.queuedBytes == 0)
    }

    ghost predicate Ready()
      reads this, memoryBudget, originGate`closed, originGate`queuedBytes
    {
      && Valid() && GateOk() && Sound(memoryBudget.State())
      && Covers(memoryBudget.categories, Holdings())
    }

    constructor (memoryBudget: MemoryBudget, maxConcurrent: nat, maxQueued: nat, versioned: bool)
      requires Sound(memoryBudget.State()) && 0 < maxConcurrent
      ensures this.memoryBudget == memoryBudget && this.versioned == versioned && Ready() && Holdings() == EMPTY && !closed
      ensures fresh(originGate) && originGate.Valid() && originGate.State() == Semaphore.Fresh(maxConcurrent)
    {
      this.memoryBudget, this.versioned := memoryBudget, versioned;
      originGate := new OriginGate.OriginLoadGate(memoryBudget, maxConcurrent, maxQueued);
      closed := false;
      inflight, inflightBytes, stale, staleBytes, negative, negativeBytes := [], 0, [], 0, [], 0;
      generations, generationBytes, generationTrackingSaturated, seenEvents, seenEventBytes := [], 0, false, [], 0;
      records, keyRevisions, keyRevisionBytes := [], [], 0;
      activeFollowers, followerBytes, retained, retainedBytes := 0, 0, [], 0;
    }

    // ---------- Stale copies ----------

    method RemoveStale(key: Key)
      requires Ready()
      modifies this`stale, this`staleBytes, memoryBudget`used, memoryBudget`categories
      ensures Ready() && Moves(old(memoryBudget.State()), old(Holdings()), memoryBudget.State(), Holdings())
      ensures stale == Without(old(stale), key) && Spare(stale) == old(Spare(stale))
    {
      hide InflightOk, NegativeOk, GenerationsOk, SeenOk, RevisionsOk, TasksOk;
      WithoutCounts(stale, key);
      if Has(stale, key) {
        var entry := Get(stale, key);
        staleBytes := staleBytes - entry.bytes;
        memoryBudget.Release(entry.bytes, Stale);
      }
      stale := Without(stale, key);
    }

    /** `rememberStale` once the value is encoded: the old copy goes first, then the new one
        is kept if it fits, the oldest copies making room. */
    method RememberStale(key: Key, size: nat, maxEntries: nat, maxBytes: nat) returns (kept: bool)
      requires Ready()
      modifies this`stale, this`staleBytes, memoryBudget`used, memoryBudget`categories
      ensures Ready() && Moves(old(memoryBudget.State()), old(Holdings()), memoryBudget.State(), Holdings())
      ensures closed ==> stale == old(stale)
      ensures !closed ==> stale == if kept then Trim(Without(old(stale), key) + [Item(key, StaleBytes(key, size), 0)], maxEntries, maxBytes) else Without(old(stale), key)
      ensures kept <==>
        && !closed && 0 < maxEntries && StaleBytes(key, size) <= maxBytes
        && ByteSum(Without(old(stale), key)) + StaleBytes(key, size) <= old(Spare(stale))
      ensures kept ==> Has(stale, key)
    {
      hide Moves, Sound, Covers, Without, Has, Trim, Utf16.ByteLength, ByteSum;
      hide StaleOk, InflightOk, NegativeOk, GenerationsOk, SeenOk, RevisionsOk, TasksOk, Holdings, Valid;
      ghost var l0, h0 := memoryBudget.State(), Holdings();
      StandsStill(l0, h0);
      if closed { return false; }
      StaleWithout(key);
      RemoveStale(key);
      if maxEntries == 0 || maxBytes == 0 { return false; }
      var bytes := StaleBytes(key, size);
      if maxBytes < bytes { return false; }
      ghost var l1, h1 := memoryBudget.State(), Holdings();
      kept := KeepStale(Item(key, bytes, 0));
      ghost var l2, h2 := memoryBudget.State(), Holdings();
      MovesTogether(l0, h0, l1, h1, l2, h2);
      if !kept { return; }
      TrimKeepsLast(stale, maxEntries, maxBytes);
      TrimStale(maxEntries, maxBytes);
      MovesTogether(l0, h0, l2, h2, memoryBudget.State(), Holdings());
    }

    lemma StaleWithout(key: Key)
      requires Ready()
      ensures !Has(Without(stale, key), key)
    {
      WithoutCounts(stale, key);
    }

    /** The reservation and insertion inside `rememberStale`. */
    method KeepStale(entry: Item) returns (reserved: bool)
      requires Ready() && !closed && !Has(stale, entry.key)
      modifies this`stale, this`staleBytes, memoryBudget`used, memoryBudget`categories
      ensures Ready() && Moves(old(memoryBudget.State()), old(Holdings()), memoryBudget.State(), Holdings())
      ensures Renewed(old(stale), entry, old(Spare(stale)), stale, reserved)
    {
      hide InflightOk, NegativeOk, GenerationsOk, SeenOk, RevisionsOk, TasksOk;
      reserved := memoryBudget.TryReserve(entry.bytes, Stale);
      if !reserved { return; }
      AppendCounts(stale, entry);
      stale := stale + [entry];
      staleBytes := staleBytes + entry.bytes;
    }

    /** The loop at the end of `rememberStale`. */
    method TrimStale(maxEntries: nat, maxBytes: nat)
      requires Ready()
      modifies this`stale, this`staleBytes, memoryBudget`used, memoryBudget`categories
      ensures Ready() && Moves(old(memoryBudget.State()), old(Holdings()), memoryBudget.State(), Holdings())
      ensures stale == Trim(old(stale), maxEntries, maxBytes) && Spare(stale) == old(Spare(stale))
    {
      hide InflightOk, NegativeOk, GenerationsOk, SeenOk, RevisionsOk, TasksOk, Moves, Sound, Covers, Holdings, Distinct, Trim, ByteSum;
      ghost var l0, h0 := memoryBudget.State(), Holdings();
      StandsStill(l0, h0);
      TrimTurn(stale, maxEntries, maxBytes);
      while maxEntries < |stale| || maxBytes < staleBytes
        modifies this`stale, this`staleBytes, memoryBudget`used, memoryBudget`categories
        invariant Ready() && Moves(old(memoryBudget.State()), old(Holdings()), memoryBudget.State(), Holdings())
        invariant Trim(stale, maxEntries, maxBytes) == Trim(old(stale), maxEntries, maxBytes)
        invariant Spare(stale) == old(Spare(stale))
        decreases |stale|
      {
        ghost var l1, h1 := memoryBudget.State(), Holdings();
        TrimTurn(stale, maxEntries, maxBytes);
        var _ := EvictOneStale();
        MovesTogether(l0, h0, l1, h1, memoryBudget.State(), Holdings());
      }
      TrimTurn(stale, maxEntries, maxBytes);
    }

    method ClearStale()
      requires Ready()
      modifies this`stale, this`staleBytes, memoryBudget`used, memoryBudget`categories
      ensures Ready() && Moves(old(memoryBudget.State()), old(Holdings()), memoryBudget.State(), Holdings())
      ensures stale == []
    {
      hide InflightOk, NegativeOk, GenerationsOk, SeenOk, RevisionsOk, TasksOk;
      if 0 < staleBytes { memoryBudget.Release(staleBytes, Stale); }
      stale := [];
      staleBytes := 0;
    }

    /** What the ledger calls under pressure. */
    method EvictOneStale() returns (evicted: bool)
      requires Ready()
      modifies this`stale, this`staleBytes, memoryBudget`used, memoryBudget`categories
      ensures Ready() && Moves(old(memoryBudget.State()), old(Holdings()), memoryBudget.State(), Holdings())
      ensures evicted == (old(stale) != []) && stale == if evicted then old(stale)[1..] else []
      ensures Spare(stale) == old(Spare(stale))
    {
      if stale == [] { return false; }
      RemoveStale(stale[0].key);
      evicted := true;
    }

    // ---------- Loads in flight ----------

    /** The tracked loads and their counter. */
    function Loads(): Flights
      reads this`inflight, this`inflightBytes
    {
      Flights(inflight, inflightBytes)
    }

    /** What the ledger has left once an expired load of the key is pruned. */
    ghost function LoadRoom(key: Key, now: int): int
      reads this`inflight, this`inflightBytes, memoryBudget
    {
      memoryBudget.target - memoryBudget.used + inflightBytes - Pruned(Loads(), key, now).bytes
    }

    /** The end of `getOrSet`, from the second look at the map to the registration of the load, with
        nothing awaited in between. The two clock readings are parameters. */
    method LookInflight(key: Key, first: int, second: int, flight: Flight, maxEntries: Option<nat>) returns (outcome: Outcome)
      requires Ready() && !closed
      modifies this`inflight, this`inflightBytes, memoryBudget`used, memoryBudget`categories
      ensures Ready() && Moves(old(memoryBudget.State()), old(Holdings()), memoryBudget.State(), Holdings())
      ensures (Loads(), outcome) == Looked(old(Loads()), key, first, second, flight, maxEntries, old(LoadRoom(key, first)))
    {
      hide StaleOk, InflightOk, NegativeOk, GenerationsOk, SeenOk, RevisionsOk, TasksOk, Valid, GateOk, Holdings;
      hide Moves, Sound, Covers, Admitted, Tracked;
      ghost var l0, h0 := memoryBudget.State(), Holdings();
      PruneInflight(key, first);
      if Has(inflight, key) && !IsExpired(Get(inflight, key), second) { return Joined; }
      ghost var l1, h1 := memoryBudget.State(), Holdings();
      var tracked := StartInflight(key, flight, maxEntries);
      MovesTogether(l0, h0, l1, h1, memoryBudget.State(), Holdings());
      outcome := if tracked then Started else Bypassed;
    }

    /** `reserveInflight` and the registration of the load. */
    method StartInflight(key: Key, flight: Flight, maxEntries: Option<nat>) returns (tracked: bool)
      requires Ready() && !closed
      modifies this`inflight, this`inflightBytes, memoryBudget`used, memoryBudget`categories
      ensures Ready() && Moves(old(memoryBudget.State()), old(Holdings()), memoryBudget.State(), Holdings())
      ensures tracked == Admitted(old(Loads()), key, maxEntries, old(memoryBudget.target - memoryBudget.used))
      ensures Loads() == if tracked then Tracked(old(Loads()), key, flight) else old(Loads())
    {
      hide StaleOk, NegativeOk, GenerationsOk, SeenOk, RevisionsOk, TasksOk, GateOk, KeyMetadataBytes, Flights.Valid, Retagged, Has;
      ghost var f := Loads();
      if maxEntries.Some? && maxEntries.value <= |inflight| { return false; }
      var bytes := KeyMetadataBytes(key);
      if MAX_AUXILIARY_MAP_BYTES < inflightBytes + bytes { return false; }
      tracked := memoryBudget.TryReserve(bytes, Coordination);
      if !tracked { return; }
      TrackedKeeps(f, key, flight);
      inflightBytes := inflightBytes + bytes;
      inflight := if Has(inflight, key) then Retagged(inflight, key, flight) else inflight + [OrderedMap.Item(key, bytes, flight)];
    }

    /** `pruneInflightKey`. */
    method PruneInflight(key: Key, now: int)
      requires Ready()
      modifies this`inflight, this`inflightBytes, memoryBudget`used, memoryBudget`categories
      ensures Ready() && Moves(old(memoryBudget.State()), old(Holdings()), memoryBudget.State(), Holdings())
      ensures Loads() == Pruned(old(Loads()), key, now)
      ensures memoryBudget.used == old(memoryBudget.used) - old(inflightBytes) + inflightBytes
    {
      hide StaleOk, InflightOk, NegativeOk, GenerationsOk, SeenOk, RevisionsOk, TasksOk, Valid, Moves, Sound, Covers, GateOk;
      StandsStill(memoryBudget.State(), Holdings());
      if Has(inflight, key) && IsExpired(Get(inflight, key), now) { RemoveInflight(key); }
    }

    /** A load settled. An expired or invalidated one may have been replaced meanwhile. */
    method CompleteInflight(key: Key, promise: nat)
      requires Ready()
      modifies this`inflight, this`inflightBytes, memoryBudget`used, memoryBudget`categories
      ensures Ready() && Moves(old(memoryBudget.State()), old(Holdings()), memoryBudget.State(), Holdings())
      ensures Loads() == Completed(old(Loads()), key, promise)
    {
      hide StaleOk, InflightOk, NegativeOk, GenerationsOk, SeenOk, RevisionsOk, TasksOk, Valid, Moves, Sound, Covers, GateOk;
      StandsStill(memoryBudget.State(), Holdings());
      if Has(inflight, key) && Get(inflight, key).value.promise == promise { RemoveInflight(key); }
    }

    method RemoveInflight(key: Key)
      requires Ready()
      modifies this`inflight, this`inflightBytes, memoryBudget`used, memoryBudget`categories
      ensures Ready() && Moves(old(memoryBudget.State()), old(Holdings()), memoryBudget.State(), Holdings())
      ensures Loads() == Forgotten(old(Loads()), key) && inflight == Without(old(inflight), key)
      ensures memoryBudget.used == old(memoryBudget.used) - old(inflightBytes) + inflightBytes
      ensures Spare(inflight) == old(Spare(inflight))
    {
      hide StaleOk, NegativeOk, GenerationsOk, SeenOk, RevisionsOk, TasksOk;
      WithoutCounts(inflight, key);
      ForgottenKeeps(Loads(), key);
      hide KeyMetadataBytes;
      if !Has(inflight, key) { AbsentStays(inflight, key); return; }
      var entry := Get(inflight, key);
      inflight := Without(inflight, key);
      inflightBytes := inflightBytes - entry.bytes;
      memoryBudget.Release(entry.bytes, Coordination);
    }

    method ClearInflight()
      requires Ready()
      modifies this`inflight, this`inflightBytes, memoryBudget`used, memoryBudget`categories
      ensures Ready() && Moves(old(memoryBudget.State()), old(Holdings()), memoryBudget.State(), Holdings())
      ensures Loads() == Flights([], 0)
    {
      hide StaleOk, NegativeOk, GenerationsOk, SeenOk, RevisionsOk, TasksOk;
      memoryBudget.Release(inflightBytes, Coordination);
      inflightBytes := 0;
      inflight := [];
    }

    /** A follower waits on a load in flight; its bytes go back when it stops waiting. */
    method JoinInflight(maxWaiters: nat) returns (joined: bool)
      requires Ready()
      modifies this`activeFollowers, this`followerBytes, memoryBudget`used, memoryBudget`categories
      ensures Ready() && Moves(old(memoryBudget.State()), old(Holdings()), memoryBudget.State(), Holdings())
      ensures activeFollowers == old(activeFollowers) + if joined then 1 else 0
      ensures joined <==> old(activeFollowers) < maxWaiters && old(memoryBudget.used) + FOLLOWER_METADATA_BYTES <= memoryBudget.target
    {
      hide StaleOk, InflightOk, NegativeOk, GenerationsOk, SeenOk, RevisionsOk;
      if maxWaiters <= activeFollowers { return false; }
      joined := memoryBudget.TryReserve(FOLLOWER_METADATA_BYTES, Coordination);
      if !joined { return; }
      activeFollowers := activeFollowers + 1;
      followerBytes := followerBytes + FOLLOWER_METADATA_BYTES;
    }

    method LeaveInflight()
      requires Ready() && 0 < activeFollowers
      modifies this`activeFollowers, this`followerBytes, memoryBudget`used, memoryBudget`categories
      ensures Ready() && Moves(old(memoryBudget.State()), old(Holdings()), memoryBudget.State(), Holdings())
      ensures activeFollowers == old(activeFollowers) - 1
    {
      hide StaleOk, InflightOk, NegativeOk, GenerationsOk, SeenOk, RevisionsOk;
      activeFollowers := activeFollowers - 1;
      followerBytes := followerBytes - FOLLOWER_METADATA_BYTES;
      memoryBudget.Release(FOLLOWER_METADATA_BYTES, Coordination);
    }

    // ---------- Commands to the second tier ----------

    /** `runL2` keeps its reservation until the command settles. */
    method RetainCommand(bytes: nat) returns (reserved: bool)
      requires Ready()
      modifies this`retained, this`retainedBytes, memoryBudget`used, memoryBudget`categories
      ensures Ready() && Moves(old(memoryBudget.State()), old(Holdings()), memoryBudget.State(), Holdings())
      ensures retained == if reserved then [bytes] + old(retained) else old(retained)
      ensures reserved == (old(memoryBudget.used) + bytes <= memoryBudget.target)
    {
      hide StaleOk, InflightOk, NegativeOk, GenerationsOk, SeenOk, RevisionsOk;
      reserved := memoryBudget.TryReserve(bytes, Queue);
      if !reserved { return; }
      retained := [bytes] + retained;
      retainedBytes := retainedBytes + bytes;
    }

    method ReleaseCommand(i: nat)
      requires Ready() && i < |retained|
      modifies this`retained, this`retainedBytes, memoryBudget`used, memoryBudget`categories
      ensures Ready() && Moves(old(memoryBudget.State()), old(Holdings()), memoryBudget.State(), Holdings())
      ensures retained == old(retained)[..i] + old(retained)[i + 1..]
    {
      hide StaleOk, InflightOk, NegativeOk, GenerationsOk, SeenOk, RevisionsOk;
      TotalWithout(retained, i);
      memoryBudget.Release(retained[i], Queue);
      retainedBytes := retainedBytes - retained[i];
      retained := retained[..i] + retained[i + 1..];
    }

    // ---------- Loads before the origin ----------

    /** A load that asks for a slot: what its key takes while it waits is the cache's. */
    method AcquireOrigin(key: Key, aborted: bool)
      requires Ready() && originGate.Valid()
      modifies originGate, memoryBudget`used, memoryBudget`categories
      ensures Ready() && originGate.Valid() && Moves(old(memoryBudget.State()), old(Holdings()), memoryBudget.State(), Holdings())
      ensures originGate.State() ==
        if aborted then Semaphore.TurnAway(old(originGate.State()))
        else Semaphore.Arrive(old(originGate.State()), OriginGate.WaiterBytes(key.text), None, old(originGate.Fits(key.text)))
    {
      hide StaleOk, InflightOk, NegativeOk, GenerationsOk, SeenOk, RevisionsOk, TasksOk;
      originGate.Acquire(key.text, aborted);
      ClosedGateIsEmpty();
    }

    /** The load is over, or never began: its slot goes on. */
    method ReleaseOrigin(id: nat)
      requires Ready() && originGate.Valid()
      modifies originGate, memoryBudget`used, memoryBudget`categories
      ensures Ready() && originGate.Valid() && Moves(old(memoryBudget.State()), old(Holdings()), memoryBudget.State(), Holdings())
      ensures originGate.outstanding == old(originGate.outstanding) - {id} +
        if id in old(originGate.outstanding) && old(originGate.queue) != [] then {old(originGate.queue)[0].id} else {}
    {
      hide StaleOk, InflightOk, NegativeOk, GenerationsOk, SeenOk, RevisionsOk, TasksOk;
      originGate.Release(id);
      ClosedGateIsEmpty();
    }

    /** A waiting load gives up. */
    method LeaveOrigin(id: nat, fate: Semaphore.Fate)
      requires Ready() && originGate.Valid() && !fate.Started?
      modifies originGate, memoryBudget`used, memoryBudget`categories
      ensures Ready() && originGate.Valid() && Moves(old(memoryBudget.State()), old(Holdings()), memoryBudget.State(), Holdings())
      ensures originGate.State() == Semaphore.Leave(old(originGate.State()), id, fate)
    {
      hide StaleOk, InflightOk, NegativeOk, GenerationsOk, SeenOk, RevisionsOk, TasksOk;
      originGate.LeaveQueue(id, fate);
      ClosedGateIsEmpty();
    }

    lemma ClosedGateIsEmpty()
      requires originGate.Valid()
      ensures originGate.closed ==> originGate.queuedBytes == 0
    {
    }

    // ---------- Known absences ----------

    method RemoveNegative(key: Key)
      requires Ready()
      modifies this`negative, this`negativeBytes, memoryBudget`used, memoryBudget`categories
      ensures Ready() && Moves(old(memoryBudget.State()), old(Holdings()), memoryBudget.State(), Holdings())
      ensures negative == Without(old(negative), key) && Spare(negative) == old(Spare(negative))
    {
      hide StaleOk, InflightOk, GenerationsOk, SeenOk, RevisionsOk, TasksOk;
      WithoutCounts(negative, key);
      if !Has(negative, key) { AbsentStays(negative, key); return; }
      var entry := Get(negative, key);
      negativeBytes := negativeBytes - entry.bytes;
      memoryBudget.Release(entry.bytes, Coordination);
      negative := Without(negative, key);
    }

    method ClearNegative()
      requires Ready()
      modifies this`negative, this`negativeBytes, memoryBudget`used, memoryBudget`categories
      ensures Ready() && Moves(old(memoryBudget.State()), old(Holdings()), memoryBudget.State(), Holdings())
      ensures negative == []
    {
      hide StaleOk, InflightOk, GenerationsOk, SeenOk, RevisionsOk, TasksOk;
      memoryBudget.Release(negativeBytes, Coordination);
      negativeBytes := 0;
      negative := [];
    }

    /** The two eviction loops of `setNegative`. */
    method TrimNegative(maxEntries: nat, maxBytes: nat)
      requires Ready()
      modifies this`negative, this`negativeBytes, memoryBudget`used, memoryBudget`categories
      ensures Ready() && Moves(old(memoryBudget.State()), old(Holdings()), memoryBudget.State(), Holdings())
      ensures negative == Trim(old(negative), maxEntries, maxBytes) && Spare(negative) == old(Spare(negative))
    {
      hide StaleOk, InflightOk, GenerationsOk, SeenOk, RevisionsOk, TasksOk, Moves, Sound, Covers, Holdings, Distinct;
      ghost var l0, h0 := memoryBudget.State(), Holdings();
      StandsStill(l0, h0);
      while maxEntries < |negative| || maxBytes < negativeBytes
        modifies this`negative, this`negativeBytes, memoryBudget`used, memoryBudget`categories
        invariant Ready() && Moves(old(memoryBudget.State()), old(Holdings()), memoryBudget.State(), Holdings())
        invariant Trim(negative, maxEntries, maxBytes) == Trim(old(negative), maxEntries, maxBytes)
        invariant Spare(negative) == old(Spare(negative))
        decreases |negative|
      {
        ghost var l1, h1 := memoryBudget.State(), Holdings();
        RemoveNegative(negative[0].key);
        MovesTogether(l0, h0, l1, h1, memoryBudget.State(), Holdings());
      }
    }

    method KeepNegative(entry: Item) returns (reserved: bool)
      requires Ready() && !closed && !Has(negative, entry.key) && negativeBytes + entry.bytes <= MAX_AUXILIARY_MAP_BYTES
      modifies this`negative, this`negativeBytes, memoryBudget`used, memoryBudget`categories
      ensures Ready() && Moves(old(memoryBudget.State()), old(Holdings()), memoryBudget.State(), Holdings())
      ensures Renewed(old(negative), entry, old(Spare(negative)), negative, reserved)
    {
      hide StaleOk, InflightOk, GenerationsOk, SeenOk, RevisionsOk, TasksOk;
      reserved := memoryBudget.TryReserve(entry.bytes, Coordination);
      if !reserved { return; }
      AppendCounts(negative, entry);
      negative := negative + [entry];
      negativeBytes := negativeBytes + entry.bytes;
    }

    lemma NegativeRoom(key: Key, maxEntries: nat, maxBytes: nat)
      requires Ready()
      ensures negativeBytes == ByteSum(negative) && (closed ==> negative == [])
      ensures !Has(Trim(Without(negative, key), maxEntries, maxBytes), key)
      ensures |Without(negative, key)| <= |negative|
    {
      WithoutCounts(negative, key);
      TrimAdds(Without(negative, key), key, maxEntries, maxBytes);
    }

    /** The end of `setNegative`: the key's old entry goes, the oldest make room for its bytes. */
    method AddNegative(key: Key) returns (kept: bool)
      requires Ready() && !closed
      modifies this`negative, this`negativeBytes, memoryBudget`used, memoryBudget`categories
      ensures Ready() && Moves(old(memoryBudget.State()), old(Holdings()), memoryBudget.State(), Holdings())
      ensures KeyMetadataBytes(key) <= MAX_AUXILIARY_MAP_BYTES ==> Renewed(RoomFor(old(negative), key, KeyMetadataBytes(key)), Item(key, KeyMetadataBytes(key), 0), old(Spare(negative)), negative, kept)
      ensures MAX_AUXILIARY_MAP_BYTES < KeyMetadataBytes(key) ==> negative == old(negative) && !kept
    {
      hide StaleOk, InflightOk, NegativeOk, GenerationsOk, SeenOk, RevisionsOk, TasksOk, Valid, Holdings;
      hide Moves, Sound, Covers, Without, Has, Trim, KeyMetadataBytes;
      ghost var l0, h0 := memoryBudget.State(), Holdings();
      StandsStill(l0, h0);
      var bytes := KeyMetadataBytes(key);
      if MAX_AUXILIARY_MAP_BYTES < bytes { return false; }
      NegativeRoom(key, |Without(negative, key)|, MAX_AUXILIARY_MAP_BYTES - bytes);
      RemoveNegative(key);
      ghost var l1, h1 := memoryBudget.State(), Holdings();
      TrimNegative(|negative|, MAX_AUXILIARY_MAP_BYTES - bytes);
      ghost var l2, h2 := memoryBudget.State(), Holdings();
      MovesTogether(l0, h0, l1, h1, l2, h2);
      NegativeRoom(key, 0, 0);
      kept := KeepNegative(Item(key, bytes, 0));
      MovesTogether(l0, h0, l2, h2, memoryBudget.State(), Holdings());
    }

    /** What the end of `setNegative` leaves of the entries `m`. */
    static predicate NegativeRenewed(m: seq<Item>, key: Key, spare: int, after: seq<Item>, kept: bool) {
      var bytes := KeyMetadataBytes(key);
      if bytes <= MAX_AUXILIARY_MAP_BYTES then Renewed(RoomFor(m, key, bytes), Item(key, bytes, 0), spare, after, kept)
      else after == m && !kept
    }

    /** `setNegative`: first the oldest make room for one more entry. `allowed` stands for trust,
        a safe version and the options. */
    method SetNegative(key: Key, allowed: bool, maxEntries: Option<nat>) returns (kept: bool)
      requires Ready()
      modifies this`negative, this`negativeBytes, memoryBudget`used, memoryBudget`categories
      ensures Ready() && Moves(old(memoryBudget.State()), old(Holdings()), memoryBudget.State(), Holdings())
      ensures closed || !allowed || maxEntries == Some(0) ==> negative == old(negative) && !kept
      ensures !closed && allowed && maxEntries != Some(0) ==> NegativeRenewed(Shortened(old(negative), maxEntries), key, old(Spare(negative)), negative, kept)
    {
      hide StaleOk, InflightOk, NegativeOk, GenerationsOk, SeenOk, RevisionsOk, TasksOk, Valid, Holdings;
      hide Moves, Sound, Covers, Trim, KeyMetadataBytes, RoomFor, Renewed, ByteSum;
      ghost var l0, h0 := memoryBudget.State(), Holdings();
      StandsStill(l0, h0);
      if closed || !allowed { return false; }
      if maxEntries == Some(0) { return false; }
      NegativeRoom(key, 0, 0);
      if maxEntries.Some? { TrimNegative(maxEntries.value - 1, negativeBytes); }
      ghost var l1, h1 := memoryBudget.State(), Holdings();
      kept := AddNegative(key);
      MovesTogether(l0, h0, l1, h1, memoryBudget.State(), Holdings());
    }

    // ---------- Seen events ----------

    method RemoveSeenEvent(id: Key)
      requires Ready()
      modifies this`seenEvents, this`seenEventBytes, memoryBudget`used, memoryBudget`categories
      ensures Ready() && Moves(old(memoryBudget.State()), old(Holdings()), memoryBudget.State(), Holdings())
      ensures seenEvents == Without(old(seenEvents), id) && Spare(seenEvents) == old(Spare(seenEvents))
    {
      hide StaleOk, InflightOk, NegativeOk, GenerationsOk, RevisionsOk, TasksOk;
      WithoutCounts(seenEvents, id);
      if !Has(seenEvents, id) { AbsentStays(seenEvents, id); return; }
      var bytes := Get(seenEvents, id).bytes;
      seenEvents := Without(seenEvents, id);
      seenEventBytes := seenEventBytes - bytes;
      memoryBudget.Release(bytes, Coordination);
    }

    /** The eviction loop of `markEventSeen`. */
    method TrimSeenEvents(maxEntries: nat, maxBytes: nat)
      requires Ready()
      modifies this`seenEvents, this`seenEventBytes, memoryBudget`used, memoryBudget`categories
      ensures Ready() && Moves(old(memoryBudget.State()), old(Holdings()), memoryBudget.State(), Holdings())
      ensures seenEvents == Trim(old(seenEvents), maxEntries, maxBytes) && Spare(seenEvents) == old(Spare(seenEvents))
    {
      hide StaleOk, InflightOk, NegativeOk, GenerationsOk, RevisionsOk, TasksOk, Moves, Sound, Covers, Holdings, Distinct;
      ghost var l0, h0 := memoryBudget.State(), Holdings();
      StandsStill(l0, h0);
      while maxEntries < |seenEvents| || maxBytes < seenEventBytes
        modifies this`seenEvents, this`seenEventBytes, memoryBudget`used, memoryBudget`categories
        invariant Ready() && Moves(old(memoryBudget.State()), old(Holdings()), memoryBudget.State(), Holdings())
        invariant Trim(seenEvents, maxEntries, maxBytes) == Trim(old(seenEvents), maxEntries, maxBytes)
        invariant Spare(seenEvents) == old(Spare(seenEvents))
        decreases |seenEvents|
      {
        ghost var l1, h1 := memoryBudget.State(), Holdings();
        RemoveSeenEvent(seenEvents[0].key);
        MovesTogether(l0, h0, l1, h1, memoryBudget.State(), Holdings());
      }
    }

    method KeepSeenEvent(entry: Item) returns (reserved: bool)
      requires Ready() && !closed && !Has(seenEvents, entry.key) && seenEventBytes + entry.bytes <= MAX_AUXILIARY_MAP_BYTES
      modifies this`seenEvents, this`seenEventBytes, memoryBudget`used, memoryBudget`categories
      ensures Ready() && Moves(old(memoryBudget.State()), old(Holdings()), memoryBudget.State(), Holdings())
      ensures Renewed(old(seenEvents), entry, old(Spare(seenEvents)), seenEvents, reserved)
    {
      hide StaleOk, InflightOk, NegativeOk, GenerationsOk, RevisionsOk, TasksOk;
      reserved := memoryBudget.TryReserve(entry.bytes, Coordination);
      if !reserved { return; }
      AppendCounts(seenEvents, entry);
      seenEvents := seenEvents + [entry];
      seenEventBytes := seenEventBytes + entry.bytes;
    }

    lemma SeenRoom(id: Key, maxEntries: nat, maxBytes: nat)
      requires Ready()
      ensures seenEventBytes == ByteSum(seenEvents)
      ensures !Has(Trim(Without(seenEvents, id), maxEntries, maxBytes), id)
    {
      WithoutCounts(seenEvents, id);
      TrimAdds(Without(seenEvents, id), id, maxEntries, maxBytes);
    }

    /** `markEventSeen`: the subscription checks `closed` in the same step. */
    method MarkEventSeen(id: Key, maxEntries: nat) returns (kept: bool)
      requires Ready() && !closed
      modifies this`seenEvents, this`seenEventBytes, memoryBudget`used, memoryBudget`categories
      ensures Ready() && Moves(old(memoryBudget.State()), old(Holdings()), memoryBudget.State(), Holdings())
      ensures 0 < maxEntries && KeyMetadataBytes(id) <= MAX_AUXILIARY_MAP_BYTES ==> Renewed(Trim(Without(old(seenEvents), id), maxEntries - 1, MAX_AUXILIARY_MAP_BYTES - KeyMetadataBytes(id)), Item(id, KeyMetadataBytes(id), 0), old(Spare(seenEvents)), seenEvents, kept)
      ensures maxEntries == 0 || MAX_AUXILIARY_MAP_BYTES < KeyMetadataBytes(id) ==> seenEvents == old(seenEvents) && !kept
    {
      hide StaleOk, InflightOk, NegativeOk, GenerationsOk, SeenOk, RevisionsOk, TasksOk, Valid, Holdings;
      hide Moves, Sound, Covers, Without, Has, Trim, KeyMetadataBytes;
      ghost var l0, h0 := memoryBudget.State(), Holdings();
      StandsStill(l0, h0);
      var bytes := KeyMetadataBytes(id);
      if MAX_AUXILIARY_MAP_BYTES < bytes || maxEntries == 0 { return false; }
      SeenRoom(id, maxEntries - 1, MAX_AUXILIARY_MAP_BYTES - bytes);
      RemoveSeenEvent(id);
      ghost var l1, h1 := memoryBudget.State(), Holdings();
      TrimSeenEvents(maxEntries - 1, MAX_AUXILIARY_MAP_BYTES - bytes);
      ghost var l2, h2 := memoryBudget.State(), Holdings();
      MovesTogether(l0, h0, l1, h1, l2, h2);
      SeenRoom(id, 0, 0);
      kept := KeepSeenEvent(Item(id, bytes, 0));
      MovesTogether(l0, h0, l2, h2, memoryBudget.State(), Holdings());
    }

    // ---------- Generations ----------

    /** `storeGeneration` does not ask whether the cache is closed. A refusal saturates the tracking. */
    method StoreGeneration(text: seq<Unit>, generation: int) returns (stored: bool)
      requires Ready()
      modifies this`generations, this`generationBytes, this`generationTrackingSaturated, this`inflight, this`inflightBytes, this`negative, this`negativeBytes, this`stale, this`staleBytes, memoryBudget`used, memoryBudget`categories
      ensures Ready() && Moves(old(memoryBudget.State()), old(Holdings()), memoryBudget.State(), Holdings())
      ensures stored == Storable(old(generations), text, generation, memoryBudget.target - old(memoryBudget.used))
      ensures stored ==> generations == Stored(old(generations), text, generation) && Current(generations, text) == generation
      ensures !stored ==> generations == old(generations)
      ensures generationTrackingSaturated == (old(generationTrackingSaturated) || !stored)
      ensures generationTrackingSaturated == old(generationTrackingSaturated) ==> Loads() == old(Loads()) && negative == old(negative) && stale == old(stale)
      ensures generationTrackingSaturated != old(generationTrackingSaturated) ==> Loads() == Flights([], 0) && negative == [] && stale == []
    {
      hide StaleOk, InflightOk, NegativeOk, SeenOk, RevisionsOk, TasksOk, GateOk, KeyMetadataBytes, Has;
      var key := Key(text, false);
      var bytes := KeyMetadataBytes(key);
      hide Moves, Sound, Covers;
      StandsStill(memoryBudget.State(), Holdings());
      if generation < 0 || MAX_SAFE_INTEGER < generation {
        SaturateGenerationTracking();
        return false;
      }
      if Has(generations, key) {
        RetaggedCounts(generations, key, generation);
        RetaggedAt(generations, key, generation);
        generations := Retagged(generations, key, generation);
        return true;
      }
      if MAX_GENERATION_ENTRIES <= |generations| || MAX_GENERATION_BYTES < generationBytes + bytes {
        SaturateGenerationTracking();
        return false;
      }
      AppendAt(generations, OrderedMap.Item(key, bytes, generation as nat), key);
      stored := NewGeneration(key, generation);
      if !stored { SaturateGenerationTracking(); }
    }

    method NewGeneration(key: Key, generation: nat) returns (reserved: bool)
      requires Ready() && !Has(generations, key) && |generations| < MAX_GENERATION_ENTRIES && generationBytes + KeyMetadataBytes(key) <= MAX_GENERATION_BYTES
      modifies this`generations, this`generationBytes, memoryBudget`used, memoryBudget`categories
      ensures Ready() && Moves(old(memoryBudget.State()), old(Holdings()), memoryBudget.State(), Holdings())
      ensures reserved == (old(memoryBudget.used) + KeyMetadataBytes(key) <= memoryBudget.target)
      ensures if reserved then generations == old(generations) + [Item(key, KeyMetadataBytes(key), generation)] else generations == old(generations) && memoryBudget.State() == old(memoryBudget.State())
    {
      hide StaleOk, InflightOk, NegativeOk, SeenOk, RevisionsOk, TasksOk;
      var bytes := KeyMetadataBytes(key);
      hide KeyMetadataBytes;
      reserved := memoryBudget.TryReserve(bytes, Coordination);
      if !reserved { return; }
      AppendCounts(generations, Item(key, bytes, generation));
      generationBytes := generationBytes + bytes;
      generations := generations + [Item(key, bytes, generation)];
    }

    /** `saturateGenerationTracking`: the first refusal drops what could hide an older generation. */
    method SaturateGenerationTracking()
      requires Ready()
      modifies this`generationTrackingSaturated, this`inflight, this`inflightBytes, this`negative, this`negativeBytes, this`stale, this`staleBytes, memoryBudget`used, memoryBudget`categories
      ensures Ready() && Moves(old(memoryBudget.State()), old(Holdings()), memoryBudget.State(), Holdings())
      ensures generationTrackingSaturated
      ensures old(generationTrackingSaturated) ==> Loads() == old(Loads()) && negative == old(negative) && stale == old(stale)
      ensures !old(generationTrackingSaturated) ==> Loads() == Flights([], 0) && negative == [] && stale == []
    {
      hide StaleOk, InflightOk, NegativeOk, GenerationsOk, SeenOk, RevisionsOk, TasksOk, Moves, Sound, Covers;
      StandsStill(memoryBudget.State(), Holdings());
      if generationTrackingSaturated { return; }
      ClearHints();
      generationTrackingSaturated := true;
    }

    /** Loads in flight, known absences and stale copies are let go. */
    method ClearHints()
      requires Ready()
      modifies this`inflight, this`inflightBytes, this`negative, this`negativeBytes, this`stale, this`staleBytes, memoryBudget`used, memoryBudget`categories
      ensures Ready() && Moves(old(memoryBudget.State()), old(Holdings()), memoryBudget.State(), Holdings())
      ensures Loads() == Flights([], 0) && negative == [] && stale == []
    {
      hide StaleOk, InflightOk, NegativeOk, GenerationsOk, SeenOk, RevisionsOk, TasksOk, Valid, Holdings, Moves, Sound, Covers;
      ghost var l0, h0 := memoryBudget.State(), Holdings();
      ClearInflight();
      ghost var l1, h1 := memoryBudget.State(), Holdings();
      ClearNegative();
      ghost var l2, h2 := memoryBudget.State(), Holdings();
      MovesTogether(l0, h0, l1, h1, l2, h2);
      ClearStale();
      MovesTogether(l0, h0, l2, h2, memoryBudget.State(), Holdings());
    }

    // ---------- Revision records ----------

    predicate CanList(key: Key)
      reads this`keyRevisionBytes, memoryBudget
    {
      && keyRevisionBytes + KeyMetadataBytes(key) <= MAX_AUXILIARY_MAP_BYTES
      && memoryBudget.used + KeyMetadataBytes(key) <= memoryBudget.target
    }

    function ObserveCost(key: Key): nat
      reads this`keyRevisions, this`keyRevisionBytes, memoryBudget
    {
      if Has(keyRevisions, key) || !CanList(key) then 0 else KeyMetadataBytes(key)
    }

    /** `observeKey`, as far as bytes go: an unlisted record costs nothing. */
    method ObserveKey(key: Key) returns (g: Guard)
      requires Ready()
      modifies this`records, this`keyRevisions, this`keyRevisionBytes, memoryBudget`used, memoryBudget`categories
      ensures Ready() && Moves(old(memoryBudget.State()), old(Holdings()), memoryBudget.State(), Holdings())
      ensures g.key == key && g.record < |records| && 0 < records[g.record].references && records[g.record].key == key
      ensures Has(old(keyRevisions), key) ==> keyRevisions == old(keyRevisions) && g.record == Get(old(keyRevisions), key).value
      ensures !Has(old(keyRevisions), key) ==> g.record == |old(records)| && keyRevisions == if records[g.record].registered then old(keyRevisions) + [Item(key, KeyMetadataBytes(key), g.record)] else old(keyRevisions)
      ensures |records| == Max(|old(records)|, g.record + 1)
      ensures forall i | 0 <= i < |old(records)| && i != g.record :: records[i] == old(records)[i]
      ensures Has(old(keyRevisions), key) ==> records[g.record] == old(records)[g.record].(references := old(records)[g.record].references + 1)
      ensures !Has(old(keyRevisions), key) ==> records[g.record] == Revision(key, KeyMetadataBytes(key), 1, old(CanList(key)))
      ensures memoryBudget.used == old(memoryBudget.used) + old(ObserveCost(key))
    {
      hide StaleOk, InflightOk, NegativeOk, GenerationsOk, SeenOk, TasksOk, KeyMetadataBytes;
      if Has(keyRevisions, key) {
        g := Guard(key, Get(keyRevisions, key).value);
        records := records[g.record := records[g.record].(references := records[g.record].references + 1)];
      } else {
        g := Guard(key, |records|);
        NewRevision(key);
      }
    }

    /** A new record, listed if it is paid for, with its first guard. */
    method NewRevision(key: Key)
      requires Ready() && !Has(keyRevisions, key)
      modifies this`records, this`keyRevisions, this`keyRevisionBytes, memoryBudget`used, memoryBudget`categories
      ensures Ready() && Moves(old(memoryBudget.State()), old(Holdings()), memoryBudget.State(), Holdings())
      ensures |records| == |old(records)| + 1 && records[..|old(records)|] == old(records)
      ensures records[|old(records)|] == Revision(key, KeyMetadataBytes(key), 1, old(CanList(key)))
      ensures memoryBudget.used == old(memoryBudget.used) + if old(CanList(key)) then KeyMetadataBytes(key) else 0
      ensures keyRevisions == if records[|old(records)|].registered then old(keyRevisions) + [Item(key, KeyMetadataBytes(key), |old(records)|)] else old(keyRevisions)
    {
      hide StaleOk, InflightOk, NegativeOk, GenerationsOk, SeenOk, TasksOk, KeyMetadataBytes, Moves, Sound, Covers;
      StandsStill(memoryBudget.State(), Holdings());
      var bytes := KeyMetadataBytes(key);
      var registered := false;
      if keyRevisionBytes + bytes <= MAX_AUXILIARY_MAP_BYTES { registered := ListNewRevision(key); }
      if !registered {
        ListedGrows(keyRevisions, records, Revision(key, bytes, 1, false));
        hide AllListed, Counted;
        records := records + [Revision(key, bytes, 1, false)];
      }
    }

    method ListNewRevision(key: Key) returns (registered: bool)
      requires Ready() && !Has(keyRevisions, key) && keyRevisionBytes + KeyMetadataBytes(key) <= MAX_AUXILIARY_MAP_BYTES
      modifies this`records, this`keyRevisions, this`keyRevisionBytes, memoryBudget`used, memoryBudget`categories
      ensures Ready() && Moves(old(memoryBudget.State()), old(Holdings()), memoryBudget.State(), Holdings())
      ensures registered == (old(memoryBudget.used) + KeyMetadataBytes(key) <= memoryBudget.target)
      ensures memoryBudget.used == old(memoryBudget.used) + if registered then KeyMetadataBytes(key) else 0
      ensures records == if registered then old(records) + [Revision(key, KeyMetadataBytes(key), 1, true)] else old(records)
      ensures keyRevisions == if registered then old(keyRevisions) + [Item(key, KeyMetadataBytes(key), |old(records)|)] else old(keyRevisions)
    {
      hide StaleOk, InflightOk, NegativeOk, GenerationsOk, SeenOk, TasksOk;
      var bytes := KeyMetadataBytes(key);
      hide KeyMetadataBytes, AllListed;
      registered := memoryBudget.TryReserve(bytes, Coordination);
      if !registered { return; }
      var item, r := Item(key, bytes, |records| as nat), Revision(key, bytes, 1, true);
      AppendCounts(keyRevisions, item);
      ListedGrows(keyRevisions, records, r);
      records := records + [r];
      keyRevisions := keyRevisions + [item];
      keyRevisionBytes := keyRevisionBytes + bytes;
    }

    /** The guard is the last one of the record listed under its key. */
    predicate IsLast(g: Guard)
      requires g.record < |records|
      reads this`records, this`keyRevisions
    {
      records[g.record].references == 1 && Has(keyRevisions, g.key) && Get(keyRevisions, g.key).value == g.record
    }

    /** `releaseKey`: the last guard of a listed record gives its bytes back. */
    method ReleaseKey(g: Guard)
      requires Ready() && g.record < |records| && 0 < records[g.record].references && records[g.record].key == g.key
      modifies this`records, this`keyRevisions, this`keyRevisionBytes, memoryBudget`used, memoryBudget`categories
      ensures Ready() && Moves(old(memoryBudget.State()), old(Holdings()), memoryBudget.State(), Holdings())
      ensures keyRevisions == if old(IsLast(g)) then Without(old(keyRevisions), g.key) else old(keyRevisions)
      ensures records == var r := old(records)[g.record]; old(records)[g.record := r.(references := r.references - 1, registered := r.registered && !old(IsLast(g)))]
    {
      hide StaleOk, InflightOk, NegativeOk, GenerationsOk, SeenOk, TasksOk;
      var r := records[g.record];
      WithoutItems(keyRevisions, g.key);
      hide Distinct, ByteSum, Sound, Without;
      if IsLast(g) {
        Unlist(g);
      } else {
        records := records[g.record := r.(references := r.references - 1)];
      }
    }

    /** The record's last guard takes it off the list. */
    method Unlist(g: Guard)
      requires Ready() && g.record < |records| && records[g.record].references == 1 && records[g.record].key == g.key
      requires Has(keyRevisions, g.key) && Get(keyRevisions, g.key).value == g.record
      modifies this`records, this`keyRevisions, this`keyRevisionBytes, memoryBudget`used, memoryBudget`categories
      ensures Ready() && Moves(old(memoryBudget.State()), old(Holdings()), memoryBudget.State(), Holdings())
      ensures keyRevisions == Without(old(keyRevisions), g.key)
      ensures records == old(records)[g.record := old(records)[g.record].(references := 0, registered := false)]
    {
      hide StaleOk, InflightOk, NegativeOk, GenerationsOk, SeenOk, TasksOk;
      var r := records[g.record];
      WithoutCounts(keyRevisions, g.key);
      WithoutItems(keyRevisions, g.key);
      hide Distinct, ByteSum, Without;
      keyRevisionBytes := keyRevisionBytes - r.bytes;
      memoryBudget.Release(r.bytes, Coordination);
      keyRevisions := Without(keyRevisions, g.key);
      records := records[g.record := r.(references := 0, registered := false)];
    }

    // ---------- The end of a cache ----------

    /** `closeResources`, up to its first await, as far as bytes go. */
    method CloseResources()
      requires Ready() && originGate.Valid()
      modifies this`closed, this`inflight, this`inflightBytes, this`negative, this`negativeBytes, this`generations, this`generationBytes, this`seenEvents, this`seenEventBytes, this`keyRevisions, this`keyRevisionBytes, this`stale, this`staleBytes
      modifies memoryBudget`used, memoryBudget`categories, originGate
      ensures Ready() && originGate.Valid() && Moves(old(memoryBudget.State()), old(Holdings()), memoryBudget.State(), Holdings())
      ensures originGate.State() == Semaphore.Close(old(originGate.State()))
      ensures closed && generations == [] && keyRevisions == [] && Holdings() == Books(0, 0, 0, retainedBytes, 0, followerBytes)
    {
      hide StaleOk, InflightOk, NegativeOk, GenerationsOk, SeenOk, RevisionsOk, TasksOk;
      hide OriginGate.OriginLoadGate.Valid, OriginGate.OriginLoadGate.State, Semaphore.Close;
      assert TasksOk();
      closed := true;
      DropAll();
      hide Valid;
      EmptiedIsValid();
    }

    lemma EmptiedIsValid()
      requires inflight == [] && negative == [] && generations == [] && seenEvents == [] && keyRevisions == [] && stale == []
      requires inflightBytes == 0 && negativeBytes == 0 && generationBytes == 0 && seenEventBytes == 0 && keyRevisionBytes == 0 && staleBytes == 0
      requires TasksOk()
      ensures Valid()
    {
    }

    /** Everything `closeResources` gives back. */
    method DropAll()
      requires originGate.Ready() && originGate.memoryBudget == memoryBudget && staleBytes <= memoryBudget.categories.stale
      requires inflightBytes + negativeBytes + generationBytes + seenEventBytes + keyRevisionBytes <= memoryBudget.categories.coordination
      modifies this`inflight, this`inflightBytes, this`negative, this`negativeBytes, this`generations, this`generationBytes
      modifies this`seenEvents, this`seenEventBytes, this`keyRevisions, this`keyRevisionBytes, this`stale, this`staleBytes
      modifies memoryBudget`used, memoryBudget`categories, originGate
      ensures originGate.Valid() && Sound(memoryBudget.State()) && originGate.closed && originGate.queuedBytes == 0
      ensures originGate.State() == Semaphore.Close(old(originGate.State()))
      ensures var c := old(memoryBudget.categories); memoryBudget.categories == c.(
        queue := c.queue - old(originGate.queuedBytes), stale := c.stale - old(staleBytes),
        coordination := c.coordination - old(inflightBytes + negativeBytes + generationBytes + seenEventBytes + keyRevisionBytes))
      ensures inflight == [] && negative == [] && generations == [] && seenEvents == [] && keyRevisions == [] && stale == []
      ensures inflightBytes == 0 && negativeBytes == 0 && generationBytes == 0 && seenEventBytes == 0 && keyRevisionBytes == 0 && staleBytes == 0
    {
      hide Sound, OriginGate.OriginLoadGate.Valid, OriginGate.OriginLoadGate.State, Semaphore.Close;
      assert Sound(memoryBudget.State());
      DropOrigin();
      DropCoordination();
      DropStale();
    }

    /** `originGate.close()`. */
    method DropOrigin()
      requires originGate.Ready() && originGate.memoryBudget == memoryBudget
      modifies originGate, memoryBudget`used, memoryBudget`categories
      ensures originGate.Valid() && Sound(memoryBudget.State()) && originGate.closed && originGate.queuedBytes == 0
      ensures originGate.State() == Semaphore.Close(old(originGate.State()))
      ensures memoryBudget.categories == old(memoryBudget.categories).(queue := old(memoryBudget.categories.queue - originGate.queuedBytes))
    {
      hide OriginGate.OriginLoadGate.Valid, Semaphore.Inv;
      originGate.CloseGate();
    }

    /** `clearStale`, on counters that need not be in order yet. */
    method DropStale()
      requires Sound(memoryBudget.State()) && staleBytes <= memoryBudget.categories.stale
      modifies this`stale, this`staleBytes, memoryBudget`used, memoryBudget`categories
      ensures Sound(memoryBudget.State()) && stale == [] && staleBytes == 0
      ensures memoryBudget.categories == old(memoryBudget.categories).(stale := old(memoryBudget.categories.stale - staleBytes))
    {
      if 0 < staleBytes { memoryBudget.Release(staleBytes, Stale); }
      stale, staleBytes := [], 0;
    }

    /** The releases of coordination bytes in `closeResources`. */
    method DropCoordination()
      requires Sound(memoryBudget.State())
      requires inflightBytes + negativeBytes + generationBytes + seenEventBytes + keyRevisionBytes <= memoryBudget.categories.coordination
      modifies this`inflight, this`inflightBytes, this`negative, this`negativeBytes, this`generations, this`generationBytes
      modifies this`seenEvents, this`seenEventBytes, this`keyRevisions, this`keyRevisionBytes
      modifies memoryBudget`used, memoryBudget`categories
      ensures Sound(memoryBudget.State())
      ensures memoryBudget.categories == old(memoryBudget.categories).(coordination := old(memoryBudget.categories.coordination -
        (inflightBytes + negativeBytes + generationBytes + seenEventBytes + keyRevisionBytes)))
      ensures inflight == [] && negative == [] && generations == [] && seenEvents == [] && keyRevisions == []
      ensures inflightBytes == 0 && negativeBytes == 0 && generationBytes == 0 && seenEventBytes == 0 && keyRevisionBytes == 0
    {
      hide Sound;
      ghost var held := memoryBudget.categories;
      memoryBudget.Release(inflightBytes, Coordination);
      assert memoryBudget.categories == held.(coordination := held.coordination - inflightBytes);
      inflightBytes, inflight := 0, [];
      held := memoryBudget.categories;
      memoryBudget.Release(negativeBytes, Coordination);
      assert memoryBudget.categories == held.(coordination := held.coordination - negativeBytes);
      negativeBytes, negative := 0, [];
      memoryBudget.Release(generationBytes, Coordination);
      generations, generationBytes := [], 0;
      memoryBudget.Release(seenEventBytes + keyRevisionBytes, Coordination);
      seenEvents, seenEventBytes, keyRevisionBytes := [], 0, 0;
      keyRevisions := [];
    }

    /** No load waits, no command is out, no guard is held on a listed record. */
    predicate Settled()
      reads this
    {
      activeFollowers == 0 && retained == [] && keyRevisions == []
    }

    /** A closed cache whose tasks settled holds exactly the generations stored since it closed. */
    lemma SettledShare()
      requires Ready() && closed && Settled()
      ensures Holdings() == Books(0, 0, 0, 0, 0, ByteSum(generations))
      ensures Holdings() == EMPTY <==> generations == []
    {
      if generations != [] { assert generations[0] in generations; }
    }

    /** The bytes of the key in the three maps a delete forgets it in. */
    ghost function Freed(key: Key): int
      reads this`inflight, this`negative, this`stale
    {
      ByteSum(inflight) - ByteSum(Without(inflight, key)) + ByteSum(negative) - ByteSum(Without(negative, key)) +
      ByteSum(stale) - ByteSum(Without(stale, key))
    }

    /** What the ledger has left for a generation once a delete has observed and forgotten the key. */
    ghost function LeftFor(key: Key): int
      reads this, memoryBudget
    {
      memoryBudget.target - memoryBudget.used - ObserveCost(key) + Freed(key)
    }

    /** `deleteLocalOnly`, a received delete, up to its first await: it does not ask whether the
        cache is closed. */
    method DeleteLocalOnly(key: Key, generation: Option<int>) returns (g: Guard)
      requires Ready()
      modifies this`records, this`keyRevisions, this`keyRevisionBytes, this`inflight, this`inflightBytes, this`negative, this`negativeBytes, this`stale, this`staleBytes, this`generations, this`generationBytes, this`generationTrackingSaturated, memoryBudget`used, memoryBudget`categories
      ensures Ready() && Moves(old(memoryBudget.State()), old(Holdings()), memoryBudget.State(), Holdings())
      ensures g.key == key && Holds(g) && KeepsGuards(old(records), records)
      ensures var next := AfterDelete(old(generations), key.text, generation);
        var stored := Storable(old(generations), key.text, next, old(LeftFor(key)));
        && generations == (if stored then Stored(old(generations), key.text, next) else old(generations))
        && generationTrackingSaturated == (old(generationTrackingSaturated) || !stored)
      ensures generationTrackingSaturated == old(generationTrackingSaturated) ==>
        Loads() == Forgotten(old(Loads()), key) && negative == Without(old(negative), key) && stale == Without(old(stale), key)
      ensures generationTrackingSaturated != old(generationTrackingSaturated) ==> Loads() == Flights([], 0) && negative == [] && stale == []
    {
      hide StaleOk, InflightOk, NegativeOk, GenerationsOk, SeenOk, RevisionsOk, TasksOk, Valid, Holdings, Moves, Sound, Covers;
      hide Without, Has, Distinct, KeyMetadataBytes, ByteSum, ObserveCost, Storable, Stored, Freed;
      ghost var l0, h0, left := memoryBudget.State(), Holdings(), LeftFor(key);
      g := ObserveKey(key);
      ghost var l1, h1 := memoryBudget.State(), Holdings();
      ForgetHints(key);
      ghost var l2, h2 := memoryBudget.State(), Holdings();
      MovesTogether(l0, h0, l1, h1, l2, h2);
      assert memoryBudget.target - memoryBudget.used == left;
      var next := AfterDelete(generations, key.text, generation);
      var _ := StoreGeneration(key.text, next);
      MovesTogether(l0, h0, l2, h2, memoryBudget.State(), Holdings());
    }

    /** The key's load, absence and stale copy go. */
    method ForgetHints(key: Key)
      requires Ready()
      modifies this`inflight, this`inflightBytes, this`negative, this`negativeBytes, this`stale, this`staleBytes, memoryBudget`used, memoryBudget`categories
      ensures Ready() && Moves(old(memoryBudget.State()), old(Holdings()), memoryBudget.State(), Holdings())
      ensures Loads() == Forgotten(old(Loads()), key) && negative == Without(old(negative), key) && stale == Without(old(stale), key)
      ensures memoryBudget.used == old(memoryBudget.used) - old(Freed(key))
    {
      hide StaleOk, InflightOk, NegativeOk, GenerationsOk, SeenOk, RevisionsOk, TasksOk, Valid, Holdings, Moves, Sound, Covers;
      hide Without, ByteSum;
      ghost var l0, h0 := memoryBudget.State(), Holdings();
      RemoveInflight(key);
      ghost var l1, h1 := memoryBudget.State(), Holdings();
      RemoveNegative(key);
      ghost var l2, h2 := memoryBudget.State(), Holdings();
      MovesTogether(l0, h0, l1, h1, l2, h2);
      RemoveStale(key);
      MovesTogether(l0, h0, l2, h2, memoryBudget.State(), Holdings());
    }

    /** The guard's record is there and counts it. */
    predicate Holds(g: Guard)
      reads this`records
    {
      g.record < |records| && 0 < records[g.record].references && records[g.record].key == g.key
    }
  }

  /** Records keep their place and key, and lose no reference. */
  predicate KeepsGuards(before: seq<Revision>, after: seq<Revision>) {
    && |before| <= |after|
    && forall i | 0 <= i < |before| :: after[i].key == before[i].key && before[i].references <= after[i].references
  }

  function Total(ns: seq<nat>): nat {
    if ns == [] then 0 else ns[0] + Total(ns[1..])
  }

  lemma {:induction false} TotalWithout(ns: seq<nat>, i: nat)
    requires i < |ns|
    ensures Total(ns) == Total(ns[..i] + ns[i + 1..]) + ns[i]
  {
    var rest := ns[..i] + ns[i + 1..];
    if i == 0 {
      assert rest == ns[1..];
    } else {
      TotalWithout(ns[1..], i - 1);
      assert rest[1..] == ns[1..][..i - 1] + ns[1..][i..];
    }
  }

  /** Trimming adds no key. */
  lemma {:induction false} TrimAdds(m: seq<Item>, key: Key, maxEntries: nat, maxBytes: nat)
    requires !Has(m, key)
    ensures !Has(Trim(m, maxEntries, maxBytes), key)
  {
    if !(|m| <= maxEntries && ByteSum(m) <= maxBytes) { TrimAdds(m[1..], key, maxEntries, maxBytes); }
  }

  lemma {:induction false} LastIsHeld(m: seq<Item>)
    requires m != []
    ensures Has(m, m[|m| - 1].key)
  {
    if 1 < |m| { LastIsHeld(m[1..]); }
  }

  // ---------- Eviction under pressure ----------

  function Shares(clients: seq<HybridCache>): (hs: seq<Books>)
    reads clients, set c | c in clients :: c.originGate
    ensures |hs| == |clients| && forall i | 0 <= i < |hs| :: hs[i] == clients[i].Holdings()
  {
    seq(|clients|, i requires 0 <= i < |clients| reads clients, set c | c in clients :: c.originGate => clients[i].Holdings())
  }

  /** All clients draw on this ledger, and it covers the sum of their shares. */
  ghost predicate AllReady(budget: MemoryBudget, clients: seq<HybridCache>)
    reads budget, clients, set c | c in clients :: c.originGate
  {
    && Sound(budget.State())
    && (forall i | 0 <= i < |clients| :: clients[i].memoryBudget == budget && clients[i].Valid() && clients[i].GateOk())
    && (forall i, j | 0 <= i < j < |clients| :: clients[i] != clients[j])
    && (forall c: Category :: ByteLedger.Sum(Shares(clients), c) <= budget.categories.Of(c))
  }

  /** What holders outside `hs` have in each category is untouched. */
  ghost predicate OthersKeep(b: Books, hs: seq<Books>, b': Books, hs': seq<Books>) {
    forall c: Category :: b'.Of(c) - ByteLedger.Sum(hs', c) == b.Of(c) - ByteLedger.Sum(hs, c)
  }

  lemma OthersKeepOn(b0: Books, hs0: seq<Books>, b1: Books, hs1: seq<Books>, b2: Books, hs2: seq<Books>)
    ensures OthersKeep(b0, hs0, b0, hs0)
    ensures OthersKeep(b0, hs0, b1, hs1) && OthersKeep(b1, hs1, b2, hs2) ==> OthersKeep(b0, hs0, b2, hs2)
  {
  }

  /** After one client's move the rest of every category is as it was. */
  lemma OneMoved(l: Ledger, hs: seq<Books>, i: nat, l': Ledger, h': Books)
    requires i < |hs| && Moves(l, hs[i], l', h')
    ensures OthersKeep(l.categories, hs, l'.categories, hs[i := h'])
  {
    forall c: Category
      ensures l'.categories.Of(c) - ByteLedger.Sum(hs[i := h'], c) == l.categories.Of(c) - ByteLedger.Sum(hs, c)
    {
      SumUpdated(hs, i, h', c);
    }
  }

  lemma AllReadyMeansReady(budget: MemoryBudget, clients: seq<HybridCache>, i: nat)
    requires AllReady(budget, clients) && i < |clients|
    ensures clients[i].Ready()
  {
    HolderIsCovered(budget.State(), Shares(clients), i);
  }

  /** The stale copies of every client, oldest first. */
  function Copies(clients: seq<HybridCache>): (ms: seq<seq<Item>>)
    reads clients
    ensures |ms| == |clients| && forall i | 0 <= i < |ms| :: ms[i] == clients[i].stale
  {
    seq(|clients|, i requires 0 <= i < |clients| reads clients => clients[i].stale)
  }

  function Drop(m: seq<Item>, n: nat): seq<Item> {
    m[Min(n, |m|)..]
  }

  /** How many of the turns from..to fall to the client `i` of `n`. */
  function Turns(from: nat, to: nat, n: nat, i: nat): nat
    requires from <= to && 0 < n
  {
    if from == to then 0 else Turns(from, to - 1, n, i) + if (to - 1) % n == i then 1 else 0
  }

  /** Every client lost its oldest copies, one for each of its turns. */
  predicate TookTurns(before: seq<seq<Item>>, after: seq<seq<Item>>, from: nat, to: nat)
    requires from <= to
  {
    && |after| == |before|
    && forall i | 0 <= i < |before| :: after[i] == Drop(before[i], Turns(from, to, |before|, i))
  }

  /** The bytes the last of those turns freed. */
  function LastFreed(before: seq<seq<Item>>, from: nat, to: nat): nat
    requires from < to && before != []
  {
    var i := (to - 1) % |before|;
    var m := Drop(before[i], Turns(from, to - 1, |before|, i));
    if m == [] then 0 else m[0].bytes
  }

  function CopyCount(ms: seq<seq<Item>>): nat {
    if ms == [] then 0 else CopyCount(ms[..|ms| - 1]) + |ms[|ms| - 1]|
  }

  lemma {:induction false} CopyCountUpdated(ms: seq<seq<Item>>, i: nat, m: seq<Item>)
    requires i < |ms|
    ensures CopyCount(ms[i := m]) == CopyCount(ms) - |ms[i]| + |m|
  {
    var n := |ms| - 1;
    if i == n {
      assert ms[i := m][..n] == ms[..n];
    } else {
      assert ms[i := m][..n] == ms[..n][i := m];
      CopyCountUpdated(ms[..n], i, m);
    }
  }

  /** One turn: what the other holders have is untouched. */
  method EvictTurn(budget: MemoryBudget, clients: seq<HybridCache>, i: nat) returns (evicted: bool)
    requires AllReady(budget, clients) && i < |clients|
    modifies budget`used, budget`categories, clients
    ensures AllReady(budget, clients)
    ensures OthersKeep(old(budget.categories), old(Shares(clients)), budget.categories, Shares(clients))
    ensures var m := old(clients[i].stale);
      && evicted == (m != []) && Copies(clients) == old(Copies(clients))[i := Drop(m, 1)]
      && budget.used == old(budget.used) - if m == [] then 0 else m[0].bytes
  {
    hide ByteLedger.Sum, HybridCache.StaleOk, HybridCache.InflightOk, HybridCache.NegativeOk, HybridCache.GenerationsOk;
    hide HybridCache.SeenOk, HybridCache.RevisionsOk, HybridCache.TasksOk;
    AllReadyMeansReady(budget, clients, i);
    ghost var l, hs := budget.State(), Shares(clients);
    evicted := clients[i].EvictOneStale();
    assert Shares(clients) == hs[i := clients[i].Holdings()];
    OneMoved(l, hs, i, budget.State(), clients[i].Holdings());
  }

  lemma TurnTaken(before: seq<seq<Item>>, now: seq<seq<Item>>, after: seq<seq<Item>>, from: nat, to: nat)
    requires before != [] && from <= to && TookTurns(before, now, from, to)
    requires var i := to % |before|; after == now[i := Drop(now[i], 1)]
    ensures TookTurns(before, after, from, to + 1)
    ensures CopyCount(after) == CopyCount(now) - if now[to % |before|] == [] then 0 else 1
    ensures LastFreed(before, from, to + 1) == if now[to % |before|] == [] then 0 else now[to % |before|][0].bytes
  {
    var i := to % |before|;
    CopyCountUpdated(now, i, Drop(now[i], 1));
  }

  /** `evictBounded`: the clients take turns, each giving up its oldest stale copy, until the
      ledger is within its target or `max` turns are over; not one turn more. */
  method EvictBounded(budget: MemoryBudget, clients: seq<HybridCache>, cursor: nat, max: nat) returns (evictions: nat, next: nat)
    requires AllReady(budget, clients)
    modifies budget`used, budget`categories, clients
    ensures AllReady(budget, clients) && cursor <= next <= cursor + max
    ensures clients == [] ==> next == cursor
    ensures TookTurns(old(Copies(clients)), Copies(clients), cursor, next)
    ensures evictions == old(CopyCount(Copies(clients))) - CopyCount(Copies(clients))
    ensures budget.used <= budget.target || clients == [] || next == cursor + max
    ensures cursor < next ==> budget.target < budget.used + LastFreed(old(Copies(clients)), cursor, next)
    ensures OthersKeep(old(budget.categories), old(Shares(clients)), budget.categories, Shares(clients))
  {
    hide AllReady, Shares, Copies, Drop, CopyCount, LastFreed, TookTurns, OthersKeep;
    evictions, next := 0, cursor;
    ghost var before, b0, hs0 := Copies(clients), budget.categories, Shares(clients);
    OthersKeepOn(b0, hs0, b0, hs0, b0, hs0);
    NoTurns(before, cursor);
    while next < cursor + max && clients != [] && budget.target < budget.used
      modifies budget`used, budget`categories, clients
      invariant AllReady(budget, clients) && cursor <= next <= cursor + max
      invariant clients == [] ==> next == cursor
      invariant TookTurns(before, Copies(clients), cursor, next)
      invariant evictions == CopyCount(before) - CopyCount(Copies(clients))
      invariant cursor < next ==> budget.target < budget.used + LastFreed(before, cursor, next)
      invariant OthersKeep(b0, hs0, budget.categories, Shares(clients))
      decreases cursor + max - next
    {
      ghost var now, b, hs := Copies(clients), budget.categories, Shares(clients);
      var evicted := EvictTurn(budget, clients, next % |clients|);
      TurnTaken(before, now, Copies(clients), cursor, next);
      OthersKeepOn(b0, hs0, b, hs, budget.categories, Shares(clients));
      if evicted { evictions := evictions + 1; }
      next := next + 1;
    }
  }

  lemma NoTurns(ms: seq<seq<Item>>, at: nat)
    ensures TookTurns(ms, ms, at, at)
  {
  }
}
