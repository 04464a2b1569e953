/** The encoded LRU of `MemoryStore`: its entries from the least to the most recently used,
    each with its bytes and expiry. Over every run it answers like a plain map that may
    forget, and its byte counter is its share of the ledger. */
module MemoryStore {
  import opened Common
  import opened ByteLedger
  import Pattern
  import Utf16
  import opened OrderedMap
  import CacheLedger

  const ENTRY_OVERHEAD: nat := 160
  const HISTORY_BYTES: nat := 4096
  const MAX_EVICTIONS_PER_WRITE: nat := 16

  /** The store refuses any other lifetime. */
  type Ttl = n: int | 0 < n witness 1

  datatype Copy = Copy(buffer: seq<Byte>, expiresAt: int)

  type Entry = OrderedMap.Item<Copy>

  // ---------- Entries in order of use ----------

  predicate Live(es: seq<Entry>, key: Key, now: int) {
    Has(es, key) && now < Get(es, key).value.expiresAt
  }

  /** `get`: a hit becomes the most recently used, an expired entry goes. */
  function Touched(es: seq<Entry>, key: Key, now: int): seq<Entry> {
    if Live(es, key, now) then Without(es, key) + [Get(es, key)] else Without(es, key)
  }

  function Read(es: seq<Entry>, key: Key, now: int): Option<seq<Byte>> {
    if Live(es, key, now) then Some(Get(es, key).value.buffer) else None
  }

  /** The `n` least recently used entries are gone. */
  function Popped(es: seq<Entry>, n: nat): seq<Entry> {
    if n < |es| then es[n..] else []
  }

  /** Insertion of a key that is not there, evicting from the front beyond the limit. */
  function Inserted(es: seq<Entry>, e: Entry, max: nat): seq<Entry>
    requires 0 < max
  {
    Popped(es, if |es| < max then 0 else |es| - max + 1) + [e]
  }

  /** How a set that did not throw ended. */
  datatype Outcome = TooBig | NotWorth | NoRoom(pops: nat) | Stored(pops: nat)

  function AfterSet(es: seq<Entry>, e: Entry, max: nat, o: Outcome): seq<Entry>
    requires 0 < max
  {
    match o
    case TooBig => Without(es, e.key)
    case NotWorth => es
    case NoRoom(pops) => Popped(Without(es, e.key), pops)
    case Stored(pops) => Inserted(Popped(Without(es, e.key), pops), e, max)
  }

  /** How many entries `setEncoded` pops, at most `max`, before the rest fits in `room`. */
  function PopsFor(es: seq<Entry>, room: int, max: nat): (n: nat)
    ensures n <= max && n <= |es|
  {
    if ByteSum(es) <= room || max == 0 || es == [] then 0 else 1 + PopsFor(es[1..], room, max - 1)
  }

  /** What a write meets: the most an entry may take, the ledger's target and what the other
      holders leave of it, whether pressure is normal, and whether admission is enabled. */
  datatype Terms = Terms(maxEntry: nat, target: nat, room: int, normal: bool, admission: bool)

  /** A new key needs another's place or bytes. */
  predicate NeedsSpace(es: seq<Entry>, e: Entry, max: nat, t: Terms) {
    t.room < ByteSum(es) + e.bytes || max <= |es|
  }

  /** How a write ends; `worth` is the verdict on a key that needs another's place. */
  function OutcomeOf(es: seq<Entry>, e: Entry, now: int, max: nat, t: Terms, worth: bool): Outcome {
    if t.maxEntry < e.bytes || t.target < e.bytes || !t.normal then TooBig
    else if !Live(es, e.key, now) && NeedsSpace(es, e, max, t) && t.admission && !worth then NotWorth
    else
      var rest := Without(es, e.key);
      var pops := PopsFor(rest, t.room - e.bytes, MAX_EVICTIONS_PER_WRITE);
      if ByteSum(Popped(rest, pops)) <= t.room - e.bytes then Stored(pops) else NoRoom(pops)
  }

  /** No entry is popped in vain, and room that popping could make is made. */
  lemma {:induction false} PopsForIsLeast(es: seq<Entry>, room: int, max: nat)
    ensures var n := PopsFor(es, room, max);
      && (forall k: nat | k < n :: room < ByteSum(Popped(es, k)))
      && (room < ByteSum(Popped(es, n)) ==> n == max || n == |es|)
  {
    if !(ByteSum(es) <= room || max == 0 || es == []) {
      PopsForIsLeast(es[1..], room, max - 1);
      var n := PopsFor(es[1..], room, max - 1);
      forall k: nat | k < n + 1 ensures room < ByteSum(Popped(es, k)) {
        if k > 0 { assert Popped(es, k) == Popped(es[1..], k - 1); }
      }
      assert Popped(es, n + 1) == Popped(es[1..], n);
    }
  }

  ghost predicate CanMakeRoom(es: seq<Entry>, room: int) {
    exists k: nat :: k <= MAX_EVICTIONS_PER_WRITE && ByteSum(Popped(es, k)) <= room
  }

  /** A write that is not refused outright succeeds exactly when popping up to sixteen of the
      other entries makes room. */
  lemma StoredIff(es: seq<Entry>, e: Entry, now: int, max: nat, t: Terms, worth: bool)
    requires OutcomeOf(es, e, now, max, t, worth).NoRoom? || OutcomeOf(es, e, now, max, t, worth).Stored?
    ensures OutcomeOf(es, e, now, max, t, worth).Stored? <==> CanMakeRoom(Without(es, e.key), t.room - e.bytes)
  {
    var rest, room := Without(es, e.key), t.room - e.bytes;
    PopsForIsLeast(rest, room, MAX_EVICTIONS_PER_WRITE);
    var n := PopsFor(rest, room, MAX_EVICTIONS_PER_WRITE);
    if ByteSum(Popped(rest, n)) <= room {
      assert CanMakeRoom(rest, room);
    } else {
      forall k: nat | k <= MAX_EVICTIONS_PER_WRITE ensures room < ByteSum(Popped(rest, k)) {
        if n <= k { assert Popped(rest, k) == Popped(rest, n); }
      }
    }
  }

  /** Entries a pattern delete leaves; given a time it meets the live keys only. */
  ghost function Filtered(es: seq<Entry>, pattern: seq<Unit>, now: Option<int>): seq<Entry> {
    if es == [] then []
    else if (now == None || now.value < es[0].value.expiresAt) && Pattern.Matches(es[0].key.text, pattern) then
      Filtered(es[1..], pattern, now)
    else [es[0]] + Filtered(es[1..], pattern, now)
  }

  /** `purgeStale`. */
  function Purged(es: seq<Entry>, now: int): seq<Entry> {
    if es == [] then []
    else if es[0].value.expiresAt <= now then Purged(es[1..], now)
    else [es[0]] + Purged(es[1..], now)
  }

  lemma {:induction false} PoppedFacts(es: seq<Entry>, n: nat)
    requires Distinct(es)
    ensures Distinct(Popped(es, n)) && ByteSum(Popped(es, n)) <= ByteSum(es)
    ensures |Popped(es, n)| == if n < |es| then |es| - n else 0
  {
    if 0 < n < |es| {
      PoppedFacts(es[1..], n - 1);
      assert es[1..][n - 1..] == es[n..];
    } else if n == 0 {
      assert Popped(es, 0) == es;
    }
  }

  lemma {:induction false} PoppedAt(es: seq<Entry>, n: nat, k: Key)
    requires Distinct(es)
    ensures Has(Popped(es, n), k) ==> Has(es, k) && Get(Popped(es, n), k) == Get(es, k)
  {
    if 0 < n < |es| {
      PoppedAt(es[1..], n - 1, k);
      assert es[1..][n - 1..] == es[n..];
    } else if n == 0 {
      assert Popped(es, 0) == es;
    }
  }

  lemma {:induction false} FilteredAt(es: seq<Entry>, pattern: seq<Unit>, now: Option<int>, k: Key)
    requires Distinct(es)
    ensures Has(Filtered(es, pattern, now), k) <==>
      Has(es, k) && !((now == None || now.value < Get(es, k).value.expiresAt) && Pattern.Matches(k.text, pattern))
    ensures Has(Filtered(es, pattern, now), k) ==> Get(Filtered(es, pattern, now), k) == Get(es, k)
  {
    if es != [] {
      FilteredAt(es[1..], pattern, now, k);
      var r := Filtered(es, pattern, now);
      if r != Filtered(es[1..], pattern, now) { assert r[1..] == Filtered(es[1..], pattern, now); }
    }
  }

  lemma {:induction false} FilteredFacts(es: seq<Entry>, pattern: seq<Unit>, now: Option<int>)
    requires Distinct(es)
    ensures Distinct(Filtered(es, pattern, now)) && |Filtered(es, pattern, now)| <= |es|
  {
    if es != [] {
      FilteredFacts(es[1..], pattern, now);
      FilteredAt(es[1..], pattern, now, es[0].key);
      var r := Filtered(es, pattern, now);
      if r != Filtered(es[1..], pattern, now) { assert r[1..] == Filtered(es[1..], pattern, now); }
    }
  }

  lemma {:induction false} PurgedAt(es: seq<Entry>, now: int, k: Key)
    requires Distinct(es)
    ensures Has(Purged(es, now), k) <==> Live(es, k, now)
    ensures Has(Purged(es, now), k) ==> Get(Purged(es, now), k) == Get(es, k)
  {
    if es != [] {
      PurgedAt(es[1..], now, k);
      var r := Purged(es, now);
      if es[0].value.expiresAt > now { assert r[1..] == Purged(es[1..], now); }
    }
  }

  lemma {:induction false} PurgedFacts(es: seq<Entry>, now: int)
    requires Distinct(es)
    ensures Distinct(Purged(es, now)) && |Purged(es, now)| <= |es|
  {
    if es != [] {
      PurgedFacts(es[1..], now);
      PurgedAt(es[1..], now, es[0].key);
      var r := Purged(es, now);
      if es[0].value.expiresAt > now { assert r[1..] == Purged(es[1..], now); }
    }
  }

  // ---------- Runs ----------

  /** A store of at most `max` entries. */
  datatype Store = Store(max: nat, entries: seq<Entry>, now: int, closed: bool)

  /** `Fail`: a `set` whose value could not be encoded, or is undefined. A `Set` without a valid
      lifetime throws. `Probe` is `has`. */
  datatype Event =
    | Set(key: Key, buffer: seq<Byte>, ttl: Option<Ttl>, outcome: Outcome)
    | Fail(key: Key)
    | Fetch(key: Key)
    | Probe(key: Key)
    | Remove(key: Key)
    | RemoveMatching(pattern: seq<Unit>)
    | Clear
    | Purge
    | PopOldest
    | Close
    | Elapse(ms: nat)

  function EntryOf(e: Event, now: int): Entry
    requires e.Set? && e.ttl.Some?
  {
    Item(e.key, |e.buffer| + Utf16.ByteLength(e.key.text) * 2 + ENTRY_OVERHEAD, Copy(e.buffer, now + e.ttl.value))
  }

  /** A set that changes the plain map. */
  predicate Effective(s: Store, e: Event) {
    e.Set? && e.ttl.Some? && !s.closed
  }

  /** The new value is not worth a place only if the key has no live one. */
  predicate Possible(s: Store, e: Event) {
    Effective(s, e) && e.outcome.NotWorth? ==> !Live(s.entries, e.key, s.now)
  }

  ghost function Next(s: Store, e: Event): Store
    requires 0 < s.max
  {
    match e
    case Elapse(ms) => s.(now := s.now + ms)
    case Close => s.(closed := true, entries := [])
    case _ => if s.closed then s else s.(entries := NextEntries(s, e))
  }

  ghost function NextEntries(s: Store, e: Event): seq<Entry>
    requires 0 < s.max
  {
    match e
    case Set(_, _, ttl, outcome) =>
      if ttl == None then s.entries else AfterSet(s.entries, EntryOf(e, s.now), s.max, outcome)
    case Fail(key) => Without(s.entries, key)
    case Fetch(key) => Touched(s.entries, key, s.now)
    case Probe(key) => if Live(s.entries, key, s.now) then s.entries else Without(s.entries, key)
    case Remove(key) => Without(s.entries, key)
    case RemoveMatching(pattern) => Filtered(s.entries, pattern, Some(s.now))
    case Clear => []
    case Purge => Purged(s.entries, s.now)
    case PopOldest => Popped(s.entries, 1)
    case _ => s.entries
  }

  /** The event takes the key out of the plain map. */
  ghost predicate Forgets(e: Event, key: Key) {
    match e
    case Fail(k) => k == key
    case Remove(k) => k == key
    case RemoveMatching(pattern) => Pattern.Matches(key.text, pattern)
    case Clear => true
    case Close => true
    case _ => false
  }

  ghost function After(max: nat, run: seq<Event>, n: nat): (s: Store)
    requires 0 < max && n <= |run|
    ensures s.max == max
  {
    if n == 0 then Store(max, [], 0, false) else Next(After(max, run, n - 1), run[n - 1])
  }

  ghost predicate PossibleRun(max: nat, run: seq<Event>)
    requires 0 < max
  {
    forall i | 0 <= i < |run| :: Possible(After(max, run, i), run[i])
  }

  /** Event `w` is the key's latest set that did not throw, and nothing removed the key since. */
  ghost predicate LatestSet(max: nat, run: seq<Event>, key: Key, w: nat, n: nat)
    requires 0 < max
  {
    && w < n <= |run| && Effective(After(max, run, w), run[w]) && run[w].key == key
    && forall k | w < k < n :: !(Effective(After(max, run, k), run[k]) && run[k].key == key) && !Forgets(run[k], key)
  }

  /** One step keeps the entries distinct and within the limit. */
  lemma NextKeepsShape(s: Store, e: Event)
    requires 0 < s.max && Distinct(s.entries) && |s.entries| <= s.max
    ensures Distinct(Next(s, e).entries) && |Next(s, e).entries| <= s.max
  {
    match e
    case Set(_, _, ttl, outcome) => if ttl.Some? && !s.closed { SetKeepsShape(s.entries, EntryOf(e, s.now), s.max, outcome); }
    case Fail(key) => WithoutCounts(s.entries, key);
    case Remove(key) => WithoutCounts(s.entries, key);
    case Fetch(key) => TouchedFacts(s.entries, key, s.now);
    case Probe(key) => WithoutCounts(s.entries, key);
    case RemoveMatching(pattern) => FilteredFacts(s.entries, pattern, Some(s.now));
    case Purge => PurgedFacts(s.entries, s.now);
    case PopOldest => PoppedFacts(s.entries, 1);
    case _ =>
  }

  lemma TouchedFacts(es: seq<Entry>, key: Key, now: int)
    requires Distinct(es)
    ensures Distinct(Touched(es, key, now)) && |Touched(es, key, now)| <= |es|
    ensures ByteSum(Touched(es, key, now)) + (if Has(es, key) && !Live(es, key, now) then Get(es, key).bytes else 0) == ByteSum(es)
  {
    WithoutCounts(es, key);
    if Live(es, key, now) { AppendCounts(Without(es, key), Get(es, key)); }
  }

  lemma SetKeepsShape(es: seq<Entry>, e: Entry, max: nat, o: Outcome)
    requires 0 < max && Distinct(es) && |es| <= max
    ensures Distinct(AfterSet(es, e, max, o)) && |AfterSet(es, e, max, o)| <= max
  {
    WithoutCounts(es, e.key);
    var rest := Without(es, e.key);
    if o.NoRoom? || o.Stored? {
      PoppedFacts(rest, o.pops);
      PoppedAt(rest, o.pops, e.key);
      if o.Stored? { InsertedFacts(Popped(rest, o.pops), e, max); }
    }
  }

  lemma InsertedFacts(es: seq<Entry>, e: Entry, max: nat)
    requires 0 < max && Distinct(es) && !Has(es, e.key)
    ensures Distinct(Inserted(es, e, max)) && |Inserted(es, e, max)| <= max
    ensures Has(Inserted(es, e, max), e.key) && Get(Inserted(es, e, max), e.key) == e
  {
    var gone := if |es| < max then 0 else |es| - max + 1;
    PoppedFacts(es, gone);
    PoppedAt(es, gone, e.key);
    AppendCounts(Popped(es, gone), e);
    AppendAt(Popped(es, gone), e, e.key);
  }

  /** A key in the entries after a step was set by it, or was there before with the same entry
      and the step does not remove it. */
  lemma NextKeepsEntry(s: Store, e: Event, k: Key)
    requires 0 < s.max && Distinct(s.entries) && Has(Next(s, e).entries, k)
    ensures var t := Next(s, e);
      if Effective(s, e) && e.key == k && !e.outcome.NotWorth? then Get(t.entries, k) == EntryOf(e, s.now)
      else Has(s.entries, k) && Get(t.entries, k) == Get(s.entries, k) && (Live(s.entries, k, s.now) ==> !Forgets(e, k) || s.closed)
  {
    match e
    case Set(_, _, ttl, outcome) => if ttl.Some? && !s.closed { SetAt(s.entries, EntryOf(e, s.now), s.max, outcome, k); }
    case Fail(key) => WithoutAt(s.entries, key, k);
    case Remove(key) => WithoutAt(s.entries, key, k);
    case Fetch(key) => TouchedAt(s.entries, key, s.now, k);
    case Probe(key) => WithoutAt(s.entries, key, k);
    case RemoveMatching(pattern) => FilteredAt(s.entries, pattern, Some(s.now), k);
    case Purge => PurgedAt(s.entries, s.now, k);
    case PopOldest => PoppedAt(s.entries, 1, k);
    case _ =>
  }

  lemma TouchedAt(es: seq<Entry>, key: Key, now: int, k: Key)
    requires Distinct(es)
    ensures Has(Touched(es, key, now), k) ==> Has(es, k) && Get(Touched(es, key, now), k) == Get(es, k)
    ensures Live(es, k, now) ==> Live(Touched(es, key, now), k, now)
  {
    WithoutAt(es, key, k);
    if Live(es, key, now) { AppendAt(Without(es, key), Get(es, key), k); }
  }

  lemma SetAt(es: seq<Entry>, e: Entry, max: nat, o: Outcome, k: Key)
    requires 0 < max && Distinct(es) && Has(AfterSet(es, e, max, o), k)
    ensures if k == e.key && !o.NotWorth? then Get(AfterSet(es, e, max, o), k) == e
            else Has(es, k) && Get(AfterSet(es, e, max, o), k) == Get(es, k)
  {
    var rest := Without(es, e.key);
    WithoutCounts(es, e.key);
    WithoutAt(es, e.key, k);
    hide Without, Distinct, Inserted, Popped;
    if o.NoRoom? || o.Stored? {
      PoppedFacts(rest, o.pops);
      PoppedAt(rest, o.pops, k);
      PoppedAt(rest, o.pops, e.key);
      if o.Stored? { InsertedAt(Popped(rest, o.pops), e, max, k); }
    }
  }

  lemma InsertedAt(es: seq<Entry>, e: Entry, max: nat, k: Key)
    requires 0 < max && Distinct(es) && !Has(es, e.key) && Has(Inserted(es, e, max), k)
    ensures if k == e.key then Get(Inserted(es, e, max), k) == e
            else Has(es, k) && Get(Inserted(es, e, max), k) == Get(es, k)
  {
    hide Distinct, Popped;
    InsertedFacts(es, e, max);
    var gone := if |es| < max then 0 else |es| - max + 1;
    PoppedAt(es, gone, k);
    AppendAt(Popped(es, gone), e, k);
  }

  lemma {:induction false} ShapeKept(max: nat, run: seq<Event>, n: nat)
    requires 0 < max && n <= |run|
    ensures Distinct(After(max, run, n).entries) && |After(max, run, n).entries| <= max
    ensures After(max, run, n).closed ==> After(max, run, n).entries == []
  {
    if 0 < n {
      ShapeKept(max, run, n - 1);
      NextKeepsShape(After(max, run, n - 1), run[n - 1]);
    }
  }

  /** A live entry is what the key's latest set that did not throw stored. */
  lemma {:induction false} LiveIsLatest(max: nat, run: seq<Event>, n: nat, key: Key) returns (w: nat)
    requires 0 < max && PossibleRun(max, run) && n <= |run|
    requires var s := After(max, run, n); Live(s.entries, key, s.now)
    ensures LatestSet(max, run, key, w, n)
    ensures Get(After(max, run, n).entries, key) == EntryOf(run[w], After(max, run, w).now)
  {
    hide Next, NextEntries, EntryOf, Forgets, Distinct, Get, Has;
    assert 0 < n by { NothingAtFirst(max, run, key); }
    var s, e := After(max, run, n - 1), run[n - 1];
    ShapeKept(max, run, n - 1);
    NextKeepsEntry(s, e, key);
    NextClock(s, e);
    assert Possible(s, e);
    if Effective(s, e) && e.key == key {
      w := n - 1;
    } else {
      assert !Forgets(e, key) by { ClosedIsEmpty(max, run, n - 1, key); }
      w := LiveIsLatest(max, run, n - 1, key);
    }
  }

  lemma NothingAtFirst(max: nat, run: seq<Event>, key: Key)
    requires 0 < max
    ensures !Has(After(max, run, 0).entries, key)
  {
  }

  lemma ClosedIsEmpty(max: nat, run: seq<Event>, n: nat, key: Key)
    requires 0 < max && n <= |run|
    ensures After(max, run, n).closed ==> !Has(After(max, run, n).entries, key)
  {
    ShapeKept(max, run, n);
  }

  lemma NextClock(s: Store, e: Event)
    requires 0 < s.max
    ensures s.now <= Next(s, e).now && (!e.Elapse? ==> Next(s, e).now == s.now)
  {
  }

  /** After any run a read is a miss or the bytes of the key's latest set that did not throw,
      still within its lifetime, with nothing having removed the key since. */
  lemma ReadIsLatestOrMiss(max: nat, run: seq<Event>, n: nat, key: Key)
    requires 0 < max && PossibleRun(max, run) && n <= |run|
    ensures var s := After(max, run, n);
      var r := Read(s.entries, key, s.now);
      r == None || exists w: nat :: LatestSet(max, run, key, w, n) && r == Some(run[w].buffer) &&
                                    s.now < After(max, run, w).now + run[w].ttl.value
    ensures |After(max, run, n).entries| <= max
  {
    ShapeKept(max, run, n);
    var s := After(max, run, n);
    if Live(s.entries, key, s.now) {
      var w := LiveIsLatest(max, run, n, key);
    }
  }

  /** A stored value is there at once. */
  lemma StoredIsReadable(s: Store, e: Event)
    requires 0 < s.max && Distinct(s.entries) && Effective(s, e) && e.outcome.Stored?
    ensures Read(Next(s, e).entries, e.key, s.now) == Some(e.buffer)
  {
    WithoutCounts(s.entries, e.key);
    var rest := Without(s.entries, e.key);
    PoppedFacts(rest, e.outcome.pops);
    PoppedAt(rest, e.outcome.pops, e.key);
    InsertedFacts(Popped(rest, e.outcome.pops), EntryOf(e, s.now), s.max);
  }

  // ---------- How often a key was used ----------

  /** The next `n` cells from the cursor on are halved, one after the other. */
  function Halved(h: seq<Byte>, cursor: nat, n: nat): (r: seq<Byte>)
    requires |h| == HISTORY_BYTES
    ensures |r| == HISTORY_BYTES
  {
    if n == 0 then h else
    var before := Halved(h, cursor, n - 1);
    var cell := (cursor + n - 1) % HISTORY_BYTES;
    before[cell := before[cell] / 2]
  }

  function Recorded(h: seq<Byte>, decays: bool, cursor: nat, cell: nat): (r: seq<Byte>)
    requires |h| == HISTORY_BYTES && cell < HISTORY_BYTES
    ensures |r| == HISTORY_BYTES
  {
    var aged := if decays then Halved(h, cursor, 8) else h;
    aged[cell := Min(255, aged[cell] + 1)]
  }

  /** Cell `k` is one of the `n` that follow the cursor, going round. */
  predicate Following(cursor: nat, n: nat, k: nat) {
    (k - cursor) % HISTORY_BYTES < n
  }

  lemma {:induction false} HalvedAt(h: seq<Byte>, cursor: nat, n: nat, k: nat)
    requires |h| == HISTORY_BYTES && n <= HISTORY_BYTES && k < HISTORY_BYTES
    ensures Halved(h, cursor, n)[k] == if Following(cursor, n, k) then h[k] / 2 else h[k]
  {
    if n != 0 {
      HalvedAt(h, cursor, n - 1, k);
      LastCell(cursor, n, k);
    }
  }

  lemma LastCell(cursor: nat, n: nat, k: nat)
    requires 0 < n <= HISTORY_BYTES && k < HISTORY_BYTES
    ensures k == (cursor + n - 1) % HISTORY_BYTES <==> (k - cursor) % HISTORY_BYTES == n - 1
  {
  }

  /** A use counts once, up to 255, and every cell is halved once in a full round of the cursor. */
  lemma RecordedAt(h: seq<Byte>, decays: bool, cursor: nat, cell: nat, k: nat)
    requires |h| == HISTORY_BYTES && cell < HISTORY_BYTES && k < HISTORY_BYTES
    ensures var aged: int := if decays && Following(cursor, 8, k) then h[k] / 2 else h[k];
      Recorded(h, decays, cursor, cell)[k] == if k == cell then Min(255, aged + 1) else aged
  {
    if decays {
      HalvedAt(h, cursor, 8, k);
    }
  }

  // ---------- The store object ----------

  predicate AtLeastAsDense(candidate: nat, bytes: nat, victim: nat, victimBytes: nat) {
    victim * bytes <= candidate * victimBytes
  }

  class MemoryStore {
    const memoryBudget: MemoryBudget
    const maxEntries: nat
    const maxEntryBytes: Option<nat>
    const hash: Key -> nat
    const history: array<Byte>
    var hasHistory: bool
    var entries: seq<Entry>
    var bytes: nat
    var closed: bool
    var accesses: nat
    var decayCursor: nat

    ghost predicate Valid()
      reads this
    {
      && 0 < maxEntries && history.Length == HISTORY_BYTES
      && Distinct(entries) && |entries| <= maxEntries && bytes == ByteSum(entries)
      && (closed ==> entries == [] && !hasHistory)
    }

    /** The store's share of the ledger. */
    function Holdings(): Books
      reads this
    {
      Books(bytes, 0, if hasHistory then HISTORY_BYTES else 0, 0, 0, 0)
    }

    /** What the other holders leave of the ledger's target. */
    ghost function Room(): int
      reads this`bytes, memoryBudget
    {
      memoryBudget.target - memoryBudget.used + bytes
    }

    ghost predicate Ready()
      reads this, memoryBudget
    {
      Valid() && Sound(memoryBudget.State()) && Covers(memoryBudget.categories, Holdings())
    }

    constructor (memoryBudget: MemoryBudget, maxEntries: nat, maxEntryBytes: Option<nat>, hash: Key -> nat)
      requires Sound(memoryBudget.State()) && 0 < maxEntries
      modifies memoryBudget`used, memoryBudget`categories
      ensures this.memoryBudget == memoryBudget && this.maxEntries == maxEntries && fresh(history)
      ensures Ready() && entries == [] && !closed
      ensures Moves(old(memoryBudget.State()), EMPTY, memoryBudget.State(), Holdings())
    {
      this.memoryBudget, this.maxEntries, this.maxEntryBytes, this.hash := memoryBudget, maxEntries, maxEntryBytes, hash;
      entries, bytes, closed, accesses, decayCursor := [], 0, false, 0, 0;
      history := new Byte[HISTORY_BYTES](_ => 0);
      new;
      hasHistory := false;
      hasHistory := memoryBudget.TryReserve(HISTORY_BYTES, Metadata);
    }

    /** `dispose`, for the least recently used entry. */
    method PopOldest() returns (popped: bool)
      requires Ready()
      modifies this`entries, this`bytes, memoryBudget`used, memoryBudget`categories
      ensures Ready() && Moves(old(memoryBudget.State()), old(Holdings()), memoryBudget.State(), Holdings())
      ensures popped == (old(entries) != []) && entries == Popped(old(entries), 1) && Room() == old(Room())
    {
      if entries == [] { return false; }
      PoppedFacts(entries, 1);
      bytes := bytes - entries[0].bytes;
      memoryBudget.Release(entries[0].bytes, Fresh);
      entries := entries[1..];
      popped := true;
    }

    method Delete(key: Key)
      requires Ready()
      modifies this`entries, this`bytes, memoryBudget`used, memoryBudget`categories
      ensures Ready() && Moves(old(memoryBudget.State()), old(Holdings()), memoryBudget.State(), Holdings())
      ensures entries == Without(old(entries), key) && Room() == old(Room())
    {
      WithoutCounts(entries, key);
      if Has(entries, key) {
        var e := Get(entries, key);
        bytes := bytes - e.bytes;
        memoryBudget.Release(e.bytes, Fresh);
      }
      entries := Without(entries, key);
    }

    /** Counts an access; every eighth one halves eight cells. */
    method Record(key: Key)
      requires history.Length == HISTORY_BYTES
      modifies this`accesses, this`decayCursor, history
      ensures !hasHistory ==> accesses == old(accesses) && decayCursor == old(decayCursor) && history[..] == old(history[..])
      ensures hasHistory ==> accesses == old(accesses) + 1 && decayCursor == old(decayCursor) + if accesses % 8 == 0 then 8 else 0
      ensures hasHistory ==> history[..] == Recorded(old(history[..]), accesses % 8 == 0, old(decayCursor), hash(key) % HISTORY_BYTES)
    {
      if !hasHistory { return; }
      ghost var before, cursor := history[..], decayCursor;
      accesses := accesses + 1;
      if accesses % 8 == 0 {
        for i := 0 to 8
          modifies this`decayCursor, history
          invariant decayCursor == cursor + i && history[..] == Halved(before, cursor, i)
        {
          var cell := decayCursor % HISTORY_BYTES;
          history[cell] := history[cell] / 2;
          decayCursor := decayCursor + 1;
        }
      }
      var h := hash(key) % HISTORY_BYTES;
      var uses: int := history[h];
      history[h] := Min(255, uses + 1);
    }

    function Uses(key: Key): (n: nat)
      requires history.Length == HISTORY_BYTES
      reads this, history
    {
      Max(1, history[hash(key) % HISTORY_BYTES])
    }

    /** The entry has expired, or is used no more often for its size than the key. */
    predicate Yields(e: Entry, key: Key, size: nat, now: int)
      requires history.Length == HISTORY_BYTES
      reads this, history
    {
      e.value.expiresAt <= now || AtLeastAsDense(Uses(key), size, Uses(e.key), e.bytes)
    }

    /** A key is worth a place if one of the eight least recently used entries yields to it; an empty
        store takes anything. */
    ghost predicate Worth(key: Key, size: nat, now: int)
      requires history.Length == HISTORY_BYTES
      reads this, history
    {
      hasHistory && (entries == [] || exists i :: 0 <= i < |entries| && i < 8 && Yields(entries[i], key, size, now))
    }

    /** `worthAdmitting`. */
    method WorthAdmitting(key: Key, size: nat, now: int) returns (worth: bool)
      requires Valid()
      ensures worth == Worth(key, size, now)
    {
      if !hasHistory { return false; }
      var candidate := Uses(key);
      var sampled := 0;
      while sampled < |entries|
        invariant sampled <= |entries| && sampled < 8
        invariant forall i | 0 <= i < sampled :: !Yields(entries[i], key, size, now)
      {
        var victim := entries[sampled];
        if victim.value.expiresAt <= now { return true; }
        if AtLeastAsDense(candidate, size, Uses(victim.key), victim.bytes) { return true; }
        sampled := sampled + 1;
        if sampled == 8 { break; }
      }
      worth := sampled == 0;
    }

    /** The share, counting bytes reserved for an entry that is not inserted yet. */
    function Pending(reserved: bool, size: nat): Books
      reads this
    {
      Holdings().(l1 := bytes + if reserved then size else 0)
    }

    ghost predicate PendingReady(reserved: bool, size: nat)
      reads this, memoryBudget
    {
      Valid() && Sound(memoryBudget.State()) && Covers(memoryBudget.categories, Pending(reserved, size))
    }

    method TryFresh(size: nat) returns (reserved: bool)
      requires Ready()
      modifies memoryBudget`used, memoryBudget`categories
      ensures PendingReady(reserved, size)
      ensures Moves(old(memoryBudget.State()), Holdings(), memoryBudget.State(), Pending(reserved, size))
      ensures reserved == (ByteSum(entries) + size <= old(Room())) && (!reserved ==> Room() == old(Room()))
    {
      reserved := memoryBudget.TryReserve(size, Fresh);
    }

    /** Frees bytes by popping, at most sixteen times, until the reservation succeeds. */
    method ReserveByPopping(size: nat) returns (reserved: bool, pops: nat)
      requires Ready()
      modifies this`entries, this`bytes, memoryBudget`used, memoryBudget`categories
      ensures PendingReady(reserved, size) && entries == Popped(old(entries), pops)
      ensures Moves(old(memoryBudget.State()), old(Holdings()), memoryBudget.State(), Pending(reserved, size))
      ensures pops == PopsFor(old(entries), old(Room()) - size, MAX_EVICTIONS_PER_WRITE)
      ensures reserved == (ByteSum(entries) + size <= old(Room()))
    {
      hide Moves, Sound, Covers, Distinct, ByteSum;
      ghost var l0, h0 := memoryBudget.State(), Holdings();
      ghost var room := Room();
      pops := 0;
      reserved := TryFresh(size);
      var n := 0;
      while !reserved && n < MAX_EVICTIONS_PER_WRITE
        modifies this`entries, this`bytes, memoryBudget`used, memoryBudget`categories
        invariant n <= MAX_EVICTIONS_PER_WRITE && entries == Popped(old(entries), pops) && PendingReady(reserved, size)
        invariant Moves(l0, h0, memoryBudget.State(), Pending(reserved, size))
        invariant reserved == (ByteSum(entries) + size <= room) && (!reserved ==> Room() == room) && pops == n
        invariant PopsFor(old(entries), room - size, MAX_EVICTIONS_PER_WRITE) == pops + PopsFor(entries, room - size, MAX_EVICTIONS_PER_WRITE - n)
      {
        ghost var l1, h1 := memoryBudget.State(), Holdings();
        assert Pending(false, size) == Holdings();
        var popped := PopOldest();
        ghost var l2, h2 := memoryBudget.State(), Holdings();
        CacheLedger.MovesTogether(l0, h0, l1, h1, l2, h2);
        if !popped { assert Pending(false, size) == Holdings(); break; }
        PoppedOnce(old(entries), pops);
        pops := pops + 1;
        reserved := TryFresh(size);
        CacheLedger.MovesTogether(l0, h0, l2, h2, memoryBudget.State(), Pending(reserved, size));
        n := n + 1;
      }
    }

    /** `cache.set` on a key that is not there, its bytes being reserved: the oldest entry beyond
        the limit goes. */
    method Insert(e: Entry)
      requires PendingReady(true, e.bytes) && !Has(entries, e.key) && !closed
      modifies this`entries, this`bytes, memoryBudget`used, memoryBudget`categories
      ensures Ready() && entries == Inserted(old(entries), e, maxEntries)
      ensures Moves(old(memoryBudget.State()), old(Pending(true, e.bytes)), memoryBudget.State(), Holdings())
    {
      ghost var gone: nat := 0;
      while maxEntries <= |entries|
        modifies this`entries, this`bytes, memoryBudget`used, memoryBudget`categories
        invariant PendingReady(true, e.bytes)
        invariant Moves(old(memoryBudget.State()), old(Pending(true, e.bytes)), memoryBudget.State(), Pending(true, e.bytes))
        invariant entries == Popped(old(entries), gone) && |entries| == |old(entries)| - gone && !Has(entries, e.key)
        invariant gone == 0 || |entries| == maxEntries - 1
        decreases |entries|
      {
        PoppedOnce(old(entries), gone);
        PoppedAt(entries, 1, e.key);
        var _ := PopOldest();
        gone := gone + 1;
      }
      assert gone == if |old(entries)| < maxEntries then 0 else |old(entries)| - maxEntries + 1;
      AppendCounts(entries, e);
      entries := entries + [e];
      bytes := bytes + e.bytes;
    }

    method DropAndReserve(key: Key, size: nat) returns (reserved: bool, pops: nat)
      requires Ready()
      modifies this`entries, this`bytes, memoryBudget`used, memoryBudget`categories
      ensures PendingReady(reserved, size) && entries == Popped(Without(old(entries), key), pops) && !Has(entries, key)
      ensures Moves(old(memoryBudget.State()), old(Holdings()), memoryBudget.State(), Pending(reserved, size))
      ensures pops == PopsFor(Without(old(entries), key), old(Room()) - size, MAX_EVICTIONS_PER_WRITE)
      ensures reserved == (ByteSum(entries) + size <= old(Room()))
    {
      hide Moves, Sound, Covers, ByteSum;
      ghost var l0, h0, es := memoryBudget.State(), Holdings(), entries;
      WithoutCounts(es, key);
      Delete(key);
      ghost var l1, h1 := memoryBudget.State(), Holdings();
      reserved, pops := ReserveByPopping(size);
      CacheLedger.MovesTogether(l0, h0, l1, h1, memoryBudget.State(), Pending(reserved, size));
      PoppedAt(Without(es, key), pops, key);
    }

    function MaxEntry(): nat
      reads this, memoryBudget
    {
      if maxEntryBytes.Some? then maxEntryBytes.value else Min(16 * 1024 * 1024, Max(1, memoryBudget.hardCap / 4))
    }

    ghost function TermsOf(admission: bool): Terms
      reads this, memoryBudget
    {
      Terms(MaxEntry(), memoryBudget.target, Room(), memoryBudget.state.Normal?, admission)
    }

    /** `setEncoded`; `None` when the lifetime is refused. */
    method SetEncoded(key: Key, buffer: seq<Byte>, ttl: Option<Ttl>, now: int, admission: bool) returns (outcome: Option<Outcome>)
      requires Ready()
      modifies this`entries, this`bytes, memoryBudget`used, memoryBudget`categories
      ensures Ready() && Moves(old(memoryBudget.State()), old(Holdings()), memoryBudget.State(), Holdings())
      ensures outcome == None <==> closed || ttl == None
      ensures outcome == None ==> entries == old(entries)
      ensures outcome.Some? ==>
        var e := EntryOf(Set(key, buffer, ttl, outcome.value), now);
        entries == AfterSet(old(entries), e, maxEntries, outcome.value)
      ensures outcome.Some? ==>
        var e := EntryOf(Set(key, buffer, ttl, outcome.value), now);
        outcome.value == OutcomeOf(old(entries), e, now, maxEntries, old(TermsOf(admission)), old(Worth(key, e.bytes, now)))
    {
      hide Moves, Sound, Covers, ByteSum, Distinct, Without, Popped, Utf16.ByteLength;
      ghost var l0, h0 := memoryBudget.State(), Holdings();
      CacheLedger.StandsStill(l0, h0);
      if closed || ttl == None { return None; }
      var size := |buffer| + Utf16.ByteLength(key.text) * 2 + ENTRY_OVERHEAD;
      var e := Item(key, size, Copy(buffer, now + ttl.value));
      var prior := Live(entries, key, now);
      ghost var t, worthy := TermsOf(admission), Worth(key, size, now);
      assert bytes == ByteSum(entries);
      if MaxEntry() < size || memoryBudget.target < size || !memoryBudget.state.Normal? {
        Delete(key);
        return Some(TooBig);
      }
      var freed := if prior then Get(entries, key).bytes else 0;
      var needsSpace := memoryBudget.target < memoryBudget.used + size - freed || (!prior && maxEntries <= |entries|);
      if !prior && needsSpace && admission {
        var worth := WorthAdmitting(key, size, now);
        if !worth { return Some(NotWorth); }
      }
      var reserved, pops := DropAndReserve(key, size);
      if !reserved {
        assert Pending(false, size) == Holdings();
        return Some(NoRoom(pops));
      }
      ghost var l1, h1 := memoryBudget.State(), Pending(true, size);
      Insert(e);
      CacheLedger.MovesTogether(l0, h0, l1, h1, memoryBudget.State(), Holdings());
      outcome := Some(Stored(pops));
    }

    /** `getEncoded`: a hit moves to the back, an expired entry is disposed of. */
    method GetEncoded(key: Key, now: int) returns (r: Option<seq<Byte>>)
      requires Ready()
      modifies this`entries, this`bytes, this`accesses, this`decayCursor, history, memoryBudget`used, memoryBudget`categories
      ensures Ready() && Moves(old(memoryBudget.State()), old(Holdings()), memoryBudget.State(), Holdings())
      ensures r == Read(old(entries), key, now) && entries == Touched(old(entries), key, now)
      ensures hasHistory ==> accesses == old(accesses) + 1 && history[..] == Recorded(old(history[..]), accesses % 8 == 0, old(decayCursor), hash(key) % HISTORY_BYTES)
    {
      Record(key);
      WithoutCounts(entries, key);
      if Live(entries, key, now) {
        var e := Get(entries, key);
        AppendCounts(Without(entries, key), e);
        entries := Without(entries, key) + [e];
        return Some(e.value.buffer);
      }
      Delete(key);
      r := None;
    }

    method Clear()
      requires Ready()
      modifies this`entries, this`bytes, memoryBudget`used, memoryBudget`categories
      ensures Ready() && Moves(old(memoryBudget.State()), old(Holdings()), memoryBudget.State(), Holdings())
      ensures entries == []
    {
      memoryBudget.Release(bytes, Fresh);
      entries, bytes := [], 0;
    }

    /** After `close` nothing of the store is left in the ledger. */
    method Close()
      requires Ready()
      modifies this`entries, this`bytes, this`closed, this`hasHistory, memoryBudget`used, memoryBudget`categories
      ensures Ready() && Moves(old(memoryBudget.State()), old(Holdings()), memoryBudget.State(), Holdings())
      ensures closed && entries == [] && Holdings() == EMPTY
      ensures old(closed) ==> unchanged(this)
    {
      if closed { return; }
      closed := true;
      memoryBudget.Release(bytes, Fresh);
      entries, bytes := [], 0;
      if hasHistory { memoryBudget.Release(HISTORY_BYTES, Metadata); }
      hasHistory := false;
    }
  }

  /** The Worker facade's L1: the same order of use, a count limit and lifetimes, no ledger. */
  class CloudflareWorkerMemoryStore {
    const maxEntries: nat
    var entries: seq<Entry>

    ghost predicate Valid()
      reads this
    {
      0 < maxEntries && Distinct(entries) && |entries| <= maxEntries
    }

    constructor (maxEntries: nat)
      requires 0 < maxEntries
      ensures Valid() && entries == [] && this.maxEntries == maxEntries
    {
      this.maxEntries, entries := maxEntries, [];
    }

    method GetValue(key: Key, now: int) returns (r: Option<seq<Byte>>)
      requires Valid()
      modifies this`entries
      ensures Valid() && r == Read(old(entries), key, now) && entries == Touched(old(entries), key, now)
    {
      TouchedFacts(entries, key, now);
      if !Has(entries, key) { WithoutCounts(entries, key); AbsentStays(entries, key); return None; }
      var entry := Get(entries, key);
      if entry.value.expiresAt <= now {
        entries := Without(entries, key);
        return None;
      }
      entries := Without(entries, key);
      entries := entries + [entry];
      r := Some(entry.value.buffer);
    }

    method SetValue(key: Key, value: seq<Byte>, ttl: Ttl, now: int)
      requires Valid()
      modifies this`entries
      ensures Valid()
      ensures var e := EntryOf(Set(key, value, Some(ttl), Stored(0)), now);
        entries == AfterSet(old(entries), e, maxEntries, Stored(0))
    {
      var size := |value| + Utf16.ByteLength(key.text) * 2 + ENTRY_OVERHEAD;
      var e := Item(key, size, Copy(value, now + ttl));
      SetKeepsShape(entries, e, maxEntries, Stored(0));
      WithoutCounts(entries, key);
      ghost var rest := Without(entries, key);
      assert Popped(rest, 0) == rest;
      entries := Without(entries, key);
      entries := entries + [e];
      ghost var gone: nat := 0;
      while maxEntries < |entries|
        modifies this`entries
        invariant gone <= |rest| && entries == rest[gone..] + [e] && (gone == 0 || maxEntries <= |entries|)
        decreases |entries|
      {
        assert entries[1..] == rest[gone + 1..] + [e];
        entries := entries[1..];
        gone := gone + 1;
      }
    }

    method DeleteByPattern(pattern: seq<Unit>)
      requires Valid()
      modifies this`entries
      ensures Valid() && entries == Filtered(old(entries), pattern, None)
    {
      FilteredFacts(entries, pattern, None);
      var es, i, kept := entries, 0, [];
      assert es[0..] == es;
      while i < |es|
        modifies {}
        invariant i <= |es| && kept + Filtered(es[i..], pattern, None) == Filtered(es, pattern, None)
      {
        var hit := Pattern.MatchesPattern(es[i].key.text, pattern);
        assert es[i..][1..] == es[i + 1..];
        if !hit { kept := kept + [es[i]]; }
        i := i + 1;
      }
      assert kept == Filtered(es, pattern, None) by { assert es[i..] == [] && kept + [] == kept; }
      entries := kept;
    }
  }

  lemma PoppedOnce(es: seq<Entry>, n: nat)
    ensures Popped(Popped(es, n), 1) == Popped(es, n + 1)
  {
  }
}
