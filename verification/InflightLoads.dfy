/** Loads in flight, as `getOrSet` registers them, and the byte counter that goes with them. An
    entry that expires between two readings of the clock is replaced, but stays counted. */
module InflightLoads {
  import opened Common
  import opened OrderedMap

  /** A tracked load: its promise, and from when on nobody joins it any more. */
  datatype Flight = Flight(promise: nat, expiresAt: Option<int>)

  type Load = Item<Flight>

  /** The map and its counter. */
  datatype Flights = Flights(loads: seq<Load>, bytes: int) {
    predicate Valid() {
      Distinct(loads) && Costed(loads) && ByteSum(loads) <= bytes
    }
  }

  predicate Costed(loads: seq<Load>) {
    forall l | l in loads :: l.bytes == KeyMetadataBytes(l.key)
  }

  // ---------- One call ----------

  /** `isInflightExpired`, which reads the clock. */
  predicate IsExpired(l: Load, now: int) {
    l.value.expiresAt.Some? && l.value.expiresAt.value <= now
  }

  /** `removeInflight`. */
  function Forgotten(f: Flights, key: Key): Flights {
    if Has(f.loads, key) then Flights(Without(f.loads, key), f.bytes - Get(f.loads, key).bytes) else f
  }

  /** `pruneInflightKey`. */
  function Pruned(f: Flights, key: Key, now: int): Flights {
    if Has(f.loads, key) && IsExpired(Get(f.loads, key), now) then Forgotten(f, key) else f
  }

  /** `reserveInflight`; `left` is what the ledger has left. */
  predicate Admitted(f: Flights, key: Key, maxEntries: Option<nat>, left: int) {
    && (maxEntries.Some? ==> |f.loads| < maxEntries.value)
    && f.bytes + KeyMetadataBytes(key) <= MAX_AUXILIARY_MAP_BYTES && KeyMetadataBytes(key) <= left
  }

  /** The bytes are counted, and the load is registered under its key. */
  function Tracked(f: Flights, key: Key, flight: Flight): Flights {
    Flights(if Has(f.loads, key) then Retagged(f.loads, key, flight) else f.loads + [Item(key, KeyMetadataBytes(key), flight)],
            f.bytes + KeyMetadataBytes(key))
  }

  datatype Outcome = Joined | Bypassed | Started

  /** The second look of `getOrSet`, with nothing awaited in between: the clock is read once to
      prune and once more to join. `left` is what the ledger has left after the pruning. */
  function Looked(f: Flights, key: Key, first: int, second: int, flight: Flight, maxEntries: Option<nat>, left: int): (Flights, Outcome) {
    var p := Pruned(f, key, first);
    if Has(p.loads, key) && !IsExpired(Get(p.loads, key), second) then (p, Joined)
    else if Admitted(p, key, maxEntries, left) then (Tracked(p, key, flight), Started)
    else (p, Bypassed)
  }

  /** The `finally` of a load: it takes its own entry only. */
  function Completed(f: Flights, key: Key, promise: nat): Flights {
    if Has(f.loads, key) && Get(f.loads, key).value.promise == promise then Forgotten(f, key) else f
  }

  lemma ForgottenKeeps(f: Flights, key: Key)
    requires f.Valid()
    ensures var t := Forgotten(f, key);
      t.Valid() && t.bytes - ByteSum(t.loads) == f.bytes - ByteSum(f.loads) && !Has(t.loads, key)
  {
    WithoutCounts(f.loads, key);
    WithoutItems(f.loads, key);
  }

  lemma TrackedKeeps(f: Flights, key: Key, flight: Flight)
    requires f.Valid()
    ensures var t := Tracked(f, key, flight);
      && t.Valid() && Has(t.loads, key)
      && t.bytes - ByteSum(t.loads) == f.bytes - ByteSum(f.loads) + if Has(f.loads, key) then KeyMetadataBytes(key) else 0
  {
    hide KeyMetadataBytes;
    if Has(f.loads, key) {
      RetaggedCounts(f.loads, key, flight);
      RetaggedItems(f.loads, key, flight);
    } else {
      AppendCounts(f.loads, Item(key, KeyMetadataBytes(key), flight));
      AppendAt(f.loads, Item(key, KeyMetadataBytes(key), flight), key);
    }
  }

  // ---------- Runs ----------

  /** `Prune` is the first look of `getOrSet`, `Remove` any other removal of a key, `Clear` what
      saturation, a flush and the close do. */
  datatype Step =
    | Prune(key: Key, now: int)
    | Look(key: Key, first: int, second: int, flight: Flight, maxEntries: Option<nat>, left: int)
    | Complete(key: Key, promise: nat)
    | Remove(key: Key)
    | Clear

  function Next(f: Flights, step: Step): Flights {
    match step
    case Prune(key, now) => Pruned(f, key, now)
    case Look(key, first, second, flight, maxEntries, left) => Looked(f, key, first, second, flight, maxEntries, left).0
    case Complete(key, promise) => Completed(f, key, promise)
    case Remove(key) => Forgotten(f, key)
    case Clear => Flights([], 0)
  }

  function After(run: seq<Step>): Flights {
    if run == [] then Flights([], 0) else Next(After(run[..|run| - 1]), run[|run| - 1])
  }

  /** The step tracks a load over an entry of its key that had not expired at the first reading of
      the clock, and had at the second. */
  predicate TracksOver(f: Flights, step: Step) {
    && step.Look? && Has(f.loads, step.key)
    && (var expiresAt := Get(f.loads, step.key).value.expiresAt;
        expiresAt.Some? && step.first < expiresAt.value <= step.second)
    && Admitted(f, step.key, step.maxEntries, step.left)
  }

  /** The bytes tracked over since the last clear. */
  function Orphaned(run: seq<Step>): (n: nat) {
    if run == [] || run[|run| - 1].Clear? then 0
    else
      var before, step := run[..|run| - 1], run[|run| - 1];
      Orphaned(before) + if TracksOver(After(before), step) then KeyMetadataBytes(step.key) else 0
  }

  lemma LookKeeps(f: Flights, step: Step)
    requires f.Valid() && step.Look?
    ensures var t := Next(f, step);
      && t.Valid()
      && t.bytes - ByteSum(t.loads) == f.bytes - ByteSum(f.loads) + if TracksOver(f, step) then KeyMetadataBytes(step.key) else 0
  {
    hide KeyMetadataBytes, Forgotten, Tracked, Flights.Valid, Admitted;
    var p := Pruned(f, step.key, step.first);
    ForgottenKeeps(f, step.key);
    TrackedKeeps(p, step.key, step.flight);
  }

  lemma NextKeeps(f: Flights, step: Step)
    requires f.Valid()
    ensures var t := Next(f, step);
      && t.Valid()
      && (!step.Clear? ==>
          t.bytes - ByteSum(t.loads) == f.bytes - ByteSum(f.loads) + if TracksOver(f, step) then KeyMetadataBytes(step.key) else 0)
  {
    hide KeyMetadataBytes, Forgotten, Looked, Admitted;
    if step.Look? {
      LookKeeps(f, step);
    } else if !step.Clear? {
      ForgottenKeeps(f, step.key);
    }
  }

  /** In every run the counter is the sum of the tracked loads and of what was tracked over since
      the last clear. */
  lemma {:induction false} CounterIsSumPlus(run: seq<Step>)
    ensures After(run).Valid() && After(run).bytes == ByteSum(After(run).loads) + Orphaned(run)
  {
    hide Next, TracksOver;
    if run != [] {
      CounterIsSumPlus(run[..|run| - 1]);
      NextKeeps(After(run[..|run| - 1]), run[|run| - 1]);
      if run[|run| - 1].Clear? { ClearIsEmpty(After(run[..|run| - 1])); }
    }
  }

  lemma ClearIsEmpty(f: Flights)
    ensures Next(f, Clear) == Flights([], 0)
  {
  }

  /** How many steps there are up to the last clear, it included. */
  function Cleared(run: seq<Step>): (n: nat)
    ensures n <= |run|
  {
    if run == [] || run[|run| - 1].Clear? then |run| else Cleared(run[..|run| - 1])
  }

  predicate TracksOverAt(run: seq<Step>, i: nat)
    requires i < |run|
  {
    TracksOver(After(run[..i]), run[i])
  }

  lemma {:induction false} OrphanedIff(run: seq<Step>)
    ensures Orphaned(run) == 0 <==> forall i | Cleared(run) <= i < |run| :: !TracksOverAt(run, i)
  {
    hide TracksOver, After;
    if run != [] && !run[|run| - 1].Clear? {
      var before := run[..|run| - 1];
      OrphanedIff(before);
      forall i | 0 <= i < |before| ensures TracksOverAt(run, i) == TracksOverAt(before, i) {
        assert run[..i] == before[..i];
      }
      assert TracksOverAt(run, |before|) == TracksOver(After(before), run[|before|]);
    }
  }

  /** In every run the counter is the sum of the tracked loads exactly when no load since the last
      clear was tracked over an entry that expired between the two readings of the clock. */
  lemma CounterIsSumIff(run: seq<Step>)
    ensures After(run).bytes == ByteSum(After(run).loads) <==> forall i | Cleared(run) <= i < |run| :: !TracksOverAt(run, i)
  {
    CounterIsSumPlus(run);
    OrphanedIff(run);
  }

  /** With one reading, or a clock that went back, it always is. */
  lemma OneReadingIsExact(run: seq<Step>)
    requires forall s | s in run && s.Look? :: s.second <= s.first
    ensures After(run).bytes == ByteSum(After(run).loads)
  {
    hide After;
    CounterIsSumIff(run);
    forall i | 0 <= i < |run| ensures !TracksOverAt(run, i) { assert run[i] in run; }
  }

  /** The least run that shows it: two loads of one key, the first expiring while the second looks.
      Nothing is tracked in the end, and the first load's bytes are still counted. */
  lemma ReplacedStaysCounted(key: Key, left: int)
    requires 2 * KeyMetadataBytes(key) <= MAX_AUXILIARY_MAP_BYTES && KeyMetadataBytes(key) <= left
    ensures var run := [Look(key, 0, 0, Flight(0, Some(1)), None, left), Look(key, 0, 1, Flight(1, None), None, left),
                        Complete(key, 1), Complete(key, 0)];
      After(run) == Flights([], KeyMetadataBytes(key))
  {
    hide KeyMetadataBytes;
    var a, b, c, d := Look(key, 0, 0, Flight(0, Some(1)), None, left), Look(key, 0, 1, Flight(1, None), None, left), Complete(key, 1), Complete(key, 0);
    var n := KeyMetadataBytes(key);
    var f1, f2 := Flights([Item(key, n, Flight(0, Some(1)))], n), Flights([Item(key, n, Flight(1, None))], 2 * n);
    assert Next(Flights([], 0), a) == f1;
    assert f1.loads[1..] == [];
    assert Next(f1, b) == f2;
    assert f2.loads[1..] == [];
    assert Next(f2, c) == Flights([], n) && Next(Flights([], n), d) == Flights([], n);
    hide Next;
    var run := [a, b, c, d];
    assert run[..3] == [a, b, c] && [a, b, c][..2] == [a, b] && [a, b][..1] == [a] && [a][..0] == [];
    assert After([a]) == f1;
    assert After([a, b]) == f2;
    assert After([a, b, c]) == Flights([], n);
  }
}
