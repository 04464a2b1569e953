/** Deletes received from peers, as `applyRemoteDelete` works through their keys, and what they
    leave in a cache that closes meanwhile. One step is the code between two awaits. */
module ReceivedDelete {
  import opened Common
  import opened OrderedMap
  import ByteLedger
  import CacheLedger

  /** What `Number` makes of a text: how the number prints, and whether it is finite. */
  datatype Numbers = Numbers(spelling: seq<Unit> -> seq<Unit>, finite: seq<Unit> -> bool)

  /** `types` says which keys are numbers; events of earlier releases come without it. */
  datatype Event = Event(keys: seq<seq<Unit>>, types: Option<seq<bool>>, generation: Option<int>)

  /** `eventKey`. */
  function EventKey(ns: Numbers, e: Event, i: nat): Key
    requires i < |e.keys|
  {
    if e.types.Some? && i < |e.types.value| && e.types.value[i] then Key(ns.spelling(e.keys[i]), true)
    else Key(e.keys[i], false)
  }

  /** An untyped key that prints as a finite number stands for that number too. */
  predicate HasAlias(ns: Numbers, e: Event, i: nat)
    requires i < |e.keys|
  {
    e.types == None && ns.spelling(e.keys[i]) == e.keys[i] && ns.finite(e.keys[i])
  }

  /** Where a received delete waits: for the flush that a regression caused, for L1 to forget a
      key, or only for its own continuation. */
  datatype Phase = Regressed | Deleting(alias: bool) | Deleted(alias: bool)

  datatype Task = Task(event: Event, index: nat, phase: Phase) {
    predicate Valid() {
      index < |event.keys|
    }
  }

  /** What of the cache the loop reads and writes. */
  datatype Local = Local(versioned: bool, closed: bool, saturated: bool, generations: seq<CacheLedger.Item>)

  // ---------- The steps of one received delete ----------

  /** `deleteLocalOnly` up to its first await. `left` is what the ledger has left for the key's
      generation. */
  function StartDelete(ns: Numbers, l: Local, e: Event, i: nat, alias: bool, left: int): (Local, Option<Task>)
    requires i < |e.keys|
  {
    var text := DeletedKey(ns, e, i, alias).text;
    var next := CacheLedger.AfterDelete(l.generations, text, e.generation);
    (if CacheLedger.Storable(l.generations, text, next, left)
     then l.(generations := CacheLedger.Stored(l.generations, text, next)) else l.(saturated := true),
     Some(Task(e, i, Deleting(alias))))
  }

  function DeletedKey(ns: Numbers, e: Event, i: nat, alias: bool): Key
    requires i < |e.keys|
  {
    if alias then Key(e.keys[i], true) else EventKey(ns, e, i)
  }

  /** The head of the loop: the only place that asks whether the cache is closed. */
  function Head(ns: Numbers, l: Local, e: Event, i: nat, left: int): (Local, Option<Task>)
    requires i <= |e.keys|
  {
    if i == |e.keys| || l.closed then (l, None)
    else if IsStale(l, e, i) && l.versioned then (l.(saturated := true), Some(Task(e, i, Regressed)))
    else StartDelete(ns, l, e, i, false, left)
  }

  predicate IsStale(l: Local, e: Event, i: nat)
    requires i < |e.keys|
  {
    e.generation.Some? && e.generation.value < CacheLedger.Current(l.generations, e.keys[i])
  }

  /** What a waiting delete does when it goes on. */
  function Continued(ns: Numbers, l: Local, t: Task, left: int): (Local, Option<Task>)
    requires t.Valid()
  {
    match t.phase
    case Regressed => StartDelete(ns, l, t.event, t.index, false, left)
    case Deleting(alias) => (l, Some(t.(phase := Deleted(alias))))
    case Deleted(alias) =>
      if !alias && HasAlias(ns, t.event, t.index) then StartDelete(ns, l, t.event, t.index, true, left)
      else Head(ns, l, t.event, t.index + 1, left)
  }

  // ---------- Who may store a generation in a closed cache ----------

  /** The delete's next step forgets another key without asking whether the cache is closed. */
  predicate Pending(ns: Numbers, t: Task)
    requires t.Valid()
  {
    t.phase.Regressed? || (t.phase == Deleted(false) && HasAlias(ns, t.event, t.index))
  }

  /** Some later step does: the delete is in the regression branch, or at a canonical numeric key
      of an untyped event whose number is still to be deleted. */
  predicate Exposed(ns: Numbers, t: Task)
    requires t.Valid()
  {
    t.phase.Regressed? || (!t.phase.alias && HasAlias(ns, t.event, t.index))
  }

  function PendingKey(ns: Numbers, t: Task): Key
    requires t.Valid()
  {
    DeletedKey(ns, t.event, t.index, !t.phase.Regressed?)
  }

  /** The first generation of an empty table is admitted: a safe number, and room for the key. */
  predicate Fits(ns: Numbers, t: Task, left: int)
    requires t.Valid()
  {
    var bytes := KeyMetadataBytes(Key(PendingKey(ns, t).text, false));
    && bytes <= CacheLedger.MAX_GENERATION_BYTES && bytes <= left
    && (t.event.generation.Some? ==> t.event.generation.value <= CacheLedger.MAX_SAFE_INTEGER)
  }

  // ---------- Runs ----------

  /** A delete that went on in a closed cache, past its last look at `closed`. */
  datatype Late = Late(id: nat, task: Task, left: int)

  /** `atClose`, `late` and `failed` are history: the deletes under way at the close, those of
      them that forgot another key after it, and those whose L1 rejected. */
  datatype Sys = Sys(local: Local, tasks: map<nat, Task>, atClose: map<nat, Task>, late: seq<Late>, failed: set<nat>) {
    predicate Valid() {
      && (forall id | id in tasks :: tasks[id].Valid())
      && (forall id | id in atClose :: atClose[id].Valid())
      && (forall d | d in late :: d.task.Valid())
    }
  }

  /** `Advance` stands for every other caller of `storeGeneration`: each asks `closed` in the same
      step. */
  datatype Step =
    | Receive(id: nat, event: Event, left: int)
    | Resume(id: nat, left: int)
    | Fail(id: nat)
    | Advance(text: seq<Unit>, generation: int, left: int)
    | Saturate
    | Close

  function With(s: Sys, id: nat, r: (Local, Option<Task>)): Sys {
    s.(local := r.0, tasks := if r.1.Some? then s.tasks[id := r.1.value] else s.tasks - {id})
  }

  function Logged(ns: Numbers, s: Sys, id: nat, left: int): Sys
    requires s.Valid() && id in s.tasks
  {
    if s.local.closed && Pending(ns, s.tasks[id]) then s.(late := s.late + [Late(id, s.tasks[id], left)]) else s
  }

  function Next(ns: Numbers, s: Sys, step: Step): (t: Sys)
    requires s.Valid()
    ensures t.Valid()
  {
    match step
    case Receive(id, event, left) =>
      if s.local.closed || id in s.tasks then s else With(s, id, Head(ns, s.local, event, 0, left))
    case Resume(id, left) =>
      if id !in s.tasks then s else With(Logged(ns, s, id, left), id, Continued(ns, s.local, s.tasks[id], left))
    case Fail(id) =>
      if id in s.tasks && !s.tasks[id].phase.Deleted?
      then s.(tasks := s.tasks - {id}, failed := s.failed + {id}) else s
    case Advance(text, generation, left) =>
      if s.local.closed then s
      else if CacheLedger.Storable(s.local.generations, text, generation, left)
      then s.(local := s.local.(generations := CacheLedger.Stored(s.local.generations, text, generation)))
      else s.(local := s.local.(saturated := true))
    case Saturate => s.(local := s.local.(saturated := true))
    case Close =>
      if s.local.closed then s
      else s.(local := s.local.(closed := true, generations := []), atClose := s.tasks, failed := {})
  }

  function Fresh(versioned: bool): Sys {
    Sys(Local(versioned, false, false, []), map[], map[], [], {})
  }

  // ---------- What a closed cache is left with ----------

  predicate NoneAdmitted(ns: Numbers, s: Sys)
    requires s.Valid()
  {
    forall d | d in s.late :: !Fits(ns, d.task, d.left)
  }

  predicate NoneExposed(ns: Numbers, s: Sys)
    requires s.Valid()
  {
    forall id | id in s.atClose :: !Exposed(ns, s.atClose[id])
  }

  ghost predicate LeftoverInv(ns: Numbers, s: Sys)
    requires s.Valid()
  {
    && (!s.local.closed ==> s.late == [] && s.atClose == map[])
    && (s.local.closed ==> (s.local.generations == [] <==> NoneAdmitted(ns, s)))
  }

  /** The task was at the same key, and exposed, when the cache closed. */
  predicate WasExposed(ns: Numbers, s: Sys, id: nat, t: Task)
    requires s.Valid()
  {
    && id in s.atClose && Exposed(ns, s.atClose[id])
    && s.atClose[id].event == t.event && s.atClose[id].index == t.index
  }

  predicate LateWereExposed(ns: Numbers, s: Sys)
    requires s.Valid()
  {
    forall d | d in s.late :: WasExposed(ns, s, d.id, d.task)
  }

  ghost predicate OriginInv(ns: Numbers, s: Sys)
    requires s.Valid()
  {
    && LateWereExposed(ns, s)
    && (s.local.closed ==> forall id | id in s.tasks && Exposed(ns, s.tasks[id]) :: WasExposed(ns, s, id, s.tasks[id]))
  }

  predicate WentOn(s: Sys, id: nat) {
    exists d | d in s.late :: d.id == id
  }

  /** Whoever was exposed at the close still is, went on, or failed. */
  ghost predicate FateInv(ns: Numbers, s: Sys)
    requires s.Valid()
  {
    s.local.closed ==> forall id | id in s.atClose && Exposed(ns, s.atClose[id]) ::
      (id in s.tasks && Exposed(ns, s.tasks[id])) || WentOn(s, id) || id in s.failed
  }

  lemma StoredIsThere(m: seq<CacheLedger.Item>, text: seq<Unit>, generation: nat)
    ensures CacheLedger.Stored(m, text, generation) != []
  {
  }

  /** In a closed cache a delete that goes on past its last look at `closed` stores its generation
      in an empty table exactly when it fits. */
  lemma LateStores(ns: Numbers, l: Local, t: Task, left: int)
    requires t.Valid() && l.closed
    ensures var l' := Continued(ns, l, t, left).0;
      && l'.closed && (l.generations != [] ==> l'.generations != [])
      && (l.generations == [] ==> (l'.generations != [] <==> Pending(ns, t) && Fits(ns, t, left)))
  {
    hide KeyMetadataBytes;
    if Pending(ns, t) {
      var text := PendingKey(ns, t).text;
      StoredIsThere(l.generations, text, Max(0, CacheLedger.AfterDelete(l.generations, text, t.event.generation)));
    }
  }

  lemma NextLeftover(ns: Numbers, s: Sys, step: Step)
    requires s.Valid() && LeftoverInv(ns, s)
    ensures LeftoverInv(ns, Next(ns, s, step))
  {
    if step.Resume? && step.id in s.tasks && s.local.closed {
      LateStores(ns, s.local, s.tasks[step.id], step.left);
      hide Continued, Fits;
      var t := Next(ns, s, step);
      if Pending(ns, s.tasks[step.id]) { assert t.late == s.late + [Late(step.id, s.tasks[step.id], step.left)]; }
    }
  }

  lemma NextOrigin(ns: Numbers, s: Sys, step: Step)
    requires s.Valid() && OriginInv(ns, s) && LeftoverInv(ns, s)
    ensures OriginInv(ns, Next(ns, s, step))
  {
    hide Fits, CacheLedger.Storable, CacheLedger.Stored;
  }

  lemma NextFate(ns: Numbers, s: Sys, step: Step)
    requires s.Valid() && FateInv(ns, s) && LeftoverInv(ns, s)
    ensures FateInv(ns, Next(ns, s, step))
  {
    hide Fits, CacheLedger.Storable, CacheLedger.Stored;
    var t := Next(ns, s, step);
    if s.local.closed {
      forall id | id in t.atClose && Exposed(ns, t.atClose[id])
        ensures (id in t.tasks && Exposed(ns, t.tasks[id])) || WentOn(t, id) || id in t.failed
      {
        if WentOn(s, id) {
          var d :| d in s.late && d.id == id;
          assert d in t.late;
        } else if step.Resume? && step.id == id && id in s.tasks && Pending(ns, s.tasks[id]) {
          assert Late(id, s.tasks[id], step.left) in t.late;
        }
      }
    }
  }

  function After(ns: Numbers, versioned: bool, run: seq<Step>): (s: Sys)
    ensures s.Valid()
  {
    if run == [] then Fresh(versioned) else Next(ns, After(ns, versioned, run[..|run| - 1]), run[|run| - 1])
  }

  lemma {:induction false} AfterKeeps(ns: Numbers, versioned: bool, run: seq<Step>)
    ensures var s := After(ns, versioned, run); LeftoverInv(ns, s) && OriginInv(ns, s) && FateInv(ns, s)
  {
    hide LeftoverInv, OriginInv, FateInv, Next;
    if run == [] {
      FreshKeeps(ns, versioned);
    } else {
      var before := run[..|run| - 1];
      AfterKeeps(ns, versioned, before);
      NextLeftover(ns, After(ns, versioned, before), run[|run| - 1]);
      NextOrigin(ns, After(ns, versioned, before), run[|run| - 1]);
      NextFate(ns, After(ns, versioned, before), run[|run| - 1]);
    }
  }

  lemma FreshKeeps(ns: Numbers, versioned: bool)
    ensures var s := Fresh(versioned); LeftoverInv(ns, s) && OriginInv(ns, s) && FateInv(ns, s)
  {
  }

  /** In every run a closed cache holds no generation exactly when no received delete that went on
      after the close, past its last look at `closed`, was admitted by the limits and the ledger;
      each of them was, at the close, in the regression branch or at a canonical numeric key of an
      untyped event. */
  lemma EmptyIff(ns: Numbers, versioned: bool, run: seq<Step>)
    requires After(ns, versioned, run).local.closed
    ensures var s := After(ns, versioned, run);
      && (s.local.generations == [] <==> NoneAdmitted(ns, s))
      && LateWereExposed(ns, s)
  {
    AfterKeeps(ns, versioned, run);
  }

  /** When all have settled, none having failed, and the limits and the ledger had room for each
      that went on: nothing is left exactly when nobody was exposed at the close. */
  lemma EmptyIffNoneExposed(ns: Numbers, versioned: bool, run: seq<Step>)
    requires var s := After(ns, versioned, run);
      && s.local.closed && s.tasks == map[] && s.failed == {}
      && forall d | d in s.late :: Fits(ns, d.task, d.left)
    ensures var s := After(ns, versioned, run);
      s.local.generations == [] <==> NoneExposed(ns, s)
  {
    AfterKeeps(ns, versioned, run);
    hide Fits, Exposed;
    var s := After(ns, versioned, run);
    if s.late != [] {
      assert s.late[0] in s.late && WasExposed(ns, s, s.late[0].id, s.late[0].task);
    }
  }

  /** Nobody exposed at the close, nothing stored after it, whatever follows. */
  lemma NothingExposedNothingLeft(ns: Numbers, versioned: bool, run: seq<Step>)
    requires var s := After(ns, versioned, run);
      s.local.closed && NoneExposed(ns, s)
    ensures After(ns, versioned, run).local.generations == []
  {
    AfterKeeps(ns, versioned, run);
    hide Fits, Exposed;
  }

  // ---------- Two runs that leave a generation ----------

  lemma AfterSnoc(ns: Numbers, versioned: bool, run: seq<Step>, step: Step)
    ensures After(ns, versioned, run + [step]) == Next(ns, After(ns, versioned, run), step)
  {
    assert (run + [step])[..|run|] == run;
  }

  function Leftover(text: seq<Unit>, generation: nat): seq<CacheLedger.Item> {
    [Item(Key(text, false), KeyMetadataBytes(Key(text, false)), generation)]
  }

  /** An untyped event with one canonical numeric key, and a close while L1 forgets the text. */
  function AliasRun(text: seq<Unit>, left: int): seq<Step> {
    [Receive(0, Event([text], None, None), 0)] + [Close] + [Resume(0, 0)] + [Resume(0, left)] + [Resume(0, 0)] + [Resume(0, 0)]
  }

  /** The delete of the text is under way. */
  lemma TextDeleted(ns: Numbers, versioned: bool, e: Event)
    requires |e.keys| == 1 && e.types == None && e.generation == None
    ensures Next(ns, Fresh(versioned), Receive(0, e, 0)) ==
      Fresh(versioned).(local := Local(versioned, false, true, []), tasks := map[0 := Task(e, 0, Deleting(false))])
  {
  }

  /** The cache closes, and L1 has forgotten the text. */
  lemma ClosedMeanwhile(ns: Numbers, s: Sys, e: Event)
    requires |e.keys| == 1 && !s.local.closed && s.tasks == map[0 := Task(e, 0, Deleting(false))] && s.Valid()
    ensures var t := Next(ns, Next(ns, s, Close), Resume(0, 0));
      t.local == s.local.(closed := true, generations := []) && t.tasks == map[0 := Task(e, 0, Deleted(false))] && t.late == s.late
  {
  }

  /** The number is deleted, and the loop ends. */
  lemma NumberDeleted(ns: Numbers, s: Sys, e: Event, left: int)
    requires |e.keys| == 1 && HasAlias(ns, e, 0) && e.generation == None && s.Valid()
    requires s.local.closed && s.local.generations == [] && s.tasks == map[0 := Task(e, 0, Deleted(false))]
    requires KeyMetadataBytes(Key(e.keys[0], false)) <= Min(left, CacheLedger.MAX_GENERATION_BYTES)
    ensures var t := Next(ns, Next(ns, Next(ns, s, Resume(0, left)), Resume(0, 0)), Resume(0, 0));
      t.local.closed && t.tasks == map[] && t.local.generations == Leftover(e.keys[0], 1)
  {
    hide KeyMetadataBytes;
    var t := Next(ns, s, Resume(0, left));
    assert t.local.closed && t.tasks == map[0 := Task(e, 0, Deleting(true))] && t.local.generations == Leftover(e.keys[0], 1);
    hide Leftover, CacheLedger.Storable, CacheLedger.Stored;
    assert Next(ns, t, Resume(0, 0)).tasks == map[0 := Task(e, 0, Deleted(true))];
  }

  lemma AliasOutlivesClose(ns: Numbers, versioned: bool, text: seq<Unit>, left: int)
    requires ns.spelling(text) == text && ns.finite(text)
    requires KeyMetadataBytes(Key(text, false)) <= Min(left, CacheLedger.MAX_GENERATION_BYTES)
    ensures var s := After(ns, versioned, AliasRun(text, left));
      s.local.closed && s.tasks == map[] && s.local.generations == Leftover(text, 1)
  {
    hide Next, KeyMetadataBytes, Leftover;
    var e := Event([text], None, None);
    var r1 := [Receive(0, e, 0)];
    assert [] + r1 == r1;
    AfterSnoc(ns, versioned, [], Receive(0, e, 0));
    TextDeleted(ns, versioned, e);
    AfterSnoc(ns, versioned, r1, Close);
    AfterSnoc(ns, versioned, r1 + [Close], Resume(0, 0));
    ClosedMeanwhile(ns, After(ns, versioned, r1), e);
    var r3 := r1 + [Close] + [Resume(0, 0)];
    AfterSnoc(ns, versioned, r3, Resume(0, left));
    AfterSnoc(ns, versioned, r3 + [Resume(0, left)], Resume(0, 0));
    AfterSnoc(ns, versioned, r3 + [Resume(0, left)] + [Resume(0, 0)], Resume(0, 0));
    NumberDeleted(ns, After(ns, versioned, r3), e, left);
  }

  /** A delete of a generation older than the one known, in a versioned cache that closes during
      the flush. */
  function RegressionRun(text: seq<Unit>, left: int): seq<Step> {
    [Advance(text, 1, left)] + [Receive(0, Event([text], Some([false]), Some(0)), 0)] + [Close] + [Resume(0, left)] + [Resume(0, 0)] + [Resume(0, 0)]
  }

  lemma Flushing(ns: Numbers, text: seq<Unit>, left: int)
    requires KeyMetadataBytes(Key(text, false)) <= Min(left, CacheLedger.MAX_GENERATION_BYTES)
    ensures var e := Event([text], Some([false]), Some(0));
      var t := Next(ns, Next(ns, Next(ns, Fresh(true), Advance(text, 1, left)), Receive(0, e, 0)), Close);
      t.local == Local(true, true, true, []) && t.tasks == map[0 := Task(e, 0, Regressed)] && t.late == []
  {
    hide KeyMetadataBytes;
    var s := Next(ns, Fresh(true), Advance(text, 1, left));
    assert s.local.generations == Leftover(text, 1);
    assert CacheLedger.Current(s.local.generations, text) == 1;
  }

  lemma FlushOver(ns: Numbers, s: Sys, e: Event, left: int)
    requires |e.keys| == 1 && e.types == Some([false]) && e.generation == Some(0) && s.Valid()
    requires s.local.closed && s.local.generations == [] && s.tasks == map[0 := Task(e, 0, Regressed)]
    requires KeyMetadataBytes(Key(e.keys[0], false)) <= Min(left, CacheLedger.MAX_GENERATION_BYTES)
    ensures var t := Next(ns, Next(ns, Next(ns, s, Resume(0, left)), Resume(0, 0)), Resume(0, 0));
      t.local.closed && t.tasks == map[] && t.local.generations == Leftover(e.keys[0], 0)
  {
    hide KeyMetadataBytes;
    var t := Next(ns, s, Resume(0, left));
    assert t.local.closed && t.tasks == map[0 := Task(e, 0, Deleting(false))] && t.local.generations == Leftover(e.keys[0], 0);
    hide Leftover, CacheLedger.Storable, CacheLedger.Stored;
    assert Next(ns, t, Resume(0, 0)).tasks == map[0 := Task(e, 0, Deleted(false))];
  }

  lemma RegressionOutlivesClose(ns: Numbers, text: seq<Unit>, left: int)
    requires KeyMetadataBytes(Key(text, false)) <= Min(left, CacheLedger.MAX_GENERATION_BYTES)
    ensures var s := After(ns, true, RegressionRun(text, left));
      s.local.closed && s.tasks == map[] && s.local.generations == Leftover(text, 0)
  {
    hide Next, KeyMetadataBytes, Leftover;
    var e := Event([text], Some([false]), Some(0));
    var r1 := [Advance(text, 1, left)];
    assert [] + r1 == r1;
    AfterSnoc(ns, true, [], Advance(text, 1, left));
    AfterSnoc(ns, true, r1, Receive(0, e, 0));
    AfterSnoc(ns, true, r1 + [Receive(0, e, 0)], Close);
    Flushing(ns, text, left);
    var r3 := r1 + [Receive(0, e, 0)] + [Close];
    AfterSnoc(ns, true, r3, Resume(0, left));
    AfterSnoc(ns, true, r3 + [Resume(0, left)], Resume(0, 0));
    AfterSnoc(ns, true, r3 + [Resume(0, left)] + [Resume(0, 0)], Resume(0, 0));
    FlushOver(ns, After(ns, true, r3), e, left);
  }

  // ---------- The loop on a cache ----------

  function View(cache: CacheLedger.HybridCache): Local
    reads cache
  {
    Local(cache.versioned, cache.closed, cache.generationTrackingSaturated, cache.generations)
  }

  /** The share of a closed cache whose tasks settled, after any run of the deletes it received. */
  lemma SettledShareIff(cache: CacheLedger.HybridCache, ns: Numbers, run: seq<Step>)
    requires cache.Ready() && cache.closed && cache.Settled() && View(cache) == After(ns, cache.versioned, run).local
    ensures var s := After(ns, cache.versioned, run);
      && (cache.Holdings() == ByteLedger.EMPTY <==> NoneAdmitted(ns, s))
      && LateWereExposed(ns, s)
  {
    cache.SettledShare();
    EmptyIff(ns, cache.versioned, run);
  }

  /** One call of `applyRemoteDelete`. */
  class RemoteDelete {
    const cache: CacheLedger.HybridCache
    const numbers: Numbers
    const event: Event
    /** Where the loop waits; nowhere before it begins and once it is over. */
    var task: Option<Task>
    var guard: CacheLedger.Guard

    ghost predicate Ready()
      reads this, cache, cache.memoryBudget, cache.originGate
    {
      && cache.Ready()
      && (task.Some? ==> task.value.Valid() && task.value.event == event)
      && (task.Some? && task.value.phase.Deleting? ==> cache.Holds(guard))
    }

    constructor (cache: CacheLedger.HybridCache, numbers: Numbers, event: Event)
      requires cache.Ready()
      ensures this.cache == cache && this.numbers == numbers && this.event == event && Ready() && task == None
    {
      this.cache, this.numbers, this.event := cache, numbers, event;
      task, guard := None, CacheLedger.Guard(Key([], false), 0);
    }

    method Forget(i: nat, alias: bool) returns (ghost left: int)
      requires cache.Ready() && i < |event.keys|
      modifies this, cache, cache.memoryBudget`used, cache.memoryBudget`categories
      ensures Ready() && (View(cache), task) == StartDelete(numbers, old(View(cache)), event, i, alias, left)
      ensures left == old(cache.LeftFor(DeletedKey(numbers, event, i, alias)))
      ensures ByteLedger.Moves(old(cache.memoryBudget.State()), old(cache.Holdings()), cache.memoryBudget.State(), cache.Holdings())
    {
      hide CacheLedger.Storable, CacheLedger.Stored, CacheLedger.AfterDelete, CacheLedger.HybridCache.Ready, CacheLedger.HybridCache.Holdings, EventKey;
      hide ByteLedger.Moves, CacheLedger.HybridCache.LeftFor;
      var key := DeletedKey(numbers, event, i, alias);
      left := cache.LeftFor(key);
      guard := cache.DeleteLocalOnly(key, event.generation);
      task := Some(Task(event, i, Deleting(alias)));
    }

    /** From the head of the loop to the next await. */
    method Loop(i: nat) returns (ghost left: int)
      requires cache.Ready() && i <= |event.keys|
      modifies this, cache, cache.memoryBudget`used, cache.memoryBudget`categories
      ensures Ready() && (View(cache), task) == Head(numbers, old(View(cache)), event, i, left)
      ensures i < |event.keys| ==> left == old(cache.LeftFor(EventKey(numbers, event, i)))
      ensures ByteLedger.Moves(old(cache.memoryBudget.State()), old(cache.Holdings()), cache.memoryBudget.State(), cache.Holdings())
    {
      CacheLedger.StandsStill(cache.memoryBudget.State(), cache.Holdings());
      hide CacheLedger.HybridCache.Ready, CacheLedger.HybridCache.Holdings, CacheLedger.HybridCache.LeftFor, CacheLedger.Current;
      hide ByteLedger.Moves, ByteLedger.Sound, ByteLedger.Covers, StartDelete, EventKey;
      left := if i < |event.keys| then cache.LeftFor(EventKey(numbers, event, i)) else 0;
      if i == |event.keys| || cache.closed { task := None; return; }
      if event.generation.Some? && event.generation.value < CacheLedger.Current(cache.generations, event.keys[i]) && cache.versioned {
        cache.SaturateGenerationTracking();
        task := Some(Task(event, i, Regressed));
        return;
      }
      left := Forget(i, false);
    }

    /** The step after the await it waits on. */
    method Continue() returns (ghost left: int)
      requires Ready() && task.Some?
      modifies this, cache, cache.memoryBudget`used, cache.memoryBudget`categories
      ensures Ready() && (View(cache), task) == Continued(numbers, old(View(cache)), old(task.value), left)
      ensures Pending(numbers, old(task.value)) ==> left == old(cache.LeftFor(PendingKey(numbers, task.value)))
      ensures ByteLedger.Moves(old(cache.memoryBudget.State()), old(cache.Holdings()), cache.memoryBudget.State(), cache.Holdings())
    {
      hide CacheLedger.HybridCache.Valid, CacheLedger.HybridCache.GateOk, CacheLedger.HybridCache.Holdings, CacheLedger.HybridCache.LeftFor;
      hide ByteLedger.Moves, ByteLedger.Sound, ByteLedger.Covers, StartDelete, Head, EventKey;
      left := 0;
      var i := task.value.index;
      match task.value.phase
      case Regressed => left := Forget(i, false);
      case Deleting(alias) =>
        cache.ReleaseKey(guard);
        task := Some(task.value.(phase := Deleted(alias)));
      case Deleted(alias) =>
        if !alias && event.types == None && numbers.spelling(event.keys[i]) == event.keys[i] && numbers.finite(event.keys[i]) {
          left := Forget(i, true);
        } else {
          left := Loop(i + 1);
        }
    }
  }
}
