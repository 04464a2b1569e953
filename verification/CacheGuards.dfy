/** Mutation guards and invalidation trust of `HybridCache` over a built-in `MemoryStore`
    L1, unversioned. Asynchronous code is a transition system: one step is the code
    between two awaits. Objects shared by reference (`KeyRevision`) live in an arena and
    are named by their position in it. */
module CacheGuards {
  import opened Common
  import Pattern

  type Key = seq<Unit>
  type TaskId = nat

  // ---------- State of one cache object ----------

  datatype Revision = Revision(key: Key, value: nat, references: nat, registered: bool)

  /** What `observeKey` returns, with the time of the observation. */
  datatype Guard = Guard(key: Key, record: nat, revision: nat, epoch: nat, observedAt: nat)

  /** A cached entry: its payload plays no part here, only who installed it. */
  datatype Entry = Entry(observedAt: nat)

  datatype Local = Local(
    records: seq<Revision>,
    keyRevisions: map<Key, nat>,
    epoch: nat,
    closed: bool,
    trusted: bool,
    busRevision: nat,
    busDown: bool,
    l1: map<Key, Entry>,
    stale: map<Key, Entry>,
    negative: map<Key, Entry>)

  /** The arena position and record `observeKey` uses: the registered one, or a new one. */
  function Observed(c: Local, key: Key): nat {
    if key in c.keyRevisions then c.keyRevisions[key] else |c.records|
  }

  predicate TableOk(c: Local) {
    forall k | k in c.keyRevisions :: c.keyRevisions[k] < |c.records|
  }

  function Observe(c: Local, key: Key, mutate: bool, room: bool): Local
    requires TableOk(c)
  {
    var i := Observed(c, key);
    var known := key in c.keyRevisions;
    var r := if known then c.records[i] else Revision(key, 0, 0, room);
    var r' := r.(references := r.references + 1, value := if mutate then r.value + 1 else r.value);
    c.(records := if known then c.records[i := r'] else c.records + [r'],
       keyRevisions := if known || !room then c.keyRevisions else c.keyRevisions[key := i])
  }

  function GuardOf(c: Local, key: Key, now: nat, i: nat): Guard
    requires i < |c.records|
  {
    Guard(key, i, c.records[i].value, c.epoch, now)
  }

  /** The last guard of a listed record takes it off the list. */
  predicate LastGuard(c: Local, g: Guard)
    requires g.record < |c.records|
  {
    c.records[g.record].references == 1 && g.key in c.keyRevisions && c.keyRevisions[g.key] == g.record
  }

  function Dropped(r: Revision, last: bool): Revision
    requires 0 < r.references
  {
    r.(references := r.references - 1, registered := r.registered && !last)
  }

  function Release(c: Local, g: Guard): Local
    requires g.record < |c.records| && 0 < c.records[g.record].references
  {
    var last := LastGuard(c, g);
    c.(records := c.records[g.record := Dropped(c.records[g.record], last)],
       keyRevisions := if last then c.keyRevisions - {g.key} else c.keyRevisions)
  }

  predicate IsCurrent(c: Local, g: Guard, aborted: bool)
    requires g.record < |c.records|
  {
    && !c.closed && c.records[g.record].registered && !aborted
    && g.epoch == c.epoch && g.revision == c.records[g.record].value
  }

  /** How an offered value fares. `MemoryStore` commits before it yields: the value is stored or the
      key is emptied; or the offer never reaches the map: a bypassed promotion, a disabled option,
      a write that throws. */
  datatype Fill = Left | Emptied | Filled

  function Offer(m: map<Key, Entry>, key: Key, e: Entry, fill: Fill): map<Key, Entry> {
    match fill
    case Left => m
    case Emptied => m - {key}
    case Filled => m[key := e]
  }

  /** `rememberStale` drops the old copy and keeps the new one when it fits, unless the fail-safe is
      off or the value cannot be encoded. */
  function Remember(c: Local, key: Key, e: Entry, fill: Fill): Local {
    if c.closed then c else c.(stale := Offer(c.stale, key, e, fill))
  }

  function ForgetKey(c: Local, key: Key): Local {
    c.(l1 := c.l1 - {key}, stale := c.stale - {key}, negative := c.negative - {key})
  }

  ghost function Unmatched(m: map<Key, Entry>, pattern: seq<Unit>): map<Key, Entry> {
    map k | k in m && !Pattern.Matches(k, pattern) :: m[k]
  }

  ghost function DeleteMatching(c: Local, pattern: seq<Unit>): Local {
    c.(epoch := c.epoch + 1,
       l1 := Unmatched(c.l1, pattern), stale := Unmatched(c.stale, pattern), negative := Unmatched(c.negative, pattern))
  }

  /** New epoch, everything local dropped: a gap, a restore or a saturated table. */
  function FlushAll(c: Local): Local {
    c.(epoch := c.epoch + 1, l1 := map[], stale := map[], negative := map[])
  }

  function Distrust(c: Local): Local {
    FlushAll(c).(busRevision := c.busRevision + 1, trusted := false)
  }

  function Shut(c: Local, ownsL1: bool): Local {
    c.(closed := true, epoch := c.epoch + 1, busRevision := c.busRevision + 1,
       records := UnregisterListed(c.records, c.keyRevisions), keyRevisions := map[],
       stale := map[], negative := map[], l1 := if ownsL1 then map[] else c.l1)
  }

  /** `closeResources` visits the registered states only. */
  function UnregisterListed(rs: seq<Revision>, listed: map<Key, nat>): (r: seq<Revision>)
    ensures |r| == |rs|
    ensures forall i | 0 <= i < |r| :: r[i] == rs[i].(registered := rs[i].registered && !(rs[i].key in listed && listed[rs[i].key] == i))
  {
    seq(|rs|, i requires 0 <= i < |rs| => rs[i].(registered := rs[i].registered && !(rs[i].key in listed && listed[rs[i].key] == i)))
  }

  // ---------- The whole system: tasks in flight and their history ----------

  /** Where an operation waits. `Done` still holds its guard. */
  datatype Phase =
    | SetL1 | SetL2
    | GetL1(hit: bool) | GetL2 | GetPromote
    | Loading | Publishing | LoadPromote
    | PeerRead | PeerForget | PeerPromote
    | Done

  datatype Task = Task(guard: Guard, mutates: bool, phase: Phase)

  datatype Restore = Restore(revision: nat, startedAt: nat)

  datatype Target = One(key: Key) | Matching(pattern: seq<Unit>)

  /** A delete, a pattern delete or an accepted set, with the time it takes effect. */
  datatype Mutation = Mutation(at: nat, target: Target, accepts: bool)

  /** `now` counts steps; `log`, `flushedAt`, `gapAt` and `restoredAt` are history. */
  datatype Sys = Sys(
    c: Local,
    tasks: map<TaskId, Task>,
    restores: map<TaskId, Restore>,
    now: nat,
    log: seq<Mutation>,
    flushedAt: nat,
    gapAt: nat,
    restoredAt: nat)

  /** A new cache. Without a bus it is trusted from its creation, which counts as its
      reconciliation; with a bus it starts untrusted and restores after subscribing. */
  function Fresh(subscribed: bool): Sys {
    Sys(Local([], map[], 0, false, !subscribed, 0, false, map[], map[], map[]), map[], map[], 1, [], 1, 0, 1)
  }

  datatype Step =
    | SetStart(id: TaskId, key: Key, room: bool, fill: Fill)
    | SetStored(id: TaskId, aborted: bool)
    | SetWritten(id: TaskId, aborted: bool, fill: Fill)
    | GetStart(id: TaskId, key: Key, room: bool)
    | GetLooked(id: TaskId, corrupt: bool, fill: Fill)
    | GetRead(id: TaskId, found: bool, fill: Fill)
    | GetPromoted(id: TaskId, fill: Fill)
    | LoadStart(id: TaskId, key: Key, room: bool)
    | LoadEmpty(id: TaskId, allowed: bool, aborted: bool, fill: Fill)
    | LoadValue(id: TaskId, allowed: bool, atomic: bool, aborted: bool, fill: Fill)
    | LoadPublished(id: TaskId, published: bool, aborted: bool, fill: Fill)
    | LoadPromoted(id: TaskId, aborted: bool, fill: Fill)
    | DeleteStart(id: TaskId, key: Key, room: bool)
    | PatternDelete(pattern: seq<Unit>)
    | PeerSetStart(id: TaskId, key: Key, room: bool)
    | PeerSetRead(id: TaskId, found: bool, fill: Fill)
    | PeerSetForgotten(id: TaskId)
    | PeerSetPromoted(id: TaskId, fill: Fill)
    | Throw(id: TaskId)
    | Settle(id: TaskId)
    | BusDown
    | BusReady
    | BusGap
    | RestoreStart(id: TaskId, statusChange: bool)
    | RestoreEnd(id: TaskId)
    | Saturate
    | Close(ownsL1: bool)
    | Evict(key: Key, fromL1: bool, fromStale: bool, fromNegative: bool)

  // ---------- Building blocks of steps ----------

  function Tick(s: Sys): Sys {
    s.(now := s.now + 1)
  }

  function Begin(s: Sys, id: TaskId, key: Key, mutate: bool, room: bool, phase: Phase): Sys
    requires TableOk(s.c)
  {
    var c := Observe(s.c, key, mutate, room);
    s.(c := c, tasks := s.tasks[id := Task(GuardOf(c, key, s.now, Observed(s.c, key)), mutate, phase)])
  }

  function Goto(s: Sys, id: TaskId, phase: Phase): Sys
    requires id in s.tasks
  {
    s.(tasks := s.tasks[id := s.tasks[id].(phase := phase)])
  }

  predicate Live(s: Sys, id: TaskId, aborted: bool) {
    && id in s.tasks && s.tasks[id].guard.record < |s.c.records|
    && IsCurrent(s.c, s.tasks[id].guard, aborted)
  }

  predicate At(s: Sys, id: TaskId, phase: Phase) {
    id in s.tasks && s.tasks[id].phase == phase
  }

  function OwnEntry(s: Sys, id: TaskId): Entry
    requires id in s.tasks
  {
    Entry(s.tasks[id].guard.observedAt)
  }

  function InstallL1(s: Sys, id: TaskId, fill: Fill): Sys
    requires id in s.tasks
  {
    s.(c := s.c.(l1 := Offer(s.c.l1, s.tasks[id].guard.key, OwnEntry(s, id), fill)))
  }

  function InstallStale(s: Sys, id: TaskId, fill: Fill): Sys
    requires id in s.tasks
  {
    s.(c := Remember(s.c, s.tasks[id].guard.key, OwnEntry(s, id), fill))
  }

  function InstallNegative(s: Sys, id: TaskId, fill: Fill): Sys
    requires id in s.tasks
  {
    if s.c.closed || !s.c.trusted then s
    else s.(c := s.c.(negative := Offer(s.c.negative, s.tasks[id].guard.key, OwnEntry(s, id), fill)))
  }

  function DropNegative(s: Sys, id: TaskId): Sys
    requires id in s.tasks
  {
    s.(c := s.c.(negative := s.c.negative - {s.tasks[id].guard.key}))
  }

  function Record(s: Sys, at: nat, target: Target, accepts: bool): Sys {
    s.(log := s.log + [Mutation(at, target, accepts)])
  }

  function Flush(s: Sys): Sys {
    s.(c := FlushAll(s.c), flushedAt := s.now)
  }

  function Gap(s: Sys): Sys {
    s.(c := Distrust(s.c), flushedAt := s.now, gapAt := s.now)
  }

  // ---------- The steps, in the order of the source ----------

  /** `set` up to its first await: a registered set replaces the L1 entry at once, a set
      whose revision could not be registered is refused, and one that throws leaves L1 alone. */
  function DoSetStart(s: Sys, id: TaskId, key: Key, room: bool, fill: Fill): Sys
    requires TableOk(s.c)
  {
    if s.c.closed || id in s.tasks then s else
    var b := Begin(s, id, key, true, room, SetL1);
    if Live(b, id, false) && !fill.Left? then InstallL1(Record(b, s.now, One(key), true), id, fill) else Goto(b, id, Done)
  }

  function DoSetStored(s: Sys, id: TaskId, aborted: bool): Sys {
    if !At(s, id, SetL1) then s
    else if Live(s, id, aborted) then Goto(s, id, SetL2) else Goto(s, id, Done)
  }

  function DoSetWritten(s: Sys, id: TaskId, aborted: bool, fill: Fill): Sys {
    if !At(s, id, SetL2) then s
    else if Live(s, id, aborted) then Goto(DropNegative(InstallStale(s, id, fill), id), id, Done)
    else Goto(s, id, Done)
  }

  function DoGetStart(s: Sys, id: TaskId, key: Key, room: bool): Sys
    requires TableOk(s.c)
  {
    if s.c.closed || id in s.tasks then s
    else if s.c.trusted && key in s.c.negative then Begin(s, id, key, false, room, Done)
    else if s.c.trusted then Begin(s, id, key, false, room, GetL1(key in s.c.l1))
    else Begin(s, id, key, false, room, GetL2)
  }

  function DoGetLooked(s: Sys, id: TaskId, corrupt: bool, fill: Fill): Sys {
    if At(s, id, GetL1(true)) && !corrupt then
      if Live(s, id, false) && s.c.trusted then Goto(InstallStale(s, id, fill), id, Done) else Goto(s, id, Done)
    else if At(s, id, GetL1(true)) then
      if Live(s, id, false) && s.c.trusted then Goto(InstallL1(s, id, Emptied), id, GetL2) else Goto(s, id, GetL2)
    else if At(s, id, GetL1(false)) then Goto(s, id, GetL2)
    else s
  }

  function DoGetRead(s: Sys, id: TaskId, found: bool, fill: Fill): Sys {
    if !At(s, id, GetL2) then s
    else if found && s.c.trusted && Live(s, id, false) then Goto(InstallL1(s, id, fill), id, GetPromote)
    else Goto(s, id, Done)
  }

  function DoGetPromoted(s: Sys, id: TaskId, fill: Fill): Sys {
    if !At(s, id, GetPromote) then s
    else if s.c.trusted && Live(s, id, false) then Goto(InstallStale(s, id, fill), id, Done)
    else Goto(s, id, Done)
  }

  function DoLoadStart(s: Sys, id: TaskId, key: Key, room: bool): Sys
    requires TableOk(s.c)
  {
    if s.c.closed || id in s.tasks then s else Begin(s, id, key, false, room, Loading)
  }

  function DoLoadEmpty(s: Sys, id: TaskId, allowed: bool, aborted: bool, fill: Fill): Sys {
    if !At(s, id, Loading) then s
    else if allowed && Live(s, id, aborted) then Goto(InstallNegative(s, id, fill), id, Done)
    else Goto(s, id, Done)
  }

  /** Without an atomic publisher the load continues as `writeValue`. */
  function DoLoadValue(s: Sys, id: TaskId, allowed: bool, atomic: bool, aborted: bool, fill: Fill): Sys {
    if !At(s, id, Loading) then s
    else if !allowed || !Live(s, id, aborted) then Goto(s, id, Done)
    else if atomic then Goto(s, id, Publishing)
    else Goto(InstallL1(s, id, fill), id, SetL1)
  }

  function DoLoadPublished(s: Sys, id: TaskId, published: bool, aborted: bool, fill: Fill): Sys {
    if !At(s, id, Publishing) then s
    else if published && s.c.trusted && Live(s, id, aborted) then Goto(InstallL1(s, id, fill), id, LoadPromote)
    else Goto(s, id, Done)
  }

  function DoLoadPromoted(s: Sys, id: TaskId, aborted: bool, fill: Fill): Sys {
    if !At(s, id, LoadPromote) then s
    else if s.c.trusted && Live(s, id, aborted) then Goto(DropNegative(InstallStale(s, id, fill), id), id, Done)
    else Goto(s, id, Done)
  }

  /** `deleteLocal` and `deleteLocalOnly` up to their first await. */
  function DoDeleteStart(s: Sys, id: TaskId, key: Key, room: bool): Sys
    requires TableOk(s.c)
  {
    if id in s.tasks then s
    else Begin(Record(s.(c := ForgetKey(s.c, key)), s.now, One(key), false), id, key, true, room, Done)
  }

  ghost function DoPatternDelete(s: Sys, pattern: seq<Unit>): Sys {
    Record(s.(c := DeleteMatching(s.c, pattern)), s.now, Matching(pattern), false)
  }

  /** Trust was asked for once, when the event arrived; each key asks only whether the cache is
      closed. */
  function DoPeerSetStart(s: Sys, id: TaskId, key: Key, room: bool): Sys
    requires TableOk(s.c)
  {
    if s.c.closed || id in s.tasks then s else Begin(s, id, key, true, room, PeerRead)
  }

  /** The authoritative tier answered. Only now does a peer set replace the L1 entry, so
      only now is it accepted, as of its observation; a promotion that leaves L1 alone accepts
      nothing, and its stale copy is remembered all the same. */
  function DoPeerSetRead(s: Sys, id: TaskId, found: bool, fill: Fill): Sys {
    if !At(s, id, PeerRead) then s
    else if !Live(s, id, false) || !s.c.trusted then Goto(s, id, Done)
    else if !found then Goto(InstallL1(s, id, Emptied), id, PeerForget)
    else if fill.Left? then Goto(s, id, PeerPromote)
    else
      var g := s.tasks[id].guard;
      Goto(InstallL1(Record(s, g.observedAt, One(g.key), true), id, fill), id, PeerPromote)
  }

  function DoPeerSetForgotten(s: Sys, id: TaskId): Sys {
    if !At(s, id, PeerForget) then s
    else Goto(DropNegative(s.(c := s.c.(stale := s.c.stale - {s.tasks[id].guard.key})), id), id, Done)
  }

  function DoPeerSetPromoted(s: Sys, id: TaskId, fill: Fill): Sys {
    if !At(s, id, PeerPromote) then s
    else if Live(s, id, false) && s.c.trusted then Goto(DropNegative(InstallStale(s, id, fill), id), id, Done)
    else Goto(s, id, Done)
  }

  /** Anything an operation awaits may reject, or be cut short. */
  function DoThrow(s: Sys, id: TaskId): Sys {
    if id in s.tasks then Goto(s, id, Done) else s
  }

  /** `releaseKey`, in the `finally` of every operation. */
  function DoSettle(s: Sys, id: TaskId): Sys {
    if !At(s, id, Done) then s else
    var g := s.tasks[id].guard;
    if g.record < |s.c.records| && 0 < s.c.records[g.record].references
    then s.(c := Release(s.c, g), tasks := s.tasks - {id}) else s
  }

  function DoRestoreStart(s: Sys, id: TaskId, statusChange: bool): Sys {
    if s.c.closed || id in s.restores then s else
    var f := Flush(s);
    f.(c := f.c.(busDown := if statusChange then false else s.c.busDown),
       restores := f.restores[id := Restore(s.c.busRevision, s.now)])
  }

  function DoRestoreEnd(s: Sys, id: TaskId): Sys {
    if id !in s.restores then s else
    var r := s.restores[id];
    var t := s.(restores := s.restores - {id});
    if r.revision == s.c.busRevision && !s.c.closed && !s.c.busDown
    then t.(c := s.c.(trusted := true), restoredAt := r.startedAt) else t
  }

  function DoEvict(s: Sys, key: Key, fromL1: bool, fromStale: bool, fromNegative: bool): Sys {
    s.(c := s.c.(
      l1 := if fromL1 then s.c.l1 - {key} else s.c.l1,
      stale := if fromStale then s.c.stale - {key} else s.c.stale,
      negative := if fromNegative then s.c.negative - {key} else s.c.negative))
  }

  /** One atomic step; a step that is not enabled changes nothing but the time. */
  ghost function Next(before: Sys, step: Step): Sys
    requires TableOk(before.c)
  {
    var s := Tick(before);
    match step
    case SetStart(id, key, room, fill) => DoSetStart(s, id, key, room, fill)
    case SetStored(id, aborted) => DoSetStored(s, id, aborted)
    case SetWritten(id, aborted, fill) => DoSetWritten(s, id, aborted, fill)
    case GetStart(id, key, room) => DoGetStart(s, id, key, room)
    case GetLooked(id, corrupt, fill) => DoGetLooked(s, id, corrupt, fill)
    case GetRead(id, found, fill) => DoGetRead(s, id, found, fill)
    case GetPromoted(id, fill) => DoGetPromoted(s, id, fill)
    case LoadStart(id, key, room) => DoLoadStart(s, id, key, room)
    case LoadEmpty(id, allowed, aborted, fill) => DoLoadEmpty(s, id, allowed, aborted, fill)
    case LoadValue(id, allowed, atomic, aborted, fill) => DoLoadValue(s, id, allowed, atomic, aborted, fill)
    case LoadPublished(id, published, aborted, fill) => DoLoadPublished(s, id, published, aborted, fill)
    case LoadPromoted(id, aborted, fill) => DoLoadPromoted(s, id, aborted, fill)
    case DeleteStart(id, key, room) => DoDeleteStart(s, id, key, room)
    case PatternDelete(pattern) => DoPatternDelete(s, pattern)
    case PeerSetStart(id, key, room) => DoPeerSetStart(s, id, key, room)
    case PeerSetRead(id, found, fill) => DoPeerSetRead(s, id, found, fill)
    case PeerSetForgotten(id) => DoPeerSetForgotten(s, id)
    case PeerSetPromoted(id, fill) => DoPeerSetPromoted(s, id, fill)
    case Throw(id) => DoThrow(s, id)
    case Settle(id) => DoSettle(s, id)
    case BusDown => if s.c.closed then s else Gap(s.(c := s.c.(busDown := true)))
    case BusReady => if s.c.closed then s else s.(c := s.c.(busDown := false))
    case BusGap => Gap(s)
    case RestoreStart(id, statusChange) => DoRestoreStart(s, id, statusChange)
    case RestoreEnd(id) => DoRestoreEnd(s, id)
    case Saturate => Flush(s)
    case Close(ownsL1) => s.(c := Shut(s.c, ownsL1))
    case Evict(key, fromL1, fromStale, fromNegative) => DoEvict(s, key, fromL1, fromStale, fromNegative)
  }

  // ---------- The invariant ----------

  ghost predicate Hits(t: Target, key: Key) {
    match t
    case One(k) => k == key
    case Matching(pattern) => Pattern.Matches(key, pattern)
  }

  /** Observing `key` at `time` is not older than its latest mutation, nor than the last flush. */
  ghost predicate UpToDate(s: Sys, key: Key, time: nat, sets: bool) {
    && s.flushedAt <= time
    && forall m | m in s.log && Hits(m.target, key) && (sets || !m.accepts) :: m.at <= time
  }

  function Holders(tasks: map<TaskId, Task>, i: nat): set<TaskId> {
    set id | id in tasks && tasks[id].guard.record == i
  }

  /** One registered record per listed key. */
  ghost predicate ListInv(c: Local) {
    && TableOk(c)
    && (forall k | k in c.keyRevisions :: c.records[c.keyRevisions[k]].registered && c.records[c.keyRevisions[k]].key == k)
    && (forall i | 0 <= i < |c.records| && c.records[i].registered ::
          c.records[i].key in c.keyRevisions && c.keyRevisions[c.records[i].key] == i)
  }

  /** Exact reference counts. */
  ghost predicate CountInv(s: Sys) {
    forall i | 0 <= i < |s.c.records| :: s.c.records[i].references == |Holders(s.tasks, i)|
  }

  ghost predicate TableInv(s: Sys) {
    ListInv(s.c) && CountInv(s)
  }

  ghost predicate GuardInv(s: Sys, g: Guard) {
    && g.record < |s.c.records|
    && s.c.records[g.record].key == g.key
    && g.revision <= s.c.records[g.record].value
    && g.epoch <= s.c.epoch
    && g.observedAt <= s.now
    && (IsCurrent(s.c, g, false) ==> UpToDate(s, g.key, g.observedAt, true))
  }

  /** Whoever carries a revision at least as new as a mutator's observed no earlier. */
  ghost predicate OrderInv(a: Task, b: Task) {
    (a.mutates && a.guard.record == b.guard.record && a.guard.revision <= b.guard.revision) ==>
      a.guard.observedAt <= b.guard.observedAt
  }

  ghost predicate TasksInv(s: Sys) {
    && (forall id | id in s.tasks :: GuardInv(s, s.tasks[id].guard))
    && (forall id | id in s.tasks && s.tasks[id].phase == PeerRead :: s.tasks[id].mutates)
    && (forall a, b | a in s.tasks && b in s.tasks :: OrderInv(s.tasks[a], s.tasks[b]))
  }

  ghost predicate EntriesInv(s: Sys) {
    && (forall k | k in s.c.l1 :: UpToDate(s, k, s.c.l1[k].observedAt, true))
    && (forall k | k in s.c.stale :: UpToDate(s, k, s.c.stale[k].observedAt, false))
    && (forall k | k in s.c.negative :: UpToDate(s, k, s.c.negative[k].observedAt, false))
  }

  ghost predicate TimeInv(s: Sys) {
    && s.flushedAt <= s.now && s.gapAt <= s.now
    && (forall m | m in s.log :: m.at <= s.now)
  }

  /** Trust is only held on behalf of a restore no gap has followed. */
  ghost predicate TrustInv(s: Sys) {
    && (s.c.trusted ==> s.gapAt < s.restoredAt <= s.flushedAt)
    && (forall id | id in s.restores ::
          var r := s.restores[id];
          && r.revision <= s.c.busRevision && r.startedAt <= s.flushedAt
          && (r.revision == s.c.busRevision ==> s.gapAt < r.startedAt))
  }

  ghost predicate Inv(s: Sys) {
    TableInv(s) && TasksInv(s) && EntriesInv(s) && TimeInv(s) && TrustInv(s)
  }

  // ---------- Building blocks keep the invariant ----------

  lemma TickKeeps(s: Sys)
    requires Inv(s)
    ensures Inv(Tick(s)) && TableOk(Tick(s).c) && 0 < Tick(s).now && s.gapAt < Tick(s).now
  {
    var t := Tick(s);
    forall id | id in t.tasks ensures GuardInv(t, t.tasks[id].guard) { assert GuardInv(s, s.tasks[id].guard); }
    forall a, b | a in t.tasks && b in t.tasks ensures OrderInv(t.tasks[a], t.tasks[b]) { assert OrderInv(s.tasks[a], s.tasks[b]); }
  }

  lemma GotoKeeps(s: Sys, id: TaskId, phase: Phase)
    requires Inv(s) && id in s.tasks && phase != PeerRead
    ensures Inv(Goto(s, id, phase))
  {
    var t := Goto(s, id, phase);
    forall i ensures Holders(t.tasks, i) == Holders(s.tasks, i) {}
    forall j | j in t.tasks ensures GuardInv(t, t.tasks[j].guard) { assert GuardInv(s, s.tasks[j].guard); }
    forall a, b | a in t.tasks && b in t.tasks ensures OrderInv(t.tasks[a], t.tasks[b]) { assert OrderInv(s.tasks[a], s.tasks[b]); }
  }

  /** Every record a guard of `key` may be current through is the listed one. */
  lemma CurrentIsListed(s: Sys, id: TaskId)
    requires Inv(s) && id in s.tasks && IsCurrent(s.c, s.tasks[id].guard, false)
    ensures s.tasks[id].guard.key in s.c.keyRevisions
    ensures s.c.keyRevisions[s.tasks[id].guard.key] == s.tasks[id].guard.record
  {
    assert GuardInv(s, s.tasks[id].guard);
  }

  /** `observeKey` keeps the invariant; a mutating one leaves no other guard of the key current. */
  lemma BeginKeeps(s: Sys, id: TaskId, key: Key, mutate: bool, room: bool, phase: Phase)
    requires Inv(s) && id !in s.tasks && (phase == PeerRead ==> mutate)
    ensures var b := Begin(s, id, key, mutate, room, phase);
      && Inv(b) && b.tasks[id].guard.observedAt == s.now && b.tasks[id].guard.key == key
      && (mutate ==> forall j | j in b.tasks && j != id && b.tasks[j].guard.key == key ::
            !IsCurrent(b.c, b.tasks[j].guard, false))
  {
    var b := Begin(s, id, key, mutate, room, phase);
    var i := Observed(s.c, key);
    BeginTable(s, id, key, mutate, room, phase);
    BeginOrder(s, id, key, mutate, room, phase);
    forall j | j in b.tasks
      ensures GuardInv(b, b.tasks[j].guard)
      ensures mutate && j != id && b.tasks[j].guard.key == key ==> !IsCurrent(b.c, b.tasks[j].guard, false)
    {
      if j != id {
        assert GuardInv(s, s.tasks[j].guard);
        if IsCurrent(b.c, b.tasks[j].guard, false) {
          assert s.tasks[j].guard.record < |s.c.records|;
          assert IsCurrent(s.c, s.tasks[j].guard, false);
          CurrentIsListed(s, j);
        }
      }
    }
  }

  /** A new mutator carries the newest revision of its record. */
  lemma BeginOrder(s: Sys, id: TaskId, key: Key, mutate: bool, room: bool, phase: Phase)
    requires Inv(s) && id !in s.tasks
    ensures var b := Begin(s, id, key, mutate, room, phase);
      forall x, y | x in b.tasks && y in b.tasks :: OrderInv(b.tasks[x], b.tasks[y])
  {
    hide EntriesInv, TimeInv, TrustInv, CountInv, IsCurrent;
    var b := Begin(s, id, key, mutate, room, phase);
    forall x, y | x in b.tasks && y in b.tasks ensures OrderInv(b.tasks[x], b.tasks[y]) {
      if x in s.tasks { assert GuardInv(s, s.tasks[x].guard); }
      if y in s.tasks { assert GuardInv(s, s.tasks[y].guard); }
      if x != id && y != id { assert OrderInv(s.tasks[x], s.tasks[y]); }
    }
  }

  lemma BeginTable(s: Sys, id: TaskId, key: Key, mutate: bool, room: bool, phase: Phase)
    requires Inv(s) && id !in s.tasks
    ensures TableInv(Begin(s, id, key, mutate, room, phase))
  {
    forall j | j in s.tasks ensures s.tasks[j].guard.record < |s.c.records| { assert GuardInv(s, s.tasks[j].guard); }
    ObserveLists(s.c, key, mutate, room);
    BeginCounts(s, id, key, mutate, room, phase);
  }

  lemma ObserveLists(c: Local, key: Key, mutate: bool, room: bool)
    requires ListInv(c)
    ensures ListInv(Observe(c, key, mutate, room))
  {
    var d := Observe(c, key, mutate, room);
    forall k | k in d.keyRevisions
      ensures d.keyRevisions[k] < |d.records|
      ensures d.records[d.keyRevisions[k]].registered && d.records[d.keyRevisions[k]].key == k
    {
      if k in c.keyRevisions { assert c.records[c.keyRevisions[k]].key == k; }
    }
  }

  lemma BeginCounts(s: Sys, id: TaskId, key: Key, mutate: bool, room: bool, phase: Phase)
    requires TableOk(s.c) && CountInv(s) && id !in s.tasks
    requires forall j | j in s.tasks :: s.tasks[j].guard.record < |s.c.records|
    ensures CountInv(Begin(s, id, key, mutate, room, phase))
  {
    var b := Begin(s, id, key, mutate, room, phase);
    var i := Observed(s.c, key);
    if key !in s.c.keyRevisions { NoHolders(s, i); }
    forall j | 0 <= j < |b.c.records| ensures b.c.records[j].references == |Holders(b.tasks, j)| {
      HolderJoins(s.tasks, id, b.tasks[id], j);
    }
  }

  lemma NoHolders(s: Sys, i: nat)
    requires forall j | j in s.tasks :: s.tasks[j].guard.record < |s.c.records|
    requires |s.c.records| <= i
    ensures Holders(s.tasks, i) == {}
  {
  }

  /** Logging a mutation is sound once nothing current or stored is older than it. */
  lemma RecordKeeps(s: Sys, at: nat, target: Target, accepts: bool)
    requires Inv(s) && at <= s.now
    requires forall id | id in s.tasks && Hits(target, s.tasks[id].guard.key) && Live(s, id, false) :: at <= s.tasks[id].guard.observedAt
    requires forall k | k in s.c.l1 && Hits(target, k) :: at <= s.c.l1[k].observedAt
    requires !accepts ==> forall k | Hits(target, k) :: k !in s.c.stale && k !in s.c.negative
    ensures Inv(Record(s, at, target, accepts))
  {
    var t := Record(s, at, target, accepts);
    forall id | id in t.tasks ensures GuardInv(t, t.tasks[id].guard) { assert GuardInv(s, s.tasks[id].guard); }
    forall a, b | a in t.tasks && b in t.tasks ensures OrderInv(t.tasks[a], t.tasks[b]) { assert OrderInv(s.tasks[a], s.tasks[b]); }
  }

  /** Changing only the stored entries and flags keeps the table and the tasks. */
  lemma EntriesOnly(s: Sys, c: Local)
    requires Inv(s)
    requires c.records == s.c.records && c.keyRevisions == s.c.keyRevisions
    requires c.epoch == s.c.epoch && c.closed == s.c.closed && c.trusted == s.c.trusted && c.busRevision == s.c.busRevision
    requires EntriesInv(s.(c := c))
    ensures Inv(s.(c := c))
  {
    var t := s.(c := c);
    forall id | id in t.tasks ensures GuardInv(t, t.tasks[id].guard) { assert GuardInv(s, s.tasks[id].guard); }
    forall a, b | a in t.tasks && b in t.tasks ensures OrderInv(t.tasks[a], t.tasks[b]) { assert OrderInv(s.tasks[a], s.tasks[b]); }
  }

  lemma InstallL1Keeps(s: Sys, id: TaskId, fill: Fill)
    requires Inv(s) && id in s.tasks && (fill.Filled? ==> Live(s, id, false))
    ensures Inv(InstallL1(s, id, fill))
  {
    assert GuardInv(s, s.tasks[id].guard);
    EntriesOnly(s, InstallL1(s, id, fill).c);
  }

  lemma InstallStaleKeeps(s: Sys, id: TaskId, fill: Fill)
    requires Inv(s) && id in s.tasks && Live(s, id, false)
    ensures Inv(InstallStale(s, id, fill))
  {
    assert GuardInv(s, s.tasks[id].guard);
    EntriesOnly(s, InstallStale(s, id, fill).c);
  }

  lemma InstallNegativeKeeps(s: Sys, id: TaskId, fill: Fill)
    requires Inv(s) && id in s.tasks && Live(s, id, false)
    ensures Inv(InstallNegative(s, id, fill))
  {
    assert GuardInv(s, s.tasks[id].guard);
    EntriesOnly(s, InstallNegative(s, id, fill).c);
  }

  /** A new epoch makes every outstanding guard obsolete. */
  lemma NewEpochKeeps(s: Sys, c: Local, flushedAt: nat, gapAt: nat)
    requires Inv(s) && flushedAt <= s.now && gapAt <= s.now && s.flushedAt <= flushedAt
    requires c.records == s.c.records && c.keyRevisions == s.c.keyRevisions && s.c.epoch < c.epoch
    requires EntriesInv(s.(c := c, flushedAt := flushedAt, gapAt := gapAt))
    requires TrustInv(s.(c := c, flushedAt := flushedAt, gapAt := gapAt))
    ensures Inv(s.(c := c, flushedAt := flushedAt, gapAt := gapAt))
    ensures forall id | id in s.tasks :: s.tasks[id].guard.record < |c.records| && !IsCurrent(c, s.tasks[id].guard, false)
  {
    var t := s.(c := c, flushedAt := flushedAt, gapAt := gapAt);
    forall id | id in t.tasks ensures GuardInv(t, t.tasks[id].guard) { assert GuardInv(s, s.tasks[id].guard); }
    forall a, b | a in t.tasks && b in t.tasks ensures OrderInv(t.tasks[a], t.tasks[b]) { assert OrderInv(s.tasks[a], s.tasks[b]); }
  }

  lemma FlushKeeps(s: Sys)
    requires Inv(s) && 0 < s.now
    ensures Inv(Flush(s))
  {
    NewEpochKeeps(s, FlushAll(s.c), s.now, s.gapAt);
  }

  lemma GapKeeps(s: Sys)
    requires Inv(s) && 0 < s.now
    ensures Inv(Gap(s))
  {
    NewEpochKeeps(s, Distrust(s.c), s.now, s.now);
  }

  lemma PatternDeleteKeeps(s: Sys, pattern: seq<Unit>)
    requires Inv(s)
    ensures Inv(DoPatternDelete(s, pattern))
  {
    var c := DeleteMatching(s.c, pattern);
    NewEpochKeeps(s, c, s.flushedAt, s.gapAt);
    RecordKeeps(s.(c := c, flushedAt := s.flushedAt, gapAt := s.gapAt), s.now, Matching(pattern), false);
  }

  lemma DeleteKeeps(s: Sys, id: TaskId, key: Key, room: bool)
    requires Inv(s)
    ensures Inv(DoDeleteStart(s, id, key, room))
  {
    if id in s.tasks { return; }
    var f := s.(c := ForgetKey(s.c, key));
    EntriesOnly(s, ForgetKey(s.c, key));
    BeginKeeps(f, id, key, true, room, Done);
    var b := Begin(f, id, key, true, room, Done);
    RecordKeeps(b, s.now, One(key), false);
    assert DoDeleteStart(s, id, key, room) == Record(b, s.now, One(key), false);
  }

  /** A mutation observed by `id` replaces the entry of its key. */
  lemma AcceptKeeps(s: Sys, id: TaskId, fill: Fill)
    requires Inv(s) && id in s.tasks && Live(s, id, false) && !fill.Left?
    requires var g := s.tasks[id].guard;
      forall j | j in s.tasks && s.tasks[j].guard.key == g.key && Live(s, j, false) :: g.observedAt <= s.tasks[j].guard.observedAt
    ensures Inv(InstallL1(Record(s, s.tasks[id].guard.observedAt, One(s.tasks[id].guard.key), true), id, fill))
  {
    hide EntriesInv, TableInv, TimeInv, TrustInv;
    var g := s.tasks[id].guard;
    assert GuardInv(s, g);
    hide TasksInv;
    var emptied := InstallL1(s, id, Emptied);
    InstallL1Keeps(s, id, Emptied);
    RecordKeeps(emptied, g.observedAt, One(g.key), true);
    var logged := Record(emptied, g.observedAt, One(g.key), true);
    InstallL1Keeps(logged, id, fill);
    var direct := InstallL1(Record(s, g.observedAt, One(g.key), true), id, fill);
    assert direct.c.l1 == InstallL1(logged, id, fill).c.l1;
    assert direct == InstallL1(logged, id, fill);
  }

  lemma SetStartKeeps(s: Sys, id: TaskId, key: Key, room: bool, fill: Fill)
    requires Inv(s)
    ensures Inv(DoSetStart(s, id, key, room, fill))
  {
    if !s.c.closed && id !in s.tasks {
      BeginKeeps(s, id, key, true, room, SetL1);
      var b := Begin(s, id, key, true, room, SetL1);
      if Live(b, id, false) && !fill.Left? { AcceptKeeps(b, id, fill); } else { GotoKeeps(b, id, Done); }
    }
  }

  lemma PeerSetReadKeeps(s: Sys, id: TaskId, found: bool, fill: Fill)
    requires Inv(s)
    ensures Inv(DoPeerSetRead(s, id, found, fill))
  {
    if At(s, id, PeerRead) {
      var g := s.tasks[id].guard;
      if !Live(s, id, false) || !s.c.trusted {
        GotoKeeps(s, id, Done);
      } else if !found {
        InstallL1Keeps(s, id, Emptied);
        GotoKeeps(InstallL1(s, id, Emptied), id, PeerForget);
      } else if fill.Left? {
        GotoKeeps(s, id, PeerPromote);
      } else {
        CurrentIsListed(s, id);
        forall j | j in s.tasks && s.tasks[j].guard.key == g.key && Live(s, j, false)
          ensures g.observedAt <= s.tasks[j].guard.observedAt
        {
          CurrentIsListed(s, j);
          assert OrderInv(s.tasks[id], s.tasks[j]);
        }
        AcceptKeeps(s, id, fill);
        GotoKeeps(InstallL1(Record(s, g.observedAt, One(g.key), true), id, fill), id, PeerPromote);
      }
    }
  }

  lemma SettleKeeps(s: Sys, id: TaskId)
    requires Inv(s)
    ensures Inv(DoSettle(s, id))
  {
    var t := DoSettle(s, id);
    if At(s, id, Done) {
      var g := s.tasks[id].guard;
      assert GuardInv(s, g);
      assert id in Holders(s.tasks, g.record);
      ReleaseLists(s.c, g);
      SettleCounts(s, id);
      SettleTasks(s, id);
    }
  }

  lemma SettleTasks(s: Sys, id: TaskId)
    requires TasksInv(s) && At(s, id, Done)
    requires s.tasks[id].guard.record < |s.c.records| && 0 < s.c.records[s.tasks[id].guard.record].references
    ensures TasksInv(DoSettle(s, id))
  {
    var t := DoSettle(s, id);
    forall j | j in t.tasks ensures GuardInv(t, t.tasks[j].guard) {
      assert GuardInv(s, s.tasks[j].guard);
      ReleaseGuard(s, t, s.tasks[id].guard, s.tasks[j].guard);
    }
    forall a, b | a in t.tasks && b in t.tasks ensures OrderInv(t.tasks[a], t.tasks[b]) {
      assert OrderInv(s.tasks[a], s.tasks[b]);
    }
  }

  /** Releasing changes no value and registers nothing. */
  lemma ReleaseShape(c: Local, released: Guard)
    requires released.record < |c.records| && 0 < c.records[released.record].references
    ensures var d := Release(c, released);
      && |d.records| == |c.records| && d.epoch == c.epoch && d.closed == c.closed
      && forall i | 0 <= i < |c.records| ::
           && d.records[i].key == c.records[i].key && d.records[i].value == c.records[i].value
           && (d.records[i].registered ==> c.records[i].registered)
  {
  }

  lemma ReleaseGuard(s: Sys, t: Sys, released: Guard, g: Guard)
    requires released.record < |s.c.records| && 0 < s.c.records[released.record].references
    requires t.c == s.c || t.c == Release(s.c, released)
    requires t.now == s.now && t.log == s.log && t.flushedAt == s.flushedAt
    requires GuardInv(s, g)
    ensures GuardInv(t, g)
  {
    hide UpToDate, Release;
    ReleaseShape(s.c, released);
    SameHistory(s, t, g);
  }

  lemma SameHistory(s: Sys, t: Sys, g: Guard)
    requires t.log == s.log && t.flushedAt == s.flushedAt
    ensures UpToDate(t, g.key, g.observedAt, true) == UpToDate(s, g.key, g.observedAt, true)
  {
  }

  lemma ReleaseLists(c: Local, g: Guard)
    requires ListInv(c) && g.record < |c.records| && 0 < c.records[g.record].references
    ensures ListInv(Release(c, g))
  {
    var r := Dropped(c.records[g.record], LastGuard(c, g));
    if LastGuard(c, g) {
      assert c.records[g.record].key == g.key;
      UnlistKeeps(c, g.key, g.record, r);
    } else {
      RecountKeeps(c, g.record, r);
    }
  }

  lemma RecountKeeps(c: Local, i: nat, r: Revision)
    requires ListInv(c) && i < |c.records| && r.key == c.records[i].key && r.registered == c.records[i].registered
    ensures ListInv(c.(records := c.records[i := r]))
  {
  }

  lemma UnlistKeeps(c: Local, key: Key, i: nat, r: Revision)
    requires ListInv(c) && key in c.keyRevisions && c.keyRevisions[key] == i && r.key == key && !r.registered
    ensures ListInv(c.(records := c.records[i := r], keyRevisions := c.keyRevisions - {key}))
  {
    forall k | k in c.keyRevisions && k != key ensures c.keyRevisions[k] != i {
      assert c.records[c.keyRevisions[k]].key == k;
    }
  }

  lemma SettleCounts(s: Sys, id: TaskId)
    requires TableOk(s.c) && CountInv(s) && At(s, id, Done)
    requires s.tasks[id].guard.record < |s.c.records| && 0 < s.c.records[s.tasks[id].guard.record].references
    ensures CountInv(DoSettle(s, id))
  {
    var t, g := DoSettle(s, id), s.tasks[id].guard;
    forall i | 0 <= i < |t.c.records| ensures t.c.records[i].references == |Holders(t.tasks, i)| {
      HolderLeaves(s.tasks, id, i);
      assert t.c.records[i].references == s.c.records[i].references - if i == g.record then 1 else 0;
    }
  }

  lemma HolderLeaves(tasks: map<TaskId, Task>, id: TaskId, i: nat)
    requires id in tasks
    ensures |Holders(tasks - {id}, i)| == |Holders(tasks, i)| - if tasks[id].guard.record == i then 1 else 0
  {
    assert Holders(tasks - {id}, i) == Holders(tasks, i) - {id};
  }

  lemma HolderJoins(tasks: map<TaskId, Task>, id: TaskId, t: Task, i: nat)
    requires id !in tasks
    ensures |Holders(tasks[id := t], i)| == |Holders(tasks, i)| + if t.guard.record == i then 1 else 0
  {
    assert Holders(tasks[id := t], i) == Holders(tasks, i) + if t.guard.record == i then {id} else {};
  }

  lemma CloseKeeps(s: Sys, ownsL1: bool)
    requires Inv(s)
    ensures Inv(s.(c := Shut(s.c, ownsL1)))
  {
    var t := s.(c := Shut(s.c, ownsL1));
    forall j | j in t.tasks ensures GuardInv(t, t.tasks[j].guard) { assert GuardInv(s, s.tasks[j].guard); }
    forall a, b | a in t.tasks && b in t.tasks ensures OrderInv(t.tasks[a], t.tasks[b]) { assert OrderInv(s.tasks[a], s.tasks[b]); }
    forall id | id in t.restores
      ensures t.restores[id].revision < t.c.busRevision && t.restores[id].startedAt <= t.flushedAt
    { assert s.restores[id].revision <= s.c.busRevision; }
  }

  // ---------- Every run ----------

  lemma SetStoredKeeps(s: Sys, id: TaskId, aborted: bool)
    requires Inv(s)
    ensures Inv(DoSetStored(s, id, aborted))
  {
    hide Inv, Live;
    if At(s, id, SetL1) { GotoKeeps(s, id, SetL2); GotoKeeps(s, id, Done); }
  }

  lemma SetWrittenKeeps(s: Sys, id: TaskId, aborted: bool, fill: Fill)
    requires Inv(s)
    ensures Inv(DoSetWritten(s, id, aborted, fill))
  {
    hide Inv, Live;
    if At(s, id, SetL2) { RememberKeeps(s, id, aborted, fill, true); }
  }

  lemma GetReadKeeps(s: Sys, id: TaskId, found: bool, fill: Fill)
    requires Inv(s)
    ensures Inv(DoGetRead(s, id, found, fill))
  {
    hide Inv, Live;
    if At(s, id, GetL2) { PromoteKeeps(s, id, false, fill, GetPromote); }
  }

  lemma GetPromotedKeeps(s: Sys, id: TaskId, fill: Fill)
    requires Inv(s)
    ensures Inv(DoGetPromoted(s, id, fill))
  {
    hide Inv, Live;
    if At(s, id, GetPromote) { RememberKeeps(s, id, false, fill, false); }
  }

  lemma LoadStartKeeps(s: Sys, id: TaskId, key: Key, room: bool)
    requires Inv(s)
    ensures Inv(DoLoadStart(s, id, key, room))
  {
    if !s.c.closed && id !in s.tasks { BeginKeeps(s, id, key, false, room, Loading); }
  }

  lemma LoadValueKeeps(s: Sys, id: TaskId, allowed: bool, atomic: bool, aborted: bool, fill: Fill)
    requires Inv(s)
    ensures Inv(DoLoadValue(s, id, allowed, atomic, aborted, fill))
  {
    hide Inv, Live;
    if At(s, id, Loading) { PromoteKeeps(s, id, aborted, fill, SetL1); GotoKeeps(s, id, Publishing); }
  }

  lemma LoadPublishedKeeps(s: Sys, id: TaskId, published: bool, aborted: bool, fill: Fill)
    requires Inv(s)
    ensures Inv(DoLoadPublished(s, id, published, aborted, fill))
  {
    hide Inv, Live;
    if At(s, id, Publishing) { PromoteKeeps(s, id, aborted, fill, LoadPromote); }
  }

  lemma LoadPromotedKeeps(s: Sys, id: TaskId, aborted: bool, fill: Fill)
    requires Inv(s)
    ensures Inv(DoLoadPromoted(s, id, aborted, fill))
  {
    hide Inv, Live;
    if At(s, id, LoadPromote) { RememberKeeps(s, id, aborted, fill, true); }
  }

  lemma PeerSetStartKeeps(s: Sys, id: TaskId, key: Key, room: bool)
    requires Inv(s)
    ensures Inv(DoPeerSetStart(s, id, key, room))
  {
    if !s.c.closed && id !in s.tasks { BeginKeeps(s, id, key, true, room, PeerRead); }
  }

  lemma PeerSetPromotedKeeps(s: Sys, id: TaskId, fill: Fill)
    requires Inv(s)
    ensures Inv(DoPeerSetPromoted(s, id, fill))
  {
    hide Inv, Live;
    if At(s, id, PeerPromote) { RememberKeeps(s, id, false, fill, true); }
  }

  lemma BusDownKeeps(s: Sys)
    requires Inv(s) && 0 < s.now
    ensures Inv(if s.c.closed then s else Gap(s.(c := s.c.(busDown := true))))
  {
    EntriesOnly(s, s.c.(busDown := true));
    GapKeeps(s.(c := s.c.(busDown := true)));
  }

  lemma BusReadyKeeps(s: Sys)
    requires Inv(s)
    ensures Inv(if s.c.closed then s else s.(c := s.c.(busDown := false)))
  {
    EntriesOnly(s, s.c.(busDown := false));
  }

  lemma EvictKeeps(s: Sys, key: Key, fromL1: bool, fromStale: bool, fromNegative: bool)
    requires Inv(s)
    ensures Inv(DoEvict(s, key, fromL1, fromStale, fromNegative))
  {
    EntriesOnly(s, DoEvict(s, key, fromL1, fromStale, fromNegative).c);
  }

  lemma WriteStepKeeps(s: Sys, step: Step)
    requires Inv(s) && (step.SetStart? || step.SetStored? || step.SetWritten? || step.DeleteStart? || step.PatternDelete? || step.Throw? || step.Settle?)
    ensures Inv(Next(s, step))
  {
    TickKeeps(s);
    hide Inv, DoSetStart, DoSetStored, DoSetWritten, DoGetStart, DoGetLooked, DoGetRead, DoGetPromoted;
    hide DoLoadStart, DoLoadEmpty, DoLoadValue, DoLoadPublished, DoLoadPromoted, DoDeleteStart, DoPatternDelete;
    hide DoPeerSetStart, DoPeerSetRead, DoPeerSetForgotten, DoPeerSetPromoted, DoSettle, Gap, DoRestoreStart, DoRestoreEnd;
    hide Flush, Shut, DoEvict, TableOk;
    var t := Tick(s);
    match step
    case SetStart(id, key, room, fill) => SetStartKeeps(t, id, key, room, fill);
    case SetStored(id, aborted) => SetStoredKeeps(t, id, aborted);
    case SetWritten(id, aborted, fill) => SetWrittenKeeps(t, id, aborted, fill);
    case DeleteStart(id, key, room) => DeleteKeeps(t, id, key, room);
    case PatternDelete(pattern) => PatternDeleteKeeps(t, pattern);
    case Throw(id) => if id in t.tasks { GotoKeeps(t, id, Done); }
    case Settle(id) => SettleKeeps(t, id);
  }

  lemma ReadStepKeeps(s: Sys, step: Step)
    requires Inv(s) && (step.GetStart? || step.GetLooked? || step.GetRead? || step.GetPromoted? || step.LoadStart? || step.LoadEmpty? || step.LoadValue? || step.LoadPublished? || step.LoadPromoted?)
    ensures Inv(Next(s, step))
  {
    TickKeeps(s);
    hide Inv, DoSetStart, DoSetStored, DoSetWritten, DoGetStart, DoGetLooked, DoGetRead, DoGetPromoted;
    hide DoLoadStart, DoLoadEmpty, DoLoadValue, DoLoadPublished, DoLoadPromoted, DoDeleteStart, DoPatternDelete;
    hide DoPeerSetStart, DoPeerSetRead, DoPeerSetForgotten, DoPeerSetPromoted, DoSettle, Gap, DoRestoreStart, DoRestoreEnd;
    hide Flush, Shut, DoEvict, TableOk;
    var t := Tick(s);
    match step
    case GetStart(id, key, room) => GetStartKeeps(t, id, key, room);
    case GetLooked(id, corrupt, fill) => GetLookedKeeps(t, id, corrupt, fill);
    case GetRead(id, found, fill) => GetReadKeeps(t, id, found, fill);
    case GetPromoted(id, fill) => GetPromotedKeeps(t, id, fill);
    case LoadStart(id, key, room) => LoadStartKeeps(t, id, key, room);
    case LoadEmpty(id, allowed, aborted, fill) => LoadEmptyKeeps(t, id, allowed, aborted, fill);
    case LoadValue(id, allowed, atomic, aborted, fill) => LoadValueKeeps(t, id, allowed, atomic, aborted, fill);
    case LoadPublished(id, published, aborted, fill) => LoadPublishedKeeps(t, id, published, aborted, fill);
    case LoadPromoted(id, aborted, fill) => LoadPromotedKeeps(t, id, aborted, fill);
  }

  lemma PeerStepKeeps(s: Sys, step: Step)
    requires Inv(s) && (step.PeerSetStart? || step.PeerSetRead? || step.PeerSetForgotten? || step.PeerSetPromoted?)
    ensures Inv(Next(s, step))
  {
    TickKeeps(s);
    hide Inv, DoSetStart, DoSetStored, DoSetWritten, DoGetStart, DoGetLooked, DoGetRead, DoGetPromoted;
    hide DoLoadStart, DoLoadEmpty, DoLoadValue, DoLoadPublished, DoLoadPromoted, DoDeleteStart, DoPatternDelete;
    hide DoPeerSetStart, DoPeerSetRead, DoPeerSetForgotten, DoPeerSetPromoted, DoSettle, Gap, DoRestoreStart, DoRestoreEnd;
    hide Flush, Shut, DoEvict, TableOk;
    var t := Tick(s);
    match step
    case PeerSetStart(id, key, room) => PeerSetStartKeeps(t, id, key, room);
    case PeerSetRead(id, found, fill) => PeerSetReadKeeps(t, id, found, fill);
    case PeerSetForgotten(id) => PeerSetForgottenKeeps(t, id);
    case PeerSetPromoted(id, fill) => PeerSetPromotedKeeps(t, id, fill);
  }

  lemma BusStepKeeps(s: Sys, step: Step)
    requires Inv(s) && (step.BusDown? || step.BusReady? || step.BusGap? || step.RestoreStart? || step.RestoreEnd?)
    ensures Inv(Next(s, step))
  {
    TickKeeps(s);
    hide Inv, DoSetStart, DoSetStored, DoSetWritten, DoGetStart, DoGetLooked, DoGetRead, DoGetPromoted;
    hide DoLoadStart, DoLoadEmpty, DoLoadValue, DoLoadPublished, DoLoadPromoted, DoDeleteStart, DoPatternDelete;
    hide DoPeerSetStart, DoPeerSetRead, DoPeerSetForgotten, DoPeerSetPromoted, DoSettle, Gap, DoRestoreStart, DoRestoreEnd;
    hide Flush, Shut, DoEvict, TableOk;
    var t := Tick(s);
    match step
    case BusDown => BusDownKeeps(t);
    case BusReady => BusReadyKeeps(t);
    case BusGap => GapKeeps(t);
    case RestoreStart(id, statusChange) => RestoreStartKeeps(t, id, statusChange);
    case RestoreEnd(id) => RestoreEndKeeps(t, id);
  }

  lemma LocalStepKeeps(s: Sys, step: Step)
    requires Inv(s) && (step.Saturate? || step.Close? || step.Evict?)
    ensures Inv(Next(s, step))
  {
    TickKeeps(s);
    hide Inv, DoSetStart, DoSetStored, DoSetWritten, DoGetStart, DoGetLooked, DoGetRead, DoGetPromoted;
    hide DoLoadStart, DoLoadEmpty, DoLoadValue, DoLoadPublished, DoLoadPromoted, DoDeleteStart, DoPatternDelete;
    hide DoPeerSetStart, DoPeerSetRead, DoPeerSetForgotten, DoPeerSetPromoted, DoSettle, Gap, DoRestoreStart, DoRestoreEnd;
    hide Flush, Shut, DoEvict, TableOk;
    var t := Tick(s);
    match step
    case Saturate => FlushKeeps(t);
    case Close(ownsL1) => CloseKeeps(t, ownsL1);
    case Evict(key, fromL1, fromStale, fromNegative) => EvictKeeps(t, key, fromL1, fromStale, fromNegative);
  }

  lemma StepKeeps(s: Sys, step: Step)
    requires Inv(s)
    ensures Inv(Next(s, step))
  {
    hide Next, Inv;
    if step.PeerSetStart? || step.PeerSetRead? || step.PeerSetForgotten? || step.PeerSetPromoted? {
      PeerStepKeeps(s, step);
    } else if step.BusDown? || step.BusReady? || step.BusGap? || step.RestoreStart? || step.RestoreEnd? {
      BusStepKeeps(s, step);
    } else if step.Saturate? || step.Close? || step.Evict? {
      LocalStepKeeps(s, step);
    } else if step.SetStart? || step.SetStored? || step.SetWritten? || step.DeleteStart? || step.PatternDelete? || step.Throw? || step.Settle? {
      WriteStepKeeps(s, step);
    } else {
      ReadStepKeeps(s, step);
    }
  }

  /** A live task remembers its value as stale, then ends; otherwise it just ends. */
  lemma RememberKeeps(s: Sys, id: TaskId, aborted: bool, fill: Fill, dropNegative: bool)
    requires Inv(s) && id in s.tasks
    ensures Inv(Goto(s, id, Done))
    ensures Live(s, id, aborted) && dropNegative ==> Inv(Goto(DropNegative(InstallStale(s, id, fill), id), id, Done))
    ensures Live(s, id, aborted) && !dropNegative ==> Inv(Goto(InstallStale(s, id, fill), id, Done))
  {
    GotoKeeps(s, id, Done);
    if Live(s, id, aborted) {
      InstallStaleKeeps(s, id, fill);
      var t := InstallStale(s, id, fill);
      GotoKeeps(t, id, Done);
      DropNegativeKeeps(t, id);
      GotoKeeps(DropNegative(t, id), id, Done);
    }
  }

  lemma DropNegativeKeeps(s: Sys, id: TaskId)
    requires Inv(s) && id in s.tasks
    ensures Inv(DropNegative(s, id))
  {
    EntriesOnly(s, DropNegative(s, id).c);
  }

  /** A live task offers its value to L1 and goes on; otherwise it ends. */
  lemma PromoteKeeps(s: Sys, id: TaskId, aborted: bool, fill: Fill, phase: Phase)
    requires Inv(s) && id in s.tasks && phase != PeerRead
    ensures Inv(Goto(s, id, Done))
    ensures Live(s, id, aborted) ==> Inv(Goto(InstallL1(s, id, fill), id, phase))
  {
    GotoKeeps(s, id, Done);
    if Live(s, id, aborted) {
      InstallL1Keeps(s, id, fill);
      GotoKeeps(InstallL1(s, id, fill), id, phase);
    }
  }

  lemma GetStartKeeps(s: Sys, id: TaskId, key: Key, room: bool)
    requires Inv(s)
    ensures Inv(DoGetStart(s, id, key, room))
  {
    if !s.c.closed && id !in s.tasks {
      BeginKeeps(s, id, key, false, room, Done);
      BeginKeeps(s, id, key, false, room, GetL1(key in s.c.l1));
      BeginKeeps(s, id, key, false, room, GetL2);
    }
  }

  lemma GetLookedKeeps(s: Sys, id: TaskId, corrupt: bool, fill: Fill)
    requires Inv(s)
    ensures Inv(DoGetLooked(s, id, corrupt, fill))
  {
    if id in s.tasks {
      GotoKeeps(s, id, GetL2);
      RememberKeeps(s, id, false, fill, false);
      PromoteKeeps(s, id, false, Emptied, GetL2);
    }
  }

  lemma LoadEmptyKeeps(s: Sys, id: TaskId, allowed: bool, aborted: bool, fill: Fill)
    requires Inv(s)
    ensures Inv(DoLoadEmpty(s, id, allowed, aborted, fill))
  {
    hide Inv;
    if id in s.tasks {
      GotoKeeps(s, id, Done);
      if Live(s, id, aborted) {
        InstallNegativeKeeps(s, id, fill);
        GotoKeeps(InstallNegative(s, id, fill), id, Done);
      }
    }
  }

  lemma PeerSetForgottenKeeps(s: Sys, id: TaskId)
    requires Inv(s)
    ensures Inv(DoPeerSetForgotten(s, id))
  {
    if id in s.tasks {
      var key := s.tasks[id].guard.key;
      EntriesOnly(s, s.c.(stale := s.c.stale - {key}));
      var t := s.(c := s.c.(stale := s.c.stale - {key}));
      DropNegativeKeeps(t, id);
      GotoKeeps(DropNegative(t, id), id, Done);
    }
  }

  /** Keeping the tasks and the entries, changing who is trusted. */
  lemma TrustOnly(s: Sys, t: Sys)
    requires Inv(s) && TrustInv(t)
    requires t == s.(c := s.c.(trusted := t.c.trusted, busDown := t.c.busDown), restores := t.restores, restoredAt := t.restoredAt)
    ensures Inv(t)
  {
    forall id | id in t.tasks ensures GuardInv(t, t.tasks[id].guard) { assert GuardInv(s, s.tasks[id].guard); }
    forall a, b | a in t.tasks && b in t.tasks ensures OrderInv(t.tasks[a], t.tasks[b]) { assert OrderInv(s.tasks[a], s.tasks[b]); }
  }

  lemma RestoreStartKeeps(s: Sys, id: TaskId, statusChange: bool)
    requires Inv(s) && s.gapAt < s.now
    ensures Inv(DoRestoreStart(s, id, statusChange))
  {
    if !s.c.closed && id !in s.restores {
      FlushKeeps(s);
      TrustOnly(Flush(s), DoRestoreStart(s, id, statusChange));
    }
  }

  lemma RestoreEndKeeps(s: Sys, id: TaskId)
    requires Inv(s)
    ensures Inv(DoRestoreEnd(s, id))
  {
    if id in s.restores {
      TrustOnly(s, DoRestoreEnd(s, id));
    }
  }

  /** The state after a run of a new cache. */
  ghost function After(subscribed: bool, run: seq<Step>): (s: Sys)
    ensures Inv(s)
  {
    if run == [] then FreshKeeps(subscribed); Fresh(subscribed)
    else
      var s := After(subscribed, run[..|run| - 1]);
      StepKeeps(s, run[|run| - 1]);
      Next(s, run[|run| - 1])
  }

  lemma FreshKeeps(subscribed: bool)
    ensures Inv(Fresh(subscribed))
  {
  }

  /** In every interleaving, no L1 entry was installed by a task that observed its key
      before the key's latest delete, matching pattern delete or accepted set; nor was any
      stale or negative entry, as far as deletes go. */
  lemma NoObsoleteEntry(subscribed: bool, run: seq<Step>)
    ensures var s := After(subscribed, run);
      && (forall k, m | k in s.c.l1 && m in s.log && Hits(m.target, k) :: m.at <= s.c.l1[k].observedAt)
      && (forall k, m | k in s.c.stale && m in s.log && Hits(m.target, k) && !m.accepts :: m.at <= s.c.stale[k].observedAt)
      && (forall k, m | k in s.c.negative && m in s.log && Hits(m.target, k) && !m.accepts :: m.at <= s.c.negative[k].observedAt)
  {
    var s := After(subscribed, run);
    assert EntriesInv(s);
  }

  /** Reference counting rules out revision reuse: a guard that passes `isCurrent` sees the
      very record the key is listed under, and nothing mutated the key since. */
  lemma CurrentGuardIsUpToDate(subscribed: bool, run: seq<Step>, id: TaskId)
    requires var s := After(subscribed, run); id in s.tasks && Live(s, id, false)
    ensures var s := After(subscribed, run);
      var g := s.tasks[id].guard;
      && g.key in s.c.keyRevisions && s.c.keyRevisions[g.key] == g.record
      && s.c.records[g.record].references == |Holders(s.tasks, g.record)|
      && (forall m | m in s.log && Hits(m.target, g.key) :: m.at <= g.observedAt)
  {
    var s := After(subscribed, run);
    CurrentIsListed(s, id);
    assert GuardInv(s, s.tasks[id].guard);
  }

  /** Whenever a cache is trusted, no gap was signalled since the restoring flush
      began, and every entry was installed by a task that observed its key after it,
      overlapping restores included. */
  lemma TrustedMeansReconciled(subscribed: bool, run: seq<Step>)
    requires After(subscribed, run).c.trusted
    ensures var s := After(subscribed, run);
      && s.gapAt < s.restoredAt
      && (forall k | k in s.c.l1 :: s.restoredAt <= s.c.l1[k].observedAt)
      && (forall k | k in s.c.stale :: s.restoredAt <= s.c.stale[k].observedAt)
      && (forall k | k in s.c.negative :: s.restoredAt <= s.c.negative[k].observedAt)
  {
    var s := After(subscribed, run);
    assert TrustInv(s) && EntriesInv(s);
  }

  // ---------- The synchronous bodies, as methods of the cache object ----------

  class HybridCache {
    var records: seq<Revision>
    var keyRevisions: map<Key, nat>
    var mutationEpoch: nat
    var closed: bool
    var invalidationTrusted: bool
    var invalidationRevision: nat
    var busDown: bool
    var l1: map<Key, Entry>
    var stale: map<Key, Entry>
    var negative: map<Key, Entry>

    ghost function State(): Local
      reads this
    {
      Local(records, keyRevisions, mutationEpoch, closed, invalidationTrusted, invalidationRevision, busDown, l1, stale, negative)
    }

    constructor (subscribed: bool)
      ensures State() == Fresh(subscribed).c
    {
      records, keyRevisions, mutationEpoch, closed := [], map[], 0, false;
      invalidationTrusted, invalidationRevision, busDown := !subscribed, 0, false;
      l1, stale, negative := map[], map[], map[];
    }

    /** `room` says whether the metadata budget admits one more registered revision. */
    method ObserveKey(key: Key, mutate: bool, room: bool, now: nat) returns (g: Guard)
      requires TableOk(State())
      modifies this`records, this`keyRevisions
      ensures State() == Observe(old(State()), key, mutate, room)
      ensures g == GuardOf(State(), key, now, Observed(old(State()), key))
    {
      var i: nat;
      if key in keyRevisions {
        i := keyRevisions[key];
      } else {
        i := |records|;
        records := records + [Revision(key, 0, 0, room)];
        if room { keyRevisions := keyRevisions[key := i]; }
      }
      records := records[i := records[i].(references := records[i].references + 1)];
      if mutate { records := records[i := records[i].(value := records[i].value + 1)]; }
      g := Guard(key, i, records[i].value, mutationEpoch, now);
    }

    method ReleaseKey(g: Guard)
      requires g.record < |records| && 0 < records[g.record].references
      modifies this`records, this`keyRevisions
      ensures State() == Release(old(State()), g)
    {
      records := records[g.record := records[g.record].(references := records[g.record].references - 1)];
      if records[g.record].references == 0 && g.key in keyRevisions && keyRevisions[g.key] == g.record {
        keyRevisions := keyRevisions - {g.key};
        records := records[g.record := records[g.record].(registered := false)];
      }
    }

    /** `deleteLocal` up to its first await: the guard it holds while L2 is pending. */
    method DeleteLocal(key: Key, room: bool, now: nat) returns (g: Guard)
      requires TableOk(State())
      modifies this
      ensures State() == Observe(ForgetKey(old(State()), key), key, true, room)
    {
      g := ObserveKey(key, true, room, now);
      negative := negative - {key};
      stale := stale - {key};
      l1 := l1 - {key};
    }

    /** `deleteByPatternLocal` up to its first await. */
    method DeleteByPatternLocal(pattern: seq<Unit>)
      modifies this
      ensures State() == DeleteMatching(old(State()), pattern)
    {
      mutationEpoch := mutationEpoch + 1;
      negative := DropMatching(negative, pattern);
      stale := DropMatching(stale, pattern);
      l1 := DropMatching(l1, pattern);
    }

    method MarkInvalidationUntrusted()
      modifies this
      ensures State() == Distrust(old(State()))
    {
      invalidationRevision := invalidationRevision + 1;
      invalidationTrusted := false;
      mutationEpoch := mutationEpoch + 1;
      negative, stale, l1 := map[], map[], map[];
    }

    /** The first half of `restoreInvalidationTrust`. */
    method RestoreBegin() returns (revision: nat)
      modifies this
      ensures State() == FlushAll(old(State())) && revision == old(invalidationRevision)
    {
      revision := invalidationRevision;
      mutationEpoch := mutationEpoch + 1;
      negative, stale, l1 := map[], map[], map[];
    }

    /** The second half, after the flush was awaited. */
    method RestoreFinish(revision: nat)
      modifies this`invalidationTrusted
      ensures State() == old(State()).(trusted :=
        old(invalidationTrusted) || (revision == invalidationRevision && !closed && !busDown))
    {
      if revision != invalidationRevision || closed || busDown { return; }
      invalidationTrusted := true;
    }

    method CloseResources(ownsL1: bool)
      requires TableOk(State())
      modifies this
      ensures State() == Shut(old(State()), ownsL1)
    {
      closed := true;
      mutationEpoch := mutationEpoch + 1;
      invalidationRevision := invalidationRevision + 1;
      negative := map[];
      for i := 0 to |records|
        modifies this`records
        invariant |records| == |old(records)|
        invariant forall j | 0 <= j < i :: records[j] == UnregisterListed(old(records), keyRevisions)[j]
        invariant forall j | i <= j < |records| :: records[j] == old(records)[j]
      {
        var r := records[i];
        if r.key in keyRevisions && keyRevisions[r.key] == i { records := records[i := r.(registered := false)]; }
      }
      assert records == UnregisterListed(old(records), keyRevisions);
      keyRevisions := map[];
      stale := map[];
      if ownsL1 { l1 := map[]; }
    }
  }

  /** Visits the keys in turn, as the loops of `deleteByPattern` do. */
  method DropMatching(m: map<Key, Entry>, pattern: seq<Unit>) returns (r: map<Key, Entry>)
    ensures r == Unmatched(m, pattern)
  {
    r := m;
    var keys := m.Keys;
    while keys != {}
      invariant keys <= m.Keys
      invariant forall k | k in m :: k in r <==> (k in keys || !Pattern.Matches(k, pattern))
      invariant forall k | k in r :: k in m && r[k] == m[k]
    {
      var key :| key in keys;
      keys := keys - {key};
      var hit := Pattern.MatchesPattern(key, pattern);
      if hit { r := r - {key}; }
    }
  }
}
