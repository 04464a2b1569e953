/** Mutation guards of the Cloudflare Worker facade. A pattern delete opens no new epoch:
    it bumps the tracked keys only and purges L1 with `prefix + pattern`. Both are proved
    sufficient, except that `*` behind a prefix misses L1 keys holding a line terminator. */
module WorkerGuards {
  import opened Common
  import Pattern
  import CacheGuards

  type Key = CacheGuards.Key
  type TaskId = nat
  type Entry = CacheGuards.Entry
  type Mutation = CacheGuards.Mutation
  type Target = CacheGuards.Target

  datatype Guard = Guard(name: Key, state: nat, revision: nat, epoch: nat, observedAt: nat)

  datatype Revision = Revision(name: Key, value: nat, references: nat)

  /** The facade and its reusable L1, keyed by prefixed names. */
  datatype Facade = Facade(
    prefix: seq<Unit>,
    records: seq<Revision>,
    keyRevisions: map<Key, nat>,
    epoch: nat,
    closed: bool,
    l1: map<Key, Entry>)

  predicate TableOk(c: Facade) {
    forall k | k in c.keyRevisions :: c.keyRevisions[k] < |c.records| && c.records[c.keyRevisions[k]].name == k
  }

  function Observed(c: Facade, key: Key): nat {
    if key in c.keyRevisions then c.keyRevisions[key] else |c.records|
  }

  function Observe(c: Facade, key: Key, mutate: bool): Facade
    requires TableOk(c)
  {
    var known, i := key in c.keyRevisions, Observed(c, key);
    var r := if known then c.records[i] else Revision(key, 0, 0);
    var r' := Revision(key, r.value + if mutate then 1 else 0, r.references + 1);
    c.(records := if known then c.records[i := r'] else c.records + [r'], keyRevisions := c.keyRevisions[key := i])
  }

  function Release(c: Facade, g: Guard): Facade
    requires g.state < |c.records| && 0 < c.records[g.state].references
  {
    var r := c.records[g.state].(references := c.records[g.state].references - 1);
    c.(records := c.records[g.state := r],
       keyRevisions := if r.references == 0 && g.name in c.keyRevisions && c.keyRevisions[g.name] == g.state
                       then c.keyRevisions - {g.name} else c.keyRevisions)
  }

  predicate IsCurrent(c: Facade, g: Guard) {
    && !c.closed && g.epoch == c.epoch && g.state < |c.records| && c.records[g.state].value == g.revision
    && g.name in c.keyRevisions && c.keyRevisions[g.name] == g.state
  }

  ghost function Bumped(rs: seq<Revision>, listed: map<Key, nat>, pattern: seq<Unit>): (r: seq<Revision>)
    ensures |r| == |rs|
    ensures forall i | 0 <= i < |r| :: r[i] == Bump(rs[i], i, listed, pattern)
  {
    seq(|rs|, i requires 0 <= i < |rs| => Bump(rs[i], i, listed, pattern))
  }

  /** Only the record its name is listed under counts as tracked. */
  ghost function Bump(r: Revision, i: nat, listed: map<Key, nat>, pattern: seq<Unit>): Revision {
    if r.name in listed && listed[r.name] == i && Pattern.Matches(r.name, pattern) then r.(value := r.value + 1) else r
  }

  ghost function DeleteMatching(c: Facade, pattern: seq<Unit>): Facade {
    c.(records := Bumped(c.records, c.keyRevisions, pattern),
       l1 := CacheGuards.Unmatched(c.l1, c.prefix + pattern))
  }

  // ---------- The purge ----------

  /** The mutation reaches the key's L1 entry: it hits the key, and is not a purge whose pattern is
      `*` behind a prefix while the key holds a line terminator. */
  ghost predicate Reached(prefix: seq<Unit>, t: Target, key: Key) {
    CacheGuards.Hits(t, key) && !(prefix != [] && t == CacheGuards.Matching([Pattern.STAR]) && !Pattern.Clean(key))
  }

  /** Prefixing both sides keeps a match, whatever the prefix holds. */
  lemma {:induction false} PrefixKeepsGlob(prefix: seq<Unit>, key: Key, pattern: seq<Unit>)
    requires Pattern.Glob(key, pattern)
    ensures Pattern.Glob(prefix + key, prefix + pattern)
    decreases |prefix|
  {
    var value, glob := prefix + key, prefix + pattern;
    if prefix == [] {
      assert value == key && glob == pattern;
    } else {
      PrefixKeepsGlob(prefix[1..], key, pattern);
      assert value[1..] == prefix[1..] + key && glob[1..] == prefix[1..] + pattern;
      if prefix[0] == Pattern.STAR {
        assert Pattern.Clean(value[..1]);
      }
    }
  }

  /** The L1 purge reaches a matching key unless the pattern is `*`, the prefix is not empty and
      the key holds a line terminator: the bypass that lets `*` match terminators is lost behind a
      prefix. Of a prefix without `*` nothing but the glob's own matches is reached. */
  lemma PurgeReaches(prefix: seq<Unit>, key: Key, pattern: seq<Unit>)
    ensures Pattern.Matches(key, pattern) ==>
      (Pattern.Matches(prefix + key, prefix + pattern) <==> Reached(prefix, CacheGuards.Matching(pattern), key))
    ensures prefix != [] && Pattern.STAR !in prefix ==>
      (Pattern.Matches(prefix + key, prefix + pattern) <==> Pattern.Glob(key, pattern))
  {
    OneStar(key);
    if prefix == [] {
      assert prefix + key == key && prefix + pattern == pattern;
      return;
    }
    if Pattern.Glob(key, pattern) { PrefixKeepsGlob(prefix, key, pattern); }
    assert prefix + pattern != [Pattern.STAR] || pattern == [];
    if pattern == [Pattern.STAR] && Pattern.Glob(prefix + key, prefix + pattern) { Pattern.PrefixedStar(prefix, key); }
    if Pattern.STAR !in prefix {
      Pattern.GlobLiteral(prefix + key, prefix, pattern);
      assert (prefix + key)[..|prefix|] == prefix && (prefix + key)[|prefix|..] == key;
      assert (prefix + pattern)[0] == prefix[0];
    }
  }

  lemma OneStar(key: Key)
    ensures Pattern.Glob(key, [Pattern.STAR]) <==> Pattern.Clean(key)
  {
    var parts: seq<seq<Unit>> := [[]];
    assert parts[1..] == [] && parts[..0] == [];
    assert Pattern.Tail(parts) == [Pattern.STAR];
    Pattern.GlobTail(key, parts);
    assert key[..|key|] == key;
    Pattern.ChainNil(key);
  }

  // ---------- Tasks and history ----------

  datatype Phase = GetL2 | FillLoading | FillWriting | SetWriting | Done

  datatype Task = Task(guard: Guard, phase: Phase)

  datatype Sys = Sys(c: Facade, tasks: map<TaskId, Task>, now: nat, log: seq<Mutation>)

  /** A new facade over an L1 that may already hold entries. */
  function Fresh(prefix: seq<Unit>, l1: map<Key, Entry>): Sys {
    Sys(Facade(prefix, [], map[], 0, false, map k | k in l1 :: CacheGuards.Entry(0)), map[], 0, [])
  }

  datatype Step =
    | GetStart(id: TaskId, key: Key)
    | GetRead(id: TaskId, usable: bool)
    | FillStart(id: TaskId, key: Key)
    | FillLoaded(id: TaskId, found: bool)
    | FillWritten(id: TaskId, usable: bool)
    | SetStart(id: TaskId, key: Key)
    | SetWritten(id: TaskId, usable: bool)
    | DeleteStart(id: TaskId, key: Key)
    | PatternDelete(pattern: seq<Unit>)
    | Settle(id: TaskId)
    | Close
    | Evict(name: Key)

  function Begin(s: Sys, id: TaskId, key: Key, mutate: bool, phase: Phase): Sys
    requires TableOk(s.c)
  {
    var c, i := Observe(s.c, key, mutate), Observed(s.c, key);
    s.(c := c, tasks := s.tasks[id := Task(Guard(key, i, c.records[i].value, c.epoch, s.now), phase)])
  }

  function Goto(s: Sys, id: TaskId, phase: Phase): Sys
    requires id in s.tasks
  {
    s.(tasks := s.tasks[id := s.tasks[id].(phase := phase)])
  }

  predicate At(s: Sys, id: TaskId, phase: Phase) {
    id in s.tasks && s.tasks[id].phase == phase
  }

  /** `l1.set` when the guard is current and a usable lifetime remains. */
  function Install(s: Sys, id: TaskId, usable: bool): Sys
    requires id in s.tasks
  {
    var g := s.tasks[id].guard;
    if usable && IsCurrent(s.c, g)
    then s.(c := s.c.(l1 := s.c.l1[s.c.prefix + g.name := CacheGuards.Entry(g.observedAt)])) else s
  }

  /** The common start of `set` and `delete`: bump the key, drop its L1 entry. */
  function Mutate(s: Sys, id: TaskId, key: Key, accepts: bool, phase: Phase): Sys
    requires TableOk(s.c)
  {
    var b := Begin(s, id, key, true, phase);
    b.(c := b.c.(l1 := b.c.l1 - {b.c.prefix + key}),
       log := b.log + [CacheGuards.Mutation(s.now, CacheGuards.One(key), accepts)])
  }

  ghost function Next(before: Sys, step: Step): Sys
    requires TableOk(before.c)
  {
    var s := before.(now := before.now + 1);
    match step
    case GetStart(id, key) =>
      if s.c.closed || id in s.tasks then s
      else Begin(s, id, key, false, if s.c.prefix + key in s.c.l1 then Done else GetL2)
    case GetRead(id, usable) => if At(s, id, GetL2) then Goto(Install(s, id, usable), id, Done) else s
    case FillStart(id, key) => if s.c.closed || id in s.tasks then s else Begin(s, id, key, false, FillLoading)
    case FillLoaded(id, found) =>
      if !At(s, id, FillLoading) then s
      else Goto(s, id, if found && IsCurrent(s.c, s.tasks[id].guard) then FillWriting else Done)
    case FillWritten(id, usable) => if At(s, id, FillWriting) then Goto(Install(s, id, usable), id, Done) else s
    case SetStart(id, key) => if s.c.closed || id in s.tasks then s else Mutate(s, id, key, true, SetWriting)
    case SetWritten(id, usable) => if At(s, id, SetWriting) then Goto(Install(s, id, usable), id, Done) else s
    case DeleteStart(id, key) => if s.c.closed || id in s.tasks then s else Mutate(s, id, key, false, Done)
    case PatternDelete(pattern) =>
      if s.c.closed then s
      else s.(c := DeleteMatching(s.c, pattern),
              log := s.log + [CacheGuards.Mutation(s.now, CacheGuards.Matching(pattern), false)])
    case Settle(id) =>
      if At(s, id, Done) && s.tasks[id].guard.state < |s.c.records| && 0 < s.c.records[s.tasks[id].guard.state].references
      then s.(c := Release(s.c, s.tasks[id].guard), tasks := s.tasks - {id}) else s
    case Close => if s.c.closed then s else s.(c := s.c.(closed := true, epoch := s.c.epoch + 1, keyRevisions := map[]))
    case Evict(name) => s.(c := s.c.(l1 := s.c.l1 - {name}))
  }

  // ---------- The invariant ----------

  ghost predicate GuardInv(s: Sys, g: Guard) {
    && g.state < |s.c.records| && s.c.records[g.state].name == g.name
    && g.revision <= s.c.records[g.state].value
    && (IsCurrent(s.c, g) ==> forall m | m in s.log && CacheGuards.Hits(m.target, g.name) :: m.at <= g.observedAt)
  }

  ghost predicate Inv(s: Sys) {
    && TableOk(s.c)
    && (forall id | id in s.tasks :: GuardInv(s, s.tasks[id].guard))
    && (forall key, m | s.c.prefix + key in s.c.l1 && m in s.log && Reached(s.c.prefix, m.target, key) ::
          m.at <= s.c.l1[s.c.prefix + key].observedAt)
    && (forall m | m in s.log :: m.at <= s.now)
  }

  lemma BeginKeeps(s: Sys, id: TaskId, key: Key, mutate: bool, phase: Phase)
    requires Inv(s) && id !in s.tasks
    ensures var b := Begin(s, id, key, mutate, phase);
      Inv(b) && (mutate ==> forall j | j in s.tasks && s.tasks[j].guard.name == key :: !IsCurrent(b.c, s.tasks[j].guard))
  {
    var b := Begin(s, id, key, mutate, phase);
    forall j | j in b.tasks
      ensures GuardInv(b, b.tasks[j].guard)
      ensures mutate && j in s.tasks && j != id && s.tasks[j].guard.name == key ==> !IsCurrent(b.c, s.tasks[j].guard)
    {
      if j != id {
        assert GuardInv(s, s.tasks[j].guard);
        assert IsCurrent(b.c, s.tasks[j].guard) ==> IsCurrent(s.c, s.tasks[j].guard);
      }
    }
  }

  lemma MutateKeeps(s: Sys, id: TaskId, key: Key, accepts: bool, phase: Phase)
    requires Inv(s) && id !in s.tasks
    ensures Inv(Mutate(s, id, key, accepts, phase))
  {
    BeginKeeps(s, id, key, true, phase);
    var b, t := Begin(s, id, key, true, phase), Mutate(s, id, key, accepts, phase);
    forall j | j in t.tasks ensures GuardInv(t, t.tasks[j].guard) {
      assert GuardInv(b, b.tasks[j].guard);
    }
  }

  lemma PatternDeleteKeeps(s: Sys, pattern: seq<Unit>)
    requires Inv(s)
    ensures Inv(s.(c := DeleteMatching(s.c, pattern), log := s.log + [CacheGuards.Mutation(s.now, CacheGuards.Matching(pattern), false)]))
  {
    var t := s.(c := DeleteMatching(s.c, pattern), log := s.log + [CacheGuards.Mutation(s.now, CacheGuards.Matching(pattern), false)]);
    forall j | j in t.tasks ensures GuardInv(t, t.tasks[j].guard) {
      var g := s.tasks[j].guard;
      assert GuardInv(s, g);
      assert IsCurrent(t.c, g) ==> IsCurrent(s.c, g) && !Pattern.Matches(g.name, pattern);
    }
    forall key, m | t.c.prefix + key in t.c.l1 && m in t.log && Reached(t.c.prefix, m.target, key)
      ensures m.at <= t.c.l1[t.c.prefix + key].observedAt
    {
      if m !in s.log { PurgeReaches(s.c.prefix, key, pattern); }
    }
  }

  lemma InstallKeeps(s: Sys, id: TaskId, usable: bool)
    requires Inv(s) && id in s.tasks
    ensures Inv(Goto(Install(s, id, usable), id, Done))
  {
    var t := Install(s, id, usable);
    var u := Goto(t, id, Done);
    var g := s.tasks[id].guard;
    assert GuardInv(s, g);
    forall j | j in u.tasks ensures GuardInv(u, u.tasks[j].guard) { assert GuardInv(s, s.tasks[j].guard); }
    forall key, m | u.c.prefix + key in u.c.l1 && m in u.log && Reached(u.c.prefix, m.target, key)
      ensures m.at <= u.c.l1[u.c.prefix + key].observedAt
    {
      if u.c.prefix + key == s.c.prefix + g.name {
        assert key == (s.c.prefix + key)[|s.c.prefix|..] == (s.c.prefix + g.name)[|s.c.prefix|..] == g.name;
      }
    }
  }

  lemma SettleKeeps(s: Sys, id: TaskId)
    requires Inv(s) && id in s.tasks
    requires s.tasks[id].guard.state < |s.c.records| && 0 < s.c.records[s.tasks[id].guard.state].references
    ensures Inv(s.(c := Release(s.c, s.tasks[id].guard), tasks := s.tasks - {id}))
  {
    var t := s.(c := Release(s.c, s.tasks[id].guard), tasks := s.tasks - {id});
    forall j | j in t.tasks ensures GuardInv(t, t.tasks[j].guard) {
      assert GuardInv(s, s.tasks[j].guard);
      assert IsCurrent(t.c, t.tasks[j].guard) ==> IsCurrent(s.c, s.tasks[j].guard);
    }
  }

  /** Changes that touch neither the log nor make any guard current. */
  lemma QuietKeeps(s: Sys, t: Sys)
    requires Inv(s) && t.log == s.log && s.now <= t.now && t.c.prefix == s.c.prefix && t.c.records == s.c.records
    requires TableOk(t.c) && t.c.l1.Keys <= s.c.l1.Keys && forall k | k in t.c.l1 :: t.c.l1[k] == s.c.l1[k]
    requires t.tasks.Keys == s.tasks.Keys && forall j | j in t.tasks :: t.tasks[j].guard == s.tasks[j].guard
    requires forall j | j in t.tasks && IsCurrent(t.c, t.tasks[j].guard) :: IsCurrent(s.c, s.tasks[j].guard)
    ensures Inv(t)
  {
    forall j | j in t.tasks ensures GuardInv(t, t.tasks[j].guard) { assert GuardInv(s, s.tasks[j].guard); }
  }

  lemma StepKeeps(before: Sys, step: Step)
    requires Inv(before)
    ensures Inv(Next(before, step))
  {
    var s := before.(now := before.now + 1);
    QuietKeeps(before, s);
    if step.FillLoaded? || step.Close? || step.Evict? {
      QuietKeeps(s, Next(before, step));
    } else {
      TaskStepKeeps(before, s, step);
    }
  }

  lemma TaskStepKeeps(before: Sys, s: Sys, step: Step)
    requires TableOk(before.c) && s == before.(now := before.now + 1) && Inv(s)
    requires !(step.FillLoaded? || step.Close? || step.Evict?)
    ensures Inv(Next(before, step))
  {
    hide Inv, IsCurrent, Begin, Install, Mutate, DeleteMatching, Release;
    var t := Next(before, step);
    match step
    case GetStart(id, key) => if t != s { BeginKeeps(s, id, key, false, if s.c.prefix + key in s.c.l1 then Done else GetL2); }
    case GetRead(id, usable) => if t != s { InstallKeeps(s, id, usable); }
    case FillStart(id, key) => if t != s { BeginKeeps(s, id, key, false, FillLoading); }
    case FillWritten(id, usable) => if t != s { InstallKeeps(s, id, usable); }
    case SetStart(id, key) => if t != s { MutateKeeps(s, id, key, true, SetWriting); }
    case SetWritten(id, usable) => if t != s { InstallKeeps(s, id, usable); }
    case DeleteStart(id, key) => if t != s { MutateKeeps(s, id, key, false, Done); }
    case PatternDelete(pattern) => PatternDeleteKeeps(s, pattern);
    case Settle(id) => if t != s { SettleKeeps(s, id); }
  }

  lemma PrefixStays(s: Sys, step: Step)
    requires TableOk(s.c)
    ensures Next(s, step).c.prefix == s.c.prefix
  {
  }

  ghost function After(prefix: seq<Unit>, l1: map<Key, Entry>, run: seq<Step>): (s: Sys)
    ensures Inv(s) && s.c.prefix == prefix
  {
    if run == [] then Fresh(prefix, l1)
    else
      var s := After(prefix, l1, run[..|run| - 1]);
      StepKeeps(s, run[|run| - 1]);
      PrefixStays(s, run[|run| - 1]);
      Next(s, run[|run| - 1])
  }

  /** In every interleaving, no L1 entry was installed by a task of this facade that observed its
      key before the key's latest set, delete or pattern delete whose purge reaches the key. */
  lemma NoObsoleteEntry(prefix: seq<Unit>, l1: map<Key, Entry>, run: seq<Step>, key: Key)
    requires prefix + key in After(prefix, l1, run).c.l1
    ensures var s := After(prefix, l1, run);
      forall m | m in s.log && Reached(prefix, m.target, key) :: m.at <= s.c.l1[prefix + key].observedAt
  {
    var s := After(prefix, l1, run);
    assert Inv(s);
  }

  /** That is every one of them when the key holds no line terminator, or the prefix is empty. */
  lemma NoObsoleteCleanEntry(prefix: seq<Unit>, l1: map<Key, Entry>, run: seq<Step>, key: Key)
    requires (prefix == [] || Pattern.Clean(key)) && prefix + key in After(prefix, l1, run).c.l1
    ensures var s := After(prefix, l1, run);
      forall m | m in s.log && CacheGuards.Hits(m.target, key) :: m.at <= s.c.l1[prefix + key].observedAt
  {
    NoObsoleteEntry(prefix, l1, run, key);
    var s := After(prefix, l1, run);
    forall m | m in s.log && CacheGuards.Hits(m.target, key) ensures Reached(prefix, m.target, key) {}
  }

  /** A pattern delete bumps tracked keys only, and still no matching guard stays current. */
  lemma PatternDeleteObsoletesGuards(prefix: seq<Unit>, l1: map<Key, Entry>, run: seq<Step>, pattern: seq<Unit>, id: TaskId)
    requires var s := After(prefix, l1, run); id in s.tasks && Pattern.Matches(s.tasks[id].guard.name, pattern)
    ensures !IsCurrent(DeleteMatching(After(prefix, l1, run).c, pattern), After(prefix, l1, run).tasks[id].guard)
  {
    var s := After(prefix, l1, run);
    assert GuardInv(s, s.tasks[id].guard);
  }

  /** Behind a prefix `clear()` leaves the entry of a key that holds a line terminator in L1. */
  lemma ClearMissesTerminators(c: Facade, key: Key)
    requires c.prefix + key in c.l1
    ensures Pattern.Matches(key, [Pattern.STAR])
    ensures c.prefix + key in DeleteMatching(c, [Pattern.STAR]).l1 <==> c.prefix != [] && !Pattern.Clean(key)
  {
    PurgeReaches(c.prefix, key, [Pattern.STAR]);
    OneStar(key);
  }

  /** The least such run: one fill, then `clear()`. */
  lemma ClearedEntrySurvives(id: TaskId, prefix: seq<Unit>, key: Key)
    requires prefix != [] && !Pattern.Clean(key)
    ensures var run := [FillStart(id, key), FillLoaded(id, true), FillWritten(id, true), PatternDelete([Pattern.STAR])];
      var s := After(prefix, map[], run);
      prefix + key in s.c.l1 && |s.log| == 1 && CacheGuards.Hits(s.log[0].target, key) &&
      s.c.l1[prefix + key].observedAt < s.log[0].at
  {
    hide After, Next, Inv, DeleteMatching, Pattern.Matches;
    var a, b, c, d := FillStart(id, key), FillLoaded(id, true), FillWritten(id, true), PatternDelete([Pattern.STAR]);
    assert After(prefix, map[], []) == Fresh(prefix, map[]) by { FreshAfter(prefix); }
    var s1 := AfterSnoc(prefix, map[], [], a);
    var s2 := AfterSnoc(prefix, map[], [a], b);
    var s3 := AfterSnoc(prefix, map[], [a, b], c);
    var s4 := AfterSnoc(prefix, map[], [a, b, c], d);
    assert [] + [a] == [a] && [a] + [b] == [a, b] && [a, b] + [c] == [a, b, c] && [a, b, c] + [d] == [a, b, c, d];
    Filled(id, prefix, key);
    Cleared(s3);
    ClearMissesTerminators(s3.c, key);
  }

  lemma FreshAfter(prefix: seq<Unit>)
    ensures After(prefix, map[], []) == Fresh(prefix, map[])
  {
  }

  lemma Filled(id: TaskId, prefix: seq<Unit>, key: Key)
    ensures var s := Next(Next(Next(Fresh(prefix, map[]), FillStart(id, key)), FillLoaded(id, true)), FillWritten(id, true));
      s.c.l1 == map[prefix + key := CacheGuards.Entry(1)] && s.log == [] && s.now == 3 && s.c.prefix == prefix && !s.c.closed
  {
    var s1 := Next(Fresh(prefix, map[]), FillStart(id, key));
    assert s1.tasks[id].guard == Guard(key, 0, 0, 0, 1) && At(s1, id, FillLoading) && IsCurrent(s1.c, s1.tasks[id].guard);
    var s2 := Next(s1, FillLoaded(id, true));
    assert s2.c == s1.c && s2.tasks[id].guard == s1.tasks[id].guard && At(s2, id, FillWriting);
  }

  lemma Cleared(s: Sys)
    requires TableOk(s.c) && !s.c.closed && s.log == []
    ensures var t := Next(s, PatternDelete([Pattern.STAR]));
      && t.c.l1 == DeleteMatching(s.c, [Pattern.STAR]).l1
      && (forall k | k in t.c.l1 :: t.c.l1[k] == s.c.l1[k])
      && t.log == [CacheGuards.Mutation(s.now + 1, CacheGuards.Matching([Pattern.STAR]), false)]
  {
  }

  lemma AfterSnoc(prefix: seq<Unit>, l1: map<Key, Entry>, run: seq<Step>, step: Step) returns (s: Sys)
    ensures s == After(prefix, l1, run + [step]) == Next(After(prefix, l1, run), step) && TableOk(s.c)
  {
    assert (run + [step])[..|run|] == run;
    s := After(prefix, l1, run + [step]);
  }

  // ---------- The synchronous bodies, as methods of the facade object ----------

  class CloudflareWorkerCache {
    const prefix: seq<Unit>
    var records: seq<Revision>
    var keyRevisions: map<Key, nat>
    var epoch: nat
    var closed: bool
    var l1: map<Key, Entry>

    ghost function State(): Facade
      reads this
    {
      Facade(prefix, records, keyRevisions, epoch, closed, l1)
    }

    constructor (prefix: seq<Unit>, l1: map<Key, Entry>)
      ensures State() == Facade(prefix, [], map[], 0, false, l1)
    {
      this.prefix, this.l1 := prefix, l1;
      records, keyRevisions, epoch, closed := [], map[], 0, false;
    }

    method ObserveKey(key: Key, mutate: bool, now: nat) returns (g: Guard)
      requires TableOk(State())
      modifies this`records, this`keyRevisions
      ensures State() == Observe(old(State()), key, mutate)
      ensures g.state < |records| && g == Guard(key, Observed(old(State()), key), records[g.state].value, epoch, now)
    {
      var i: nat;
      if key in keyRevisions {
        i := keyRevisions[key];
      } else {
        i := |records|;
        records := records + [Revision(key, 0, 0)];
        keyRevisions := keyRevisions[key := i];
      }
      records := records[i := records[i].(references := records[i].references + 1)];
      if mutate { records := records[i := records[i].(value := records[i].value + 1)]; }
      assert keyRevisions == old(keyRevisions)[key := i];
      g := Guard(key, i, records[i].value, epoch, now);
    }

    method ReleaseKey(g: Guard)
      requires g.state < |records| && 0 < records[g.state].references
      modifies this`records, this`keyRevisions
      ensures State() == Release(old(State()), g)
    {
      records := records[g.state := records[g.state].(references := records[g.state].references - 1)];
      if records[g.state].references == 0 && g.name in keyRevisions && keyRevisions[g.name] == g.state {
        keyRevisions := keyRevisions - {g.name};
      }
    }

    /** `deleteByPattern` up to its first await. */
    method DeleteByPattern(pattern: seq<Unit>)
      requires TableOk(State())
      modifies this`records, this`l1
      ensures State() == DeleteMatching(old(State()), pattern)
    {
      var keys := keyRevisions.Keys;
      while keys != {}
        modifies this`records
        invariant keys <= keyRevisions.Keys && |records| == |old(records)|
        invariant forall i | 0 <= i < |records| && old(records)[i].name in keys :: records[i] == old(records)[i]
        invariant forall i | 0 <= i < |records| && old(records)[i].name !in keys ::
          records[i] == Bump(old(records)[i], i, keyRevisions, pattern)
      {
        var key :| key in keys;
        var i := keyRevisions[key];
        var hit := Pattern.MatchesPattern(key, pattern);
        assert old(State()).records[i].name == key;
        if hit { records := records[i := records[i].(value := records[i].value + 1)]; }
        keys := keys - {key};
      }
      assert records == Bumped(old(records), keyRevisions, pattern);
      l1 := CacheGuards.DropMatching(l1, prefix + pattern);
    }

    method Close()
      modifies this`closed, this`epoch, this`keyRevisions
      ensures State() == (if old(closed) then old(State())
                          else old(State()).(closed := true, epoch := old(epoch) + 1, keyRevisions := map[]))
    {
      if closed { return; }
      closed, epoch, keyRevisions := true, epoch + 1, map[];
    }
  }
}
