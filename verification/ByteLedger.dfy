/** The process-wide byte ledger `MemoryBudget` and the byte-counted maps of `HybridCache`.
    Each method is proved to move the ledger's categories exactly as it moves the cache's own
    counters; conservation over any number of holders then follows for every interleaving. */
module ByteLedger {
  import opened Common
  import Utf16

  datatype Category = Fresh | Stale | Metadata | Queue | Transient | Coordination

  /** Bytes per category: of the whole ledger, or one holder's share of it. */
  datatype Books = Books(l1: nat, stale: nat, metadata: nat, queue: nat, transient: nat, coordination: nat) {
    function Of(c: Category): nat {
      match c
      case Fresh => l1
      case Stale => stale
      case Metadata => metadata
      case Queue => queue
      case Transient => transient
      case Coordination => coordination
    }

    function Set(c: Category, n: nat): (b: Books)
      ensures b.Of(c) == n && b.Total() == Total() - Of(c) + n
    {
      match c
      case Fresh => this.(l1 := n)
      case Stale => this.(stale := n)
      case Metadata => this.(metadata := n)
      case Queue => this.(queue := n)
      case Transient => this.(transient := n)
      case Coordination => this.(coordination := n)
    }

    function Total(): nat {
      l1 + stale + metadata + queue + transient + coordination
    }
  }

  const EMPTY := Books(0, 0, 0, 0, 0, 0)

  datatype Ledger = Ledger(hardCap: nat, lowest: nat, target: nat, used: nat, categories: Books)

  predicate Sound(l: Ledger) {
    1 <= l.lowest <= l.target <= l.hardCap && l.used == l.categories.Total() && l.used <= l.hardCap
  }

  /** A holder's move: every category changes by what the holder's own counters change by. */
  predicate Moves(l: Ledger, h: Books, l': Ledger, h': Books) {
    Sound(l') && l'.hardCap == l.hardCap && SameRest(l.categories, h, l'.categories, h')
  }

  predicate SameRest(b: Books, h: Books, b': Books, h': Books) {
    && b'.l1 - h'.l1 == b.l1 - h.l1 && b'.stale - h'.stale == b.stale - h.stale
    && b'.metadata - h'.metadata == b.metadata - h.metadata && b'.queue - h'.queue == b.queue - h.queue
    && b'.transient - h'.transient == b.transient - h.transient
    && b'.coordination - h'.coordination == b.coordination - h.coordination
  }

  /** No category holds less than the holder counts in it. */
  predicate Covers(b: Books, h: Books) {
    && h.l1 <= b.l1 && h.stale <= b.stale && h.metadata <= b.metadata && h.queue <= b.queue
    && h.transient <= b.transient && h.coordination <= b.coordination
  }

  // ---------- Many holders ----------

  function Sum(hs: seq<Books>, c: Category): nat {
    if hs == [] then 0 else Sum(hs[..|hs| - 1], c) + hs[|hs| - 1].Of(c)
  }

  /** Each category equals the sum of its holders' live counters. */
  ghost predicate Balanced(l: Ledger, hs: seq<Books>) {
    forall c: Category :: l.categories.Of(c) == Sum(hs, c)
  }

  lemma {:induction false} SumUpdated(hs: seq<Books>, i: nat, h: Books, c: Category)
    requires i < |hs|
    ensures Sum(hs[i := h], c) == Sum(hs, c) - hs[i].Of(c) + h.Of(c)
    ensures hs[i].Of(c) <= Sum(hs, c)
  {
    var n := |hs| - 1;
    if i == n {
      assert hs[i := h][..n] == hs[..n];
    } else {
      assert hs[i := h][..n] == hs[..n][i := h];
      SumUpdated(hs[..n], i, h, c);
    }
  }

  /** The ledger and its holders; `target` moves by itself when memory is sampled. */
  datatype World = World(ledger: Ledger, holders: seq<Books>)

  ghost predicate HolderMoves(w: World, w': World, i: nat) {
    && i < |w.holders| && |w'.holders| == |w.holders| && w'.holders == w.holders[i := w'.holders[i]]
    && Moves(w.ledger, w.holders[i], w'.ledger, w'.holders[i])
  }

  ghost predicate Next(w: World, w': World) {
    || (exists i: nat :: HolderMoves(w, w', i))
    || (w'.ledger == w.ledger && w'.holders == w.holders + [EMPTY])
    || (w'.holders == w.holders && w'.ledger == w.ledger.(target := w'.ledger.target) && Sound(w'.ledger))
  }

  ghost predicate Run(ws: seq<World>) {
    && ws != [] && ws[0].holders == [] && ws[0].ledger.categories == EMPTY && Sound(ws[0].ledger)
    && forall i | 0 <= i < |ws| - 1 :: Next(ws[i], ws[i + 1])
  }

  /** In every interleaving each category is the sum of the holders' counters, no holder's
      counter exceeds its category, and the hard cap holds. */
  lemma {:induction false} AlwaysBalanced(ws: seq<World>, n: nat)
    requires Run(ws) && n < |ws|
    ensures Balanced(ws[n].ledger, ws[n].holders) && Sound(ws[n].ledger) && ws[n].ledger.used <= ws[0].ledger.hardCap
    ensures forall i | 0 <= i < |ws[n].holders| :: Covers(ws[n].ledger.categories, ws[n].holders[i])
    ensures ws[n].ledger.hardCap == ws[0].ledger.hardCap
  {
    if n == 0 {
      forall c: Category ensures ws[0].ledger.categories.Of(c) == Sum(ws[0].holders, c) {}
    } else {
      AlwaysBalanced(ws, n - 1);
      var w, w' := ws[n - 1], ws[n];
      assert Next(ws[n - 1], ws[n - 1 + 1]);
      NextBalanced(w, w');
    }
    forall i | 0 <= i < |ws[n].holders| ensures Covers(ws[n].ledger.categories, ws[n].holders[i]) {
      HolderIsCovered(ws[n].ledger, ws[n].holders, i);
    }
  }

  lemma HolderIsCovered(l: Ledger, hs: seq<Books>, i: nat)
    requires i < |hs| && forall c: Category :: Sum(hs, c) <= l.categories.Of(c)
    ensures Covers(l.categories, hs[i])
  {
    forall c: Category ensures hs[i].Of(c) <= l.categories.Of(c) { SumUpdated(hs, i, EMPTY, c); }
    var b, h := l.categories, hs[i];
    assert h.Of(Fresh) <= b.Of(Fresh) && h.Of(Stale) <= b.Of(Stale) && h.Of(Metadata) <= b.Of(Metadata);
    assert h.Of(Queue) <= b.Of(Queue) && h.Of(Transient) <= b.Of(Transient) && h.Of(Coordination) <= b.Of(Coordination);
  }

  lemma NextBalanced(w: World, w': World)
    requires Balanced(w.ledger, w.holders) && Sound(w.ledger) && Next(w, w')
    ensures Balanced(w'.ledger, w'.holders) && Sound(w'.ledger) && w'.ledger.hardCap == w.ledger.hardCap
  {
    forall c: Category ensures w'.ledger.categories.Of(c) == Sum(w'.holders, c) {
      if i: nat :| HolderMoves(w, w', i) {
        SumUpdated(w.holders, i, w'.holders[i], c);
      } else if w'.holders == w.holders + [EMPTY] {
        assert w'.holders[..|w.holders|] == w.holders;
      }
    }
  }

  /** When every holder has given its bytes back, nothing is accounted. */
  lemma {:induction false} SettledMeansEmpty(l: Ledger, hs: seq<Books>)
    requires Sound(l) && Balanced(l, hs) && forall i | 0 <= i < |hs| :: hs[i] == EMPTY
    ensures l.used == 0
  {
    forall c: Category ensures Sum(hs, c) == 0 { SumOfEmpty(hs, c); }
    assert forall c: Category :: l.categories.Of(c) == 0;
    assert l.categories.Of(Fresh) == 0 && l.categories.Of(Stale) == 0 && l.categories.Of(Metadata) == 0;
    assert l.categories.Of(Queue) == 0 && l.categories.Of(Transient) == 0 && l.categories.Of(Coordination) == 0;
  }

  lemma {:induction false} SumOfEmpty(hs: seq<Books>, c: Category)
    requires forall i | 0 <= i < |hs| :: hs[i] == EMPTY
    ensures Sum(hs, c) == 0
  {
    if hs != [] {
      SumOfEmpty(hs[..|hs| - 1], c);
      assert hs[|hs| - 1] == EMPTY;
    }
  }

  // ---------- Memory pressure ----------

  datatype Pressure = Normal | Pressured | Critical

  datatype Gauge = Gauge(target: nat, state: Pressure, pressureAt: Option<int>, recoveryAt: Option<int>)

  /** What one sample says: `MemorySignals` with the load average in hundredths. */
  datatype Signals = Signals(available: Option<nat>, effective: Option<nat>, psi: Option<nat>)

  predicate RatioBelow(s: Signals, hardCap: nat, percent: nat) {
    var capacity := if s.effective.Some? then s.effective.value else hardCap;
    s.available.Some? && 0 < capacity && 100 * s.available.value < percent * capacity
  }

  predicate PsiAtLeast(s: Signals, hundredths: nat) {
    s.psi.Some? && hundredths <= s.psi.value
  }

  function Retarget(l: Ledger, g: Gauge, s: Signals, now: int, pressureWindow: nat, recoveryWindow: nat): Gauge {
    if l.hardCap < l.used || RatioBelow(s, l.hardCap, 5) || PsiAtLeast(s, 5000) then
      Gauge(Max(l.lowest, g.target * 7 / 10), Critical, Some(now), None)
    else if g.target < l.used || RatioBelow(s, l.hardCap, 15) || PsiAtLeast(s, 1000) then
      var since := if g.pressureAt.Some? then g.pressureAt.value else now;
      if pressureWindow <= now - since then Gauge(Max(l.lowest, l.hardCap * 7 / 10), Pressured, Some(since), None)
      else g.(pressureAt := Some(since), recoveryAt := None)
    else
      var since := if g.recoveryAt.Some? then g.recoveryAt.value else now;
      if recoveryWindow <= now - since
      then Gauge(Min(l.hardCap, g.target + Max(1, l.hardCap * 5 / 100)), Normal, None, Some(since))
      else g.(pressureAt := None, recoveryAt := Some(since))
  }

  /** A calm sample: nothing over target, no signal. */
  predicate Calm(l: Ledger, g: Gauge, s: Signals) {
    l.used <= g.target && !RatioBelow(s, l.hardCap, 15) && !PsiAtLeast(s, 1000)
  }

  /** The gauge after the same signals are sampled at each of the times. */
  function Sampled(l: Ledger, g: Gauge, s: Signals, times: seq<int>, pressureWindow: nat, recoveryWindow: nat): Gauge {
    if times == [] then g
    else Retarget(l, Sampled(l, g, s, times[..|times| - 1], pressureWindow, recoveryWindow), s, times[|times| - 1],
                  pressureWindow, recoveryWindow)
  }

  /** Once memory has been calm for the recovery window, every calm sample raises the target by
      one step, up to the hard cap. */
  lemma {:induction false} TargetRecovers(l: Ledger, g: Gauge, s: Signals, times: seq<int>, pressureWindow: nat, recoveryWindow: nat)
    requires Sound(l) && l.target == g.target && Calm(l, g, s) && g.recoveryAt.Some?
    requires forall i | 0 <= i < |times| :: recoveryWindow <= times[i] - g.recoveryAt.value
    ensures var r, step := Sampled(l, g, s, times, pressureWindow, recoveryWindow), Max(1, l.hardCap * 5 / 100);
      && r.target == Min(l.hardCap, g.target + |times| * step) && r.recoveryAt == g.recoveryAt
      && (times != [] ==> r.state == Normal)
  {
    hide Retarget, RatioBelow, PsiAtLeast;
    if times != [] {
      var n, step := |times| - 1, Max(1, l.hardCap * 5 / 100);
      TargetRecovers(l, g, s, times[..n], pressureWindow, recoveryWindow);
      var before := Sampled(l, g, s, times[..n], pressureWindow, recoveryWindow);
      assert (n + 1) * step == n * step + step && 0 <= n * step;
      assert Calm(l, before, s);
      CalmStep(l, before, s, times[n], pressureWindow, recoveryWindow);
    }
  }

  lemma CalmStep(l: Ledger, g: Gauge, s: Signals, now: int, pressureWindow: nat, recoveryWindow: nat)
    requires Sound(l) && Calm(l, g, s) && g.recoveryAt.Some? && recoveryWindow <= now - g.recoveryAt.value
    ensures Retarget(l, g, s, now, pressureWindow, recoveryWindow) ==
      Gauge(Min(l.hardCap, g.target + Max(1, l.hardCap * 5 / 100)), Normal, None, g.recoveryAt)
  {
  }

  lemma TargetStaysInRange(l: Ledger, g: Gauge, s: Signals, now: int, pressureWindow: nat, recoveryWindow: nat)
    requires Sound(l) && l.target == g.target
    ensures l.lowest <= Retarget(l, g, s, now, pressureWindow, recoveryWindow).target <= l.hardCap
    ensures Retarget(l, g, s, now, pressureWindow, recoveryWindow).state.Critical? ==>
      Retarget(l, g, s, now, pressureWindow, recoveryWindow).target <= g.target
  {
  }

  class MemoryBudget {
    const hardCap: nat
    const lowest: nat
    var target: nat
    var used: nat
    var categories: Books
    var state: Pressure
    var pressureAt: Option<int>
    var recoveryAt: Option<int>

    function State(): Ledger
      reads this
    {
      Ledger(hardCap, lowest, target, used, categories)
    }

    function Reading(): Gauge
      reads this
    {
      Gauge(target, state, pressureAt, recoveryAt)
    }

    constructor (hardCap: nat, minMemory: Option<nat>)
      requires 0 < hardCap && (minMemory.Some? ==> 0 < minMemory.value <= hardCap)
      ensures Sound(State()) && categories == EMPTY && this.hardCap == hardCap
    {
      this.hardCap, this.lowest := hardCap, if minMemory.Some? then minMemory.value else 1;
      target, used, categories := hardCap, 0, EMPTY;
      state, pressureAt, recoveryAt := Normal, None, None;
    }

    method TryReserve(bytes: nat, category: Category) returns (ok: bool)
      requires Sound(State())
      modifies this`used, this`categories
      ensures Sound(State()) && ok == (old(used) + bytes <= target)
      ensures categories == if ok then old(categories).Set(category, old(categories).Of(category) + bytes) else old(categories)
    {
      if target < used + bytes { return false; }
      used := used + bytes;
      categories := categories.Set(category, categories.Of(category) + bytes);
      ok := true;
    }

    /** Clamped to what the category holds. */
    method Release(bytes: nat, category: Category)
      requires Sound(State())
      modifies this`used, this`categories
      ensures Sound(State())
      ensures categories == old(categories).Set(category, Max(0, old(categories).Of(category) - bytes))
    {
      var prior := categories.Of(category);
      var amount := Min(Min(bytes, prior), used);
      if amount == 0 { return; }
      categories := categories.Set(category, prior - amount);
      used := used - amount;
    }

    method Sample(s: Signals, now: int, pressureWindow: nat, recoveryWindow: nat)
      requires Sound(State())
      modifies this`target, this`state, this`pressureAt, this`recoveryAt
      ensures Reading() == Retarget(old(State()), old(Reading()), s, now, pressureWindow, recoveryWindow)
      ensures Sound(State())
    {
      var critical := hardCap < used || RatioBelow(s, hardCap, 5) || PsiAtLeast(s, 5000);
      var pressured := !critical && (target < used || RatioBelow(s, hardCap, 15) || PsiAtLeast(s, 1000));
      if critical {
        state := Critical;
        target := Max(lowest, target * 7 / 10);
        pressureAt, recoveryAt := Some(now), None;
      } else if pressured {
        if pressureAt == None { pressureAt := Some(now); }
        recoveryAt := None;
        if pressureWindow <= now - pressureAt.value {
          state := Pressured;
          target := Max(lowest, hardCap * 7 / 10);
        }
      } else {
        if recoveryAt == None { recoveryAt := Some(now); }
        pressureAt := None;
        if recoveryWindow <= now - recoveryAt.value {
          state := Normal;
          target := Min(hardCap, target + Max(1, hardCap * 5 / 100));
        }
      }
    }
  }
}
