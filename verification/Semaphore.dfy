/** One bounded FIFO semaphore, which the operation gates and the handler queue all refine.
    Arrivals start at once, wait, or are refused; whoever waits settles exactly once. */
module Semaphore {
  import opened Common

  /** An arrival: its number, its bytes and, where it has one, its deadline. */
  datatype Item = Item(id: nat, bytes: nat, deadline: Option<int>)

  datatype Fate = Started | Refused | Expired | Cancelled | ClosedOut

  /** `settled`, `starts` and `next` are history: what became of each arrival, which started in
      which order, and how many there were. */
  datatype Sem = Sem(
    limit: nat, running: seq<Item>, queue: seq<Item>, closed: bool,
    settled: map<nat, Fate>, starts: seq<nat>, next: nat)

  function Fresh(limit: nat): Sem {
    Sem(limit, [], [], false, map[], [], 0)
  }

  function Bytes(items: seq<Item>): nat {
    if items == [] then 0 else items[0].bytes + Bytes(items[1..])
  }

  predicate Waits(queue: seq<Item>, id: nat) {
    queue != [] && (queue[0].id == id || Waits(queue[1..], id))
  }

  function IndexOf(items: seq<Item>, id: nat): (i: nat)
    ensures i <= |items|
    ensures i < |items| ==> items[i].id == id
    ensures i == |items| ==> forall j | 0 <= j < |items| :: items[j].id != id
  {
    if items == [] then 0 else if items[0].id == id then 0 else 1 + IndexOf(items[1..], id)
  }

  function Without(items: seq<Item>, i: nat): seq<Item>
    requires i < |items|
  {
    items[..i] + items[i + 1..]
  }

  // ---------- The invariant ----------

  /** Arrivals wait in order, none has settled yet, and nobody else is unsettled. */
  ghost predicate QueueOk(queue: seq<Item>, settled: map<nat, Fate>, next: nat) {
    && (forall i, j | 0 <= i < j < |queue| :: queue[i].id < queue[j].id)
    && (forall i | 0 <= i < |queue| :: queue[i].id < next && queue[i].id !in settled)
    && (forall id: nat | id < next && id !in settled :: Waits(queue, id))
    && (forall id | id in settled :: id < next)
  }

  /** Starts are in arrival order, and everyone waiting arrived later. */
  ghost predicate StartsOk(starts: seq<nat>, queue: seq<Item>, settled: map<nat, Fate>, next: nat) {
    && (forall i, j | 0 <= i < j < |starts| :: starts[i] < starts[j])
    && (forall i | 0 <= i < |starts| :: starts[i] in settled && settled[starts[i]] == Started)
    && (starts != [] ==> starts[|starts| - 1] < next)
    && (starts != [] && queue != [] ==> starts[|starts| - 1] < queue[0].id)
  }

  /** At most `limit` run; while open, somebody waits only if every slot is busy. */
  predicate SlotsOk(s: Sem) {
    && 0 < s.limit && |s.running| <= s.limit && (s.closed ==> s.queue == [])
    && (s.queue != [] ==> |s.running| == s.limit)
  }

  ghost predicate Inv(s: Sem) {
    SlotsOk(s) && QueueOk(s.queue, s.settled, s.next) && StartsOk(s.starts, s.queue, s.settled, s.next)
  }

  /** What is settled stays settled as it was. */
  ghost predicate Keeps(before: map<nat, Fate>, after: map<nat, Fate>) {
    forall id | id in before :: id in after && after[id] == before[id]
  }

  predicate SameShape(s: Sem, t: Sem) {
    t.next == s.next && t.limit == s.limit
  }

  // ---------- The steps ----------

  function Launch(s: Sem, item: Item): Sem {
    s.(running := s.running + [item], settled := s.settled[item.id := Started], starts := s.starts + [item.id])
  }

  predicate Late(item: Item, now: int) {
    item.deadline.Some? && item.deadline.value <= now
  }

  /** Free slots go to the queue from its front; who is past the deadline is passed over. */
  function Refill(s: Sem, now: int): Sem
    decreases |s.queue|
  {
    if s.limit <= |s.running| || s.queue == [] then s
    else
      var head, popped := s.queue[0], s.(queue := s.queue[1..]);
      Refill(if Late(head, now) then popped.(settled := popped.settled[head.id := Expired]) else Launch(popped, head), now)
  }

  function Arrive(s: Sem, bytes: nat, deadline: Option<int>, fits: bool): Sem {
    var item, t := Item(s.next, bytes, deadline), s.(next := s.next + 1);
    if s.closed then t.(settled := t.settled[item.id := Refused])
    else if |s.running| < s.limit && s.queue == [] then Launch(t, item)
    else if fits then t.(queue := t.queue + [item])
    else t.(settled := t.settled[item.id := Refused])
  }

  /** An arrival that is turned away before it asks for a slot. */
  function TurnAway(s: Sem): Sem {
    s.(next := s.next + 1, settled := s.settled[s.next := Refused])
  }

  function Finish(s: Sem, i: nat, now: int): Sem
    requires i < |s.running|
  {
    var t := s.(running := Without(s.running, i));
    if s.closed then t else Refill(t, now)
  }

  /** A waiter's timer fires or its signal aborts; late for anybody else. */
  function Leave(s: Sem, id: nat, fate: Fate): Sem {
    var i := IndexOf(s.queue, id);
    if i == |s.queue| then s else s.(queue := Without(s.queue, i), settled := s.settled[id := fate])
  }

  function Fates(settled: map<nat, Fate>, queue: seq<Item>, fate: Fate): map<nat, Fate>
    decreases queue
  {
    if queue == [] then settled else Fates(settled[queue[0].id := fate], queue[1..], fate)
  }

  /** All who wait are sent away. */
  function Discard(s: Sem, fate: Fate): Sem {
    s.(queue := [], settled := Fates(s.settled, s.queue, fate))
  }

  function Close(s: Sem): Sem {
    if s.closed then s else Discard(s, ClosedOut).(closed := true)
  }

  // ---------- They keep the invariant and settle nobody twice ----------

  lemma {:induction false} WaitsAt(queue: seq<Item>, id: nat)
    ensures Waits(queue, id) <==> exists i :: 0 <= i < |queue| && queue[i].id == id
  {
    if queue != [] {
      WaitsAt(queue[1..], id);
      if i :| 0 <= i < |queue| && queue[i].id == id { if 0 < i { assert queue[1..][i - 1].id == id; } }
    }
  }

  lemma SettleHead(queue: seq<Item>, settled: map<nat, Fate>, next: nat, fate: Fate)
    requires QueueOk(queue, settled, next) && queue != []
    ensures QueueOk(queue[1..], settled[queue[0].id := fate], next)
  {
    var s' := settled[queue[0].id := fate];
    forall id: nat | id < next && id !in s' ensures Waits(queue[1..], id) { assert Waits(queue, id); }
  }

  lemma SettleAt(queue: seq<Item>, settled: map<nat, Fate>, next: nat, i: nat, fate: Fate)
    requires QueueOk(queue, settled, next) && i < |queue|
    ensures QueueOk(Without(queue, i), settled[queue[i].id := fate], next)
  {
    var q', s' := Without(queue, i), settled[queue[i].id := fate];
    assert forall k | 0 <= k < |q'| :: q'[k] == queue[if k < i then k else k + 1];
    forall id: nat | id < next && id !in s' ensures Waits(q', id) {
      WaitsAt(queue, id);
      WaitsAt(q', id);
      var k :| 0 <= k < |queue| && queue[k].id == id;
      assert q'[if k < i then k else k - 1].id == id;
    }
  }

  lemma Queued(queue: seq<Item>, settled: map<nat, Fate>, item: Item)
    requires QueueOk(queue, settled, item.id)
    ensures QueueOk(queue + [item], settled, item.id + 1)
  {
    var q' := queue + [item];
    forall id: nat | id < item.id + 1 && id !in settled ensures Waits(q', id) {
      WaitsAt(queue, id);
      WaitsAt(q', id);
      if id < item.id {
        var k :| 0 <= k < |queue| && queue[k].id == id;
        assert q'[k].id == id;
      } else {
        assert q'[|queue|].id == id;
      }
    }
  }

  /** An arrival settles without waiting. */
  lemma Unqueued(queue: seq<Item>, settled: map<nat, Fate>, next: nat, fate: Fate)
    requires QueueOk(queue, settled, next)
    ensures QueueOk(queue, settled[next := fate], next + 1) && next !in settled
  {
  }

  lemma {:induction false} RefillKeeps(s: Sem, now: int)
    requires 0 < s.limit && |s.running| <= s.limit && (s.closed ==> s.queue == [])
    requires QueueOk(s.queue, s.settled, s.next) && StartsOk(s.starts, s.queue, s.settled, s.next)
    ensures Inv(Refill(s, now)) && Keeps(s.settled, Refill(s, now).settled) && SameShape(s, Refill(s, now))
    decreases |s.queue|
  {
    if |s.running| < s.limit && s.queue != [] {
      var head, popped := s.queue[0], s.(queue := s.queue[1..]);
      var t := if Late(head, now) then popped.(settled := popped.settled[head.id := Expired]) else Launch(popped, head);
      SettleHead(s.queue, s.settled, s.next, if Late(head, now) then Expired else Started);
      RefillKeeps(t, now);
    }
  }

  lemma ArriveKeeps(s: Sem, bytes: nat, deadline: Option<int>, fits: bool)
    requires Inv(s)
    ensures var t := Arrive(s, bytes, deadline, fits); Inv(t) && Keeps(s.settled, t.settled) && t.next == s.next + 1 && t.limit == s.limit
  {
    var item := Item(s.next, bytes, deadline);
    Queued(s.queue, s.settled, item);
    Unqueued(s.queue, s.settled, s.next, Refused);
    Unqueued(s.queue, s.settled, s.next, Started);
  }

  lemma TurnAwayKeeps(s: Sem)
    requires Inv(s)
    ensures Inv(TurnAway(s)) && Keeps(s.settled, TurnAway(s).settled) && TurnAway(s).next == s.next + 1 && TurnAway(s).limit == s.limit
  {
    Unqueued(s.queue, s.settled, s.next, Refused);
  }

  lemma FinishKeeps(s: Sem, i: nat, now: int)
    requires Inv(s) && i < |s.running|
    ensures Inv(Finish(s, i, now)) && Keeps(s.settled, Finish(s, i, now).settled) && SameShape(s, Finish(s, i, now))
  {
    RefillKeeps(s.(running := Without(s.running, i)), now);
  }

  lemma LeaveKeeps(s: Sem, id: nat, fate: Fate)
    requires Inv(s) && fate != Started
    ensures Inv(Leave(s, id, fate)) && Keeps(s.settled, Leave(s, id, fate).settled) && SameShape(s, Leave(s, id, fate))
    ensures id in s.settled ==> Leave(s, id, fate) == s
  {
    var i := IndexOf(s.queue, id);
    if i < |s.queue| { SettleAt(s.queue, s.settled, s.next, i, fate); }
  }

  lemma {:induction false} FatesKeep(queue: seq<Item>, settled: map<nat, Fate>, next: nat, fate: Fate)
    requires QueueOk(queue, settled, next)
    ensures var r := Fates(settled, queue, fate); QueueOk([], r, next) && Keeps(settled, r)
  {
    if queue != [] {
      SettleHead(queue, settled, next, fate);
      FatesKeep(queue[1..], settled[queue[0].id := fate], next, fate);
    }
  }

  lemma DiscardKeeps(s: Sem, fate: Fate)
    requires Inv(s)
    ensures Inv(Discard(s, fate)) && Keeps(s.settled, Discard(s, fate).settled) && SameShape(s, Discard(s, fate))
    ensures Inv(Close(s)) && Keeps(s.settled, Close(s).settled) && SameShape(s, Close(s))
  {
    FatesKeep(s.queue, s.settled, s.next, fate);
    FatesKeep(s.queue, s.settled, s.next, ClosedOut);
  }

  // ---------- Every run ----------

  datatype Step =
    | Arrival(bytes: nat, deadline: Option<int>, fits: bool)
    | Unwelcome
    | Completion(i: nat, now: int)
    | Departure(id: nat, fate: Fate)
    | Dismissal
    | Closing

  function Next(s: Sem, step: Step): Sem {
    match step
    case Arrival(bytes, deadline, fits) => Arrive(s, bytes, deadline, fits)
    case Unwelcome => TurnAway(s)
    case Completion(i, now) => if i < |s.running| then Finish(s, i, now) else s
    case Departure(id, fate) => if fate.Started? then s else Leave(s, id, fate)
    case Dismissal => Discard(s, Cancelled)
    case Closing => Close(s)
  }

  lemma NextKeeps(s: Sem, step: Step)
    requires Inv(s)
    ensures Inv(Next(s, step)) && Keeps(s.settled, Next(s, step).settled) && s.next <= Next(s, step).next && Next(s, step).limit == s.limit
  {
    hide Inv, Arrive, TurnAway, Finish, Leave, Discard, Close;
    match step
    case Arrival(bytes, deadline, fits) => ArriveKeeps(s, bytes, deadline, fits);
    case Unwelcome => TurnAwayKeeps(s);
    case Completion(i, now) => if i < |s.running| { FinishKeeps(s, i, now); }
    case Departure(id, fate) => if !fate.Started? { LeaveKeeps(s, id, fate); }
    case Dismissal => DiscardKeeps(s, Cancelled);
    case Closing => DiscardKeeps(s, Cancelled);
  }

  ghost function After(limit: nat, run: seq<Step>, n: nat): (s: Sem)
    requires 0 < limit && n <= |run|
    ensures Inv(s) && s.limit == limit
  {
    if n == 0 then Fresh(limit)
    else
      var s := After(limit, run, n - 1);
      NextKeeps(s, run[n - 1]);
      Next(s, run[n - 1])
  }

  /** In every run: never more than `limit` run; while open, somebody waits only if every slot is
      busy; starts are in order of arrival; everybody who arrived waits or has settled, not both. */
  lemma SemaphoreIsBoundedAndFair(limit: nat, run: seq<Step>, n: nat)
    requires 0 < limit && n <= |run|
    ensures var s := After(limit, run, n);
      && |s.running| <= limit
      && (!s.closed && |s.running| < limit ==> s.queue == [])
      && (forall i, j | 0 <= i < j < |s.starts| :: s.starts[i] < s.starts[j])
      && (forall id: nat | id < s.next :: id in s.settled <==> !Waits(s.queue, id))
  {
    var s := After(limit, run, n);
    forall id: nat | id < s.next ensures id in s.settled <==> !Waits(s.queue, id) { WaitsAt(s.queue, id); }
  }

  /** Nobody settles twice: a fate, once known, never changes. */
  lemma {:induction false} SettledOnce(limit: nat, run: seq<Step>, m: nat, n: nat, id: nat)
    requires 0 < limit && m <= n <= |run| && id in After(limit, run, m).settled
    ensures id in After(limit, run, n).settled && After(limit, run, n).settled[id] == After(limit, run, m).settled[id]
    decreases n
  {
    hide Inv, Next;
    if m < n {
      SettledOnce(limit, run, m, n - 1, id);
      NextKeeps(After(limit, run, n - 1), run[n - 1]);
    }
  }

  /** After the close nobody waits and nobody starts. */
  lemma {:induction false} ClosedForGood(limit: nat, run: seq<Step>, m: nat, n: nat)
    requires 0 < limit && m <= n <= |run| && After(limit, run, m).closed
    ensures var s := After(limit, run, n); s.closed && s.queue == [] && s.starts == After(limit, run, m).starts
    decreases n
  {
    hide Inv, Next;
    if m < n {
      ClosedForGood(limit, run, m, n - 1);
      ClosedStep(After(limit, run, n - 1), run[n - 1]);
    } else {
      ClosedMeansEmpty(After(limit, run, m));
    }
  }

  lemma ClosedMeansEmpty(s: Sem)
    requires Inv(s)
    ensures s.closed ==> s.queue == []
  {
  }

  lemma ClosedStep(s: Sem, step: Step)
    requires s.closed && s.queue == []
    ensures Next(s, step).closed && Next(s, step).queue == [] && Next(s, step).starts == s.starts
  {
  }

  // ---------- Counters beside the sequences ----------

  lemma {:induction false} BytesAppend(items: seq<Item>, item: Item)
    ensures Bytes(items + [item]) == Bytes(items) + item.bytes
  {
    if items == [] {
      assert items + [item] == [item] && [item][1..] == [];
    } else {
      assert (items + [item])[1..] == items[1..] + [item];
      BytesAppend(items[1..], item);
    }
  }

  lemma {:induction false} BytesWithout(items: seq<Item>, i: nat)
    requires i < |items|
    ensures Bytes(items) == Bytes(Without(items, i)) + items[i].bytes
  {
    if i == 0 {
      assert Without(items, 0) == items[1..];
    } else {
      BytesWithout(items[1..], i - 1);
      assert Without(items, i)[1..] == Without(items[1..], i - 1);
    }
  }

  /** What a closed queue's waiters settle with. */
  lemma {:induction false} FatesFrom(settled: map<nat, Fate>, queue: seq<Item>, fate: Fate, i: nat)
    requires i < |queue|
    ensures Fates(settled, queue[i..], fate) == Fates(settled[queue[i].id := fate], queue[i + 1..], fate)
  {
    assert queue[i..][1..] == queue[i + 1..];
  }

  /** Visits the waiters in order. */
  ghost method SettleAll(settled: map<nat, Fate>, queue: seq<Item>, fate: Fate) returns (r: map<nat, Fate>)
    ensures r == Fates(settled, queue, fate)
  {
    r := settled;
    var i := 0;
    assert queue[0..] == queue;
    while i < |queue|
      invariant i <= |queue| && Fates(r, queue[i..], fate) == Fates(settled, queue, fate)
    {
      FatesFrom(r, queue, fate, i);
      r := r[queue[i].id := fate];
      i := i + 1;
    }
    assert queue[i..] == [];
  }

  lemma ClosedIsEmpty(s: Sem)
    requires Inv(s)
    ensures s.closed ==> s.queue == []
    ensures s.closed ==> Discard(s, ClosedOut).(closed := true) == s
    ensures s.queue == [] ==> forall now :: Refill(s, now) == s
  {
  }

  lemma CloseIs(s: Sem)
    requires Inv(s)
    ensures Inv(Close(s)) && (s.closed ==> Close(s) == s)
    ensures Close(s) == s.(queue := [], settled := Fates(s.settled, s.queue, ClosedOut), closed := true)
    ensures Bytes([]) == 0 && NoDeadlines([])
  {
    DiscardKeeps(s, ClosedOut);
  }

  lemma SlotsFacts(s: Sem)
    requires Inv(s)
    ensures s.closed ==> s.queue == []
    ensures s.queue != [] ==> |s.running| == s.limit
  {
  }

  predicate NoDeadlines(queue: seq<Item>) {
    forall i | 0 <= i < |queue| :: queue[i].deadline == None
  }

  /** A completion lets one waiter start, if there is one; waiters here have no deadline of their
      own once they are at the front. */
  lemma FinishLaunchesOne(s: Sem, i: nat, now: int)
    requires Inv(s) && i < |s.running| && NoDeadlines(s.queue)
    ensures var t := s.(running := Without(s.running, i));
      Finish(s, i, now) == if s.closed || s.queue == [] then t else Launch(t.(queue := s.queue[1..]), s.queue[0])
  {
    var t := s.(running := Without(s.running, i));
    if !s.closed && s.queue != [] {
      var u := Launch(t.(queue := s.queue[1..]), s.queue[0]);
      assert |u.running| == s.limit;
      assert Refill(u, now) == u;
    }
  }

  lemma AddedThenDrained(s: Sem, bytes: nat)
    requires Inv(s)
    ensures var item := Item(s.next, bytes, None);
      !s.closed ==> Arrive(s, bytes, None, true) == Refill(s.(queue := s.queue + [item], next := s.next + 1), 0)
  {
    var item := Item(s.next, bytes, None);
    var t := s.(queue := s.queue + [item], next := s.next + 1);
    if !s.closed && |s.running| < s.limit {
      assert t.queue == [item] && t.queue[1..] == [];
      var u := Launch(t.(queue := []), item);
      assert Refill(t, 0) == Refill(u, 0) == u;
    }
  }

  lemma {:induction false} IndexAppended(items: seq<Item>, item: Item, id: nat)
    ensures IndexOf(items, id) < |items| ==> IndexOf(items + [item], id) < |items| + 1
    ensures id == item.id ==> IndexOf(items + [item], id) < |items| + 1
  {
    if id == item.id { assert (items + [item])[|items|].id == id; }
    var i := IndexOf(items, id);
    if i < |items| { assert (items + [item])[i].id == id; }
  }

  lemma IndexKept(items: seq<Item>, i: nat, other: nat)
    requires i < |items| && IndexOf(items, other) < |items| && items[i].id != other
    ensures IndexOf(Without(items, i), other) < |items| - 1
  {
    var k, rest := IndexOf(items, other), Without(items, i);
    assert rest[if k < i then k else k - 1].id == other;
  }

  /** The three ways an arrival can go. */
  lemma ArriveCases(s: Sem, bytes: nat, deadline: Option<int>, fits: bool)
    requires Inv(s)
    ensures (s.queue != [] ==> |s.running| == s.limit) && (!s.closed ==>
      var item := Item(s.next, bytes, deadline);
      Arrive(s, bytes, deadline, fits) ==
        if |s.running| < s.limit then Launch(s.(next := s.next + 1), item)
        else if fits then s.(queue := s.queue + [item], next := s.next + 1)
        else TurnAway(s))
    ensures s.closed ==> Arrive(s, bytes, deadline, fits) == TurnAway(s)
  {
  }
}
