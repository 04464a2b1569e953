/** The gates in front of Redis and of the second tier, and the handler queue.
    Each keeps counters where the semaphore has sequences; each is proved to take the
    semaphore's steps and to keep its counters equal to the sums. */
module Gates {
  import opened Common
  import opened Semaphore

  // ---------- The gate in front of Redis transactions ----------

  class BoundedOperationGate {
    const maxConcurrent: nat
    const maxQueued: nat
    const maxQueuedBytes: nat
    var active: nat
    var activeBytes: nat
    var queuedBytes: nat
    var queue: seq<Item>
    var closed: bool
    var nextId: nat
    ghost var running: seq<Item>
    ghost var settled: map<nat, Fate>
    ghost var starts: seq<nat>

    ghost function State(): Sem
      reads this
    {
      Sem(maxConcurrent, running, queue, closed, settled, starts, nextId)
    }

    ghost predicate Counted()
      reads this`active, this`activeBytes, this`queuedBytes, this`running, this`queue
    {
      active == |running| && activeBytes == Bytes(running) && queuedBytes == Bytes(queue)
    }

    /** The queue's bounds. */
    ghost predicate Bounded()
      reads this`queue, this`queuedBytes
    {
      |queue| <= maxQueued && queuedBytes <= maxQueuedBytes
    }

    ghost predicate Valid()
      reads this
    {
      Inv(State()) && Counted() && Bounded()
    }

    constructor (maxConcurrent: nat, maxQueued: nat, maxQueuedBytes: nat)
      requires 0 < maxConcurrent
      ensures Valid() && State() == Fresh(maxConcurrent)
    {
      this.maxConcurrent, this.maxQueued, this.maxQueuedBytes := maxConcurrent, maxQueued, maxQueuedBytes;
      active, activeBytes, queuedBytes, queue, closed, nextId := 0, 0, 0, [], false, 0;
      running, settled, starts := [], map[], [];
    }

    method Start(item: Item)
      requires Counted()
      modifies this`active, this`activeBytes, this`running, this`settled, this`starts
      ensures Counted() && State() == Launch(old(State()), item)
    {
      BytesAppend(running, item);
      active := active + 1;
      activeBytes := activeBytes + item.bytes;
      running, settled, starts := running + [item], settled[item.id := Started], starts + [item.id];
    }

    /** `run`: admitted, queued or refused; a cancelled caller is refused instead of queued. */
    method Run(bytes: nat, deadline: int, aborted: bool, now: int)
      requires Valid()
      modifies this
      ensures Valid()
      ensures var fits := |old(queue)| < maxQueued && old(queuedBytes) + bytes <= maxQueuedBytes;
        State() == if old(closed) || deadline <= now then TurnAway(old(State()))
                   else Arrive(old(State()), bytes, Some(deadline), fits && !aborted)
    {
      ghost var s, fits := State(), |queue| < maxQueued && queuedBytes + bytes <= maxQueuedBytes;
      ArriveKeeps(s, bytes, Some(deadline), fits && !aborted);
      TurnAwayKeeps(s);
      hide Inv, Bytes, Keeps, Arrive, TurnAway;
      if closed || deadline <= now {
        Refuse();
      } else {
        Enter(bytes, deadline, aborted);
      }
    }

    method Enter(bytes: nat, deadline: int, aborted: bool)
      requires Valid() && !closed
      modifies this
      ensures Counted() && Bounded()
      ensures var fits := |old(queue)| < maxQueued && old(queuedBytes) + bytes <= maxQueuedBytes;
        State() == Arrive(old(State()), bytes, Some(deadline), fits && !aborted)
    {
      ArriveCases(State(), bytes, Some(deadline), |queue| < maxQueued && queuedBytes + bytes <= maxQueuedBytes && !aborted);
      hide Inv, Bytes, Arrive, TurnAway, Launch;
      if active < maxConcurrent && queue == [] {
        nextId := nextId + 1;
        Start(Item(nextId - 1, bytes, Some(deadline)));
      } else if maxQueued <= |queue| || maxQueuedBytes < queuedBytes + bytes || aborted {
        Refuse();
      } else {
        Push(Item(nextId, bytes, Some(deadline)));
      }
    }

    method Refuse()
      modifies this`nextId, this`settled
      ensures State() == TurnAway(old(State()))
    {
      settled := settled[nextId := Refused];
      nextId := nextId + 1;
    }

    method Push(item: Item)
      requires Counted() && |queue| < maxQueued && queuedBytes + item.bytes <= maxQueuedBytes
      modifies this`queue, this`queuedBytes, this`nextId
      ensures Counted() && Bounded() && State() == old(State()).(queue := old(queue) + [item], next := old(nextId) + 1)
    {
      BytesAppend(queue, item);
      queue := queue + [item];
      queuedBytes := queuedBytes + item.bytes;
      nextId := nextId + 1;
    }

    /** `pump`: fills the free slots, passing over waiters whose deadline went by. */
    method Pump(now: int)
      requires Counted() && Bounded()
      modifies this`active, this`activeBytes, this`queuedBytes, this`queue, this`running, this`settled, this`starts
      ensures Counted() && Bounded() && State() == if closed then old(State()) else Refill(old(State()), now)
    {
      if closed { return; }
      ghost var s := State();
      while active < maxConcurrent && queue != []
        modifies this`active, this`activeBytes, this`queuedBytes, this`queue, this`running, this`settled, this`starts
        invariant Counted() && Bounded() && State() == s.(running := running, queue := queue, settled := settled, starts := starts)
        invariant Refill(State(), now) == Refill(s, now)
        decreases |queue|
      {
        var waiter := queue[0];
        queuedBytes := queuedBytes - waiter.bytes;
        queue := queue[1..];
        if Late(waiter, now) {
          settled := settled[waiter.id := Expired];
        } else {
          Start(waiter);
        }
      }
    }

    /** An operation's `finally`. */
    method Completed(ghost i: nat, bytes: nat, now: int)
      requires Valid() && i < |running| && bytes == running[i].bytes
      modifies this`active, this`activeBytes, this`queuedBytes, this`queue, this`running, this`settled, this`starts
      ensures Valid() && State() == Finish(old(State()), i, now)
    {
      FinishKeeps(State(), i, now);
      BytesWithout(running, i);
      hide Inv, Bytes, Refill;
      active := active - 1;
      activeBytes := activeBytes - bytes;
      running := Without(running, i);
      Pump(now);
    }

    /** The timer's `expire`, and with another fate the signal's `abort`. */
    method LeaveQueue(id: nat, fate: Fate)
      requires Valid() && !fate.Started?
      modifies this`queuedBytes, this`queue, this`settled
      ensures Valid() && State() == Leave(old(State()), id, fate)
    {
      LeaveKeeps(State(), id, fate);
      hide Inv;
      var index := IndexOf(queue, id);
      if index == |queue| { return; }
      BytesWithout(queue, index);
      queuedBytes := queuedBytes - queue[index].bytes;
      queue := Without(queue, index);
      settled := settled[id := fate];
    }

    method CloseGate()
      requires Valid()
      modifies this`closed, this`queuedBytes, this`queue, this`settled
      ensures Valid() && State() == Close(old(State()))
    {
      CloseIs(State());
      hide Inv, Close, Discard, Fates, Bytes;
      if closed { return; }
      closed := true;
      settled := SettleAll(settled, queue, ClosedOut);
      queue := [];
      queuedBytes := 0;
    }
  }

  // ---------- The gate in front of the second tier ----------

  class L2OperationGate {
    const maxConcurrent: nat
    const maxQueued: nat
    const maxQueuedBytes: nat
    var active: nat
    var activeBytes: nat
    var queuedBytes: nat
    var queue: seq<Item>
    var closed: bool
    var nextId: nat
    ghost var running: seq<Item>
    ghost var settled: map<nat, Fate>
    ghost var starts: seq<nat>

    ghost function State(): Sem
      reads this
    {
      Sem(maxConcurrent, running, queue, closed, settled, starts, nextId)
    }

    ghost predicate Counted()
      reads this`active, this`activeBytes, this`queuedBytes, this`running, this`queue
    {
      && active == |running| && activeBytes == Bytes(running) && queuedBytes == Bytes(queue)
      && |queue| <= maxQueued && queuedBytes <= maxQueuedBytes && NoDeadlines(queue)
    }

    ghost predicate Valid()
      reads this
    {
      Inv(State()) && Counted()
    }

    constructor (maxConcurrent: nat, maxQueued: nat, maxQueuedBytes: nat)
      requires 0 < maxConcurrent
      ensures Valid() && State() == Fresh(maxConcurrent)
    {
      this.maxConcurrent, this.maxQueued, this.maxQueuedBytes := maxConcurrent, maxQueued, maxQueuedBytes;
      active, activeBytes, queuedBytes, queue, closed, nextId := 0, 0, 0, [], false, 0;
      running, settled, starts := [], map[], [];
    }

    method Start(item: Item)
      requires Counted()
      modifies this`active, this`activeBytes, this`running, this`settled, this`starts
      ensures Counted() && State() == Launch(old(State()), item)
    {
      BytesAppend(running, item);
      active := active + 1;
      activeBytes := activeBytes + item.bytes;
      running, settled, starts := running + [item], settled[item.id := Started], starts + [item.id];
    }

    method Run(bytes: nat)
      requires Valid()
      modifies this
      ensures Valid()
      ensures State() == Arrive(old(State()), bytes, None, |old(queue)| < maxQueued && old(queuedBytes) + bytes <= maxQueuedBytes)
    {
      ghost var s, fits := State(), |queue| < maxQueued && queuedBytes + bytes <= maxQueuedBytes;
      ArriveCases(s, bytes, None, fits);
      ArriveKeeps(s, bytes, None, fits);
      hide Inv, Bytes, Arrive, TurnAway, Launch, Keeps, NoDeadlines;
      if closed { Refuse(); } else { Enter(bytes); }
    }

    method Enter(bytes: nat)
      requires Valid() && !closed
      modifies this
      ensures Counted()
      ensures State() == Arrive(old(State()), bytes, None, |old(queue)| < maxQueued && old(queuedBytes) + bytes <= maxQueuedBytes)
    {
      ArriveCases(State(), bytes, None, |queue| < maxQueued && queuedBytes + bytes <= maxQueuedBytes);
      hide Inv, Bytes, Arrive, TurnAway, Launch, NoDeadlines;
      if active < maxConcurrent && queue == [] {
        nextId := nextId + 1;
        Start(Item(nextId - 1, bytes, None));
      } else if maxQueued <= |queue| || maxQueuedBytes < queuedBytes + bytes {
        Refuse();
      } else {
        Push(Item(nextId, bytes, None));
      }
    }

    method Refuse()
      modifies this`nextId, this`settled
      ensures State() == TurnAway(old(State()))
    {
      settled := settled[nextId := Refused];
      nextId := nextId + 1;
    }

    method Push(item: Item)
      requires Counted() && |queue| < maxQueued && queuedBytes + item.bytes <= maxQueuedBytes && item.deadline == None
      modifies this`queue, this`queuedBytes, this`nextId
      ensures Counted() && State() == old(State()).(queue := old(queue) + [item], next := old(nextId) + 1)
    {
      BytesAppend(queue, item);
      queue := queue + [item];
      queuedBytes := queuedBytes + item.bytes;
      nextId := nextId + 1;
    }

    /** One completion frees one slot, so one waiter is enough. */
    method Completed(ghost i: nat, bytes: nat)
      requires Valid() && i < |running| && bytes == running[i].bytes
      modifies this`active, this`activeBytes, this`queuedBytes, this`queue, this`running, this`settled, this`starts
      ensures Valid() && State() == Finish(old(State()), i, 0)
    {
      FinishKeeps(State(), i, 0);
      FinishLaunchesOne(State(), i, 0);
      BytesWithout(running, i);
      hide Inv, Finish, Keeps;
      active := active - 1;
      activeBytes := activeBytes - bytes;
      running := Without(running, i);
      Pump();
    }

    method Pump()
      requires Counted()
      modifies this`active, this`activeBytes, this`queuedBytes, this`queue, this`running, this`settled, this`starts
      ensures Counted()
      ensures var s := old(State());
        State() == if closed || maxConcurrent <= |s.running| || s.queue == [] then s
                   else Launch(s.(queue := s.queue[1..]), s.queue[0])
    {
      if closed || maxConcurrent <= active { return; }
      if queue == [] { return; }
      var waiter := queue[0];
      queue := queue[1..];
      queuedBytes := queuedBytes - waiter.bytes;
      Start(waiter);
    }

    method TimerFired(id: nat)
      requires Valid()
      modifies this`queuedBytes, this`queue, this`settled
      ensures Valid() && State() == Leave(old(State()), id, Expired)
    {
      LeaveKeeps(State(), id, Expired);
      hide Inv;
      var index := IndexOf(queue, id);
      if index == |queue| { return; }
      BytesWithout(queue, index);
      queuedBytes := queuedBytes - queue[index].bytes;
      queue := Without(queue, index);
      settled := settled[id := Expired];
    }

    method CloseGate()
      requires Valid()
      modifies this`closed, this`queuedBytes, this`queue, this`settled
      ensures Valid() && State() == Close(old(State()))
    {
      CloseIs(State());
      hide Inv, Close, Discard, Fates, Bytes, NoDeadlines;
      closed := true;
      settled := SettleAll(settled, queue, ClosedOut);
      queue := [];
      queuedBytes := 0;
    }
  }

  // ---------- The queue in front of an event handler ----------

  class EventBusHandlerQueue {
    const concurrency: nat
    const maxSize: nat
    const maxBytes: nat
    var pending: seq<Item>
    var pendingBytes: nat
    var active: nat
    var activeBytes: nat
    var closed: bool
    var nextId: nat
    ghost var running: seq<Item>
    ghost var settled: map<nat, Fate>
    ghost var starts: seq<nat>

    ghost function State(): Sem
      reads this
    {
      Sem(concurrency, running, pending, closed, settled, starts, nextId)
    }

    ghost predicate Counted()
      reads this`active, this`activeBytes, this`pendingBytes, this`running, this`pending
    {
      && active == |running| && activeBytes == Bytes(running) && pendingBytes == Bytes(pending)
      && |pending| + active <= maxSize && pendingBytes + activeBytes <= maxBytes && NoDeadlines(pending)
    }

    ghost predicate Valid()
      reads this
    {
      Inv(State()) && Counted()
    }

    constructor (concurrency: nat, maxSize: nat, maxBytes: nat)
      requires 0 < concurrency
      ensures Valid() && State() == Fresh(concurrency)
    {
      this.concurrency, this.maxSize, this.maxBytes := concurrency, maxSize, maxBytes;
      pending, pendingBytes, active, activeBytes, closed, nextId := [], 0, 0, 0, false, 0;
      running, settled, starts := [], map[], [];
    }

    /** Every accepted event is added and then drained, so it starts at once or waits. */
    method EnqueueItem(bytes: nat) returns (accepted: bool)
      requires Valid()
      modifies this
      ensures Valid()
      ensures accepted == (!old(closed) && |old(pending)| + old(active) < maxSize && old(pendingBytes + activeBytes) + bytes <= maxBytes)
      ensures State() == if accepted then Arrive(old(State()), bytes, None, true) else TurnAway(old(State()))
    {
      ghost var s := State();
      hide Inv, Bytes, Arrive, Keeps, Refill, TurnAway, NoDeadlines;
      if closed || maxSize <= |pending| + active || maxBytes < pendingBytes + activeBytes + bytes {
        TurnAwayKeeps(s);
        Refuse();
        return false;
      }
      ArriveKeeps(s, bytes, None, true);
      AddedThenDrained(s, bytes);
      AddAndDrain(bytes);
      accepted := true;
    }

    method AddAndDrain(bytes: nat)
      requires Counted() && |pending| + active < maxSize && pendingBytes + activeBytes + bytes <= maxBytes
      modifies this`pending, this`pendingBytes, this`nextId, this`active, this`activeBytes, this`running, this`settled, this`starts
      ensures Counted()
      ensures var s := old(State());
        State() == Refill(s.(queue := s.queue + [Item(s.next, bytes, None)], next := s.next + 1), 0)
    {
      hide Counted, Refill;
      Add(Item(nextId, bytes, None));
      Drain();
    }

    method Refuse()
      modifies this`nextId, this`settled
      ensures State() == TurnAway(old(State()))
    {
      settled := settled[nextId := Refused];
      nextId := nextId + 1;
    }

    method Add(item: Item)
      requires Counted() && |pending| + active < maxSize && pendingBytes + activeBytes + item.bytes <= maxBytes && item.deadline == None
      modifies this`pending, this`pendingBytes, this`nextId
      ensures Counted() && State() == old(State()).(queue := old(pending) + [item], next := old(nextId) + 1)
    {
      BytesAppend(pending, item);
      pending := pending + [item];
      pendingBytes := pendingBytes + item.bytes;
      nextId := nextId + 1;
    }

    method Drain()
      requires Counted()
      modifies this`active, this`activeBytes, this`pendingBytes, this`pending, this`running, this`settled, this`starts
      ensures Counted() && State() == Refill(old(State()), 0)
    {
      ghost var s := State();
      while active < concurrency
        modifies this`active, this`activeBytes, this`pendingBytes, this`pending, this`running, this`settled, this`starts
        invariant Counted() && State() == s.(running := running, queue := pending, settled := settled, starts := starts)
        invariant Refill(State(), 0) == Refill(s, 0)
        decreases |pending|
      {
        if pending == [] { return; }
        var item := pending[0];
        pending := pending[1..];
        pendingBytes := pendingBytes - item.bytes;
        Start(item);
      }
    }

    method Start(item: Item)
      requires active == |running| && activeBytes == Bytes(running)
      modifies this`active, this`activeBytes, this`running, this`settled, this`starts
      ensures active == old(active) + 1 == |running| && activeBytes == old(activeBytes) + item.bytes == Bytes(running)
      ensures State() == Launch(old(State()), item)
    {
      BytesAppend(running, item);
      active := active + 1;
      activeBytes := activeBytes + item.bytes;
      running, settled, starts := running + [item], settled[item.id := Started], starts + [item.id];
    }

    /** A handler settled. A closed queue has nothing left to drain. */
    method Completed(ghost i: nat, bytes: nat)
      requires Valid() && i < |running| && bytes == running[i].bytes
      modifies this`active, this`activeBytes, this`pendingBytes, this`pending, this`running, this`settled, this`starts
      ensures Valid() && State() == Finish(old(State()), i, 0)
    {
      FinishKeeps(State(), i, 0);
      ClosedIsEmpty(State());
      BytesWithout(running, i);
      hide Inv, Keeps, Bytes;
      active := active - 1;
      activeBytes := activeBytes - bytes;
      running := Without(running, i);
      Drain();
    }

    method CloseQueue()
      requires Valid()
      modifies this`closed, this`pendingBytes, this`pending, this`settled
      ensures Valid() && State() == Close(old(State()))
    {
      CloseIs(State());
      hide Inv, Close, Discard, Fates, Bytes, NoDeadlines;
      closed := true;
      settled := SettleAll(settled, pending, ClosedOut);
      pending := [];
      pendingBytes := 0;
    }

    /** After a gap in the transport. */
    method DiscardPending()
      requires Valid()
      modifies this`pendingBytes, this`pending, this`settled
      ensures Valid() && State() == Discard(old(State()), Cancelled)
    {
      DiscardKeeps(State(), Cancelled);
      assert Bytes([]) == 0 && NoDeadlines([]);
      hide Inv, Keeps, Close, Fates, Bytes, NoDeadlines;
      settled := SettleAll(settled, pending, Cancelled);
      pending := [];
      pendingBytes := 0;
    }
  }
}
