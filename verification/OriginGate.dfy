/** The gate in front of the origin: one more refinement of the semaphore, whose waiters' keys
    are bytes on the shared ledger while they wait. */
module OriginGate {
  import opened Common
  import opened ByteLedger
  import opened Semaphore
  import Utf16

  const MAX_QUEUED_KEY_BYTES: nat := 2 * 1024 * 1024

  /** What a waiter's key counts. */
  function WaiterBytes(key: seq<Unit>): nat {
    Utf16.ByteLength(key) * 2 + 128
  }

  class OriginLoadGate {
    const maxConcurrent: nat
    const maxQueued: nat
    const memoryBudget: MemoryBudget
    var active: nat
    var queuedBytes: nat
    var queue: seq<Item>
    var closed: bool
    var nextId: nat
    /** Reservations that were handed out and not released: the closures' own flags. */
    var outstanding: set<nat>
    ghost var running: seq<Item>
    ghost var settled: map<nat, Fate>
    ghost var starts: seq<nat>

    ghost function State(): Sem
      reads this
    {
      Sem(maxConcurrent, running, queue, closed, settled, starts, nextId)
    }

    ghost predicate Counted()
      reads this`active, this`queuedBytes, this`running, this`queue, this`outstanding
    {
      && active == |running| && queuedBytes == Bytes(queue)
      && |queue| <= maxQueued && queuedBytes <= MAX_QUEUED_KEY_BYTES && NoDeadlines(queue)
      && (forall id | id in outstanding :: IndexOf(running, id) < |running|)
    }

    ghost predicate Valid()
      reads this
    {
      Inv(State()) && Counted()
    }

    /** The gate's share of the ledger. */
    function Holdings(): Books
      reads this`queuedBytes
    {
      EMPTY.(queue := queuedBytes)
    }

    ghost predicate Ready()
      reads this, memoryBudget
    {
      Valid() && Sound(memoryBudget.State()) && Covers(memoryBudget.categories, Holdings())
    }

    constructor (memoryBudget: MemoryBudget, maxConcurrent: nat, maxQueued: nat)
      requires Sound(memoryBudget.State()) && 0 < maxConcurrent
      ensures this.memoryBudget == memoryBudget && this.maxConcurrent == maxConcurrent && this.maxQueued == maxQueued
      ensures Ready() && Holdings() == EMPTY && State() == Semaphore.Fresh(maxConcurrent) && outstanding == {}
    {
      this.memoryBudget, this.maxConcurrent, this.maxQueued := memoryBudget, maxConcurrent, maxQueued;
      active, queuedBytes, queue, closed, nextId, outstanding := 0, 0, [], false, 0, {};
      running, settled, starts := [], map[], [];
    }

    method Start(item: Item)
      requires Counted()
      modifies this`active, this`outstanding, this`running, this`settled, this`starts
      ensures Counted() && State() == Launch(old(State()), item) && outstanding == old(outstanding) + {item.id}
    {
      forall id | id in outstanding + {item.id} ensures IndexOf(running + [item], id) < |running| + 1 { IndexAppended(running, item, id); }
      active := active + 1;
      outstanding := outstanding + {item.id};
      running, settled, starts := running + [item], settled[item.id := Started], starts + [item.id];
    }

    /** The key may wait: there is a place, and its bytes fit the gate and the ledger. */
    predicate Fits(key: seq<Unit>)
      reads this`queue, this`queuedBytes, memoryBudget
    {
      && |queue| < maxQueued && queuedBytes + WaiterBytes(key) <= MAX_QUEUED_KEY_BYTES
      && memoryBudget.used + WaiterBytes(key) <= memoryBudget.target
    }

    /** `acquire`. A closed gate and an aborted caller are turned away first. */
    method Acquire(key: seq<Unit>, aborted: bool)
      requires Ready()
      modifies this, memoryBudget`used, memoryBudget`categories
      ensures Ready() && Moves(old(memoryBudget.State()), old(Holdings()), memoryBudget.State(), Holdings())
      ensures State() == if aborted then TurnAway(old(State())) else Arrive(old(State()), WaiterBytes(key), None, old(Fits(key)))
    {
      ghost var s, fits := State(), Fits(key);
      ArriveKeeps(s, WaiterBytes(key), None, fits);
      TurnAwayKeeps(s);
      hide Inv, Bytes, Arrive, TurnAway, Keeps, IndexOf, NoDeadlines, WaiterBytes;
      if closed {
        Refuse();
        assert State() == Arrive(s, WaiterBytes(key), None, fits) by { ArriveCases(s, WaiterBytes(key), None, fits); }
      } else if aborted {
        Refuse();
      } else {
        Enter(key);
      }
    }

    method Enter(key: seq<Unit>)
      requires Ready() && !closed
      modifies this, memoryBudget`used, memoryBudget`categories
      ensures Counted() && State() == Arrive(old(State()), WaiterBytes(key), None, old(Fits(key)))
      ensures Sound(memoryBudget.State()) && Covers(memoryBudget.categories, Holdings())
      ensures Moves(old(memoryBudget.State()), old(Holdings()), memoryBudget.State(), Holdings())
    {
      ArriveCases(State(), WaiterBytes(key), None, Fits(key));
      hide Inv, Bytes, Arrive, TurnAway, Launch, IndexOf, NoDeadlines;
      var bytes := WaiterBytes(key);
      hide WaiterBytes;
      if active < maxConcurrent {
        nextId := nextId + 1;
        Start(Item(nextId - 1, bytes, None));
        return;
      }
      if maxQueued <= |queue| || MAX_QUEUED_KEY_BYTES < queuedBytes + bytes {
        Refuse();
        return;
      }
      var reserved := memoryBudget.TryReserve(bytes, Queue);
      if reserved { Push(Item(nextId, bytes, None)); } else { Refuse(); }
    }

    method Refuse()
      modifies this`nextId, this`settled
      ensures State() == TurnAway(old(State()))
    {
      settled := settled[nextId := Refused];
      nextId := nextId + 1;
    }

    method Push(item: Item)
      requires Counted() && |queue| < maxQueued && queuedBytes + item.bytes <= MAX_QUEUED_KEY_BYTES && item.deadline == None
      modifies this`queue, this`queuedBytes, this`nextId
      ensures Counted() && State() == old(State()).(queue := old(queue) + [item], next := old(nextId) + 1)
      ensures queuedBytes == old(queuedBytes) + item.bytes
    {
      BytesAppend(queue, item);
      queue := queue + [item];
      queuedBytes := queuedBytes + item.bytes;
      nextId := nextId + 1;
    }

    /** `cleanupWaiter`, for the bytes of a waiter that is taken out of the queue. */
    method GiveBack(bytes: nat)
      requires bytes <= queuedBytes && Sound(memoryBudget.State()) && Covers(memoryBudget.categories, Holdings())
      modifies this`queuedBytes, memoryBudget`used, memoryBudget`categories
      ensures Sound(memoryBudget.State()) && Covers(memoryBudget.categories, Holdings())
      ensures queuedBytes == old(queuedBytes) - bytes
      ensures Moves(old(memoryBudget.State()), old(Holdings()), memoryBudget.State(), Holdings())
    {
      queuedBytes := queuedBytes - bytes;
      memoryBudget.Release(bytes, Queue);
    }

    /** A reservation's release: the second call does nothing; the first hands the slot on, and
        the waiter that takes it no longer holds bytes. */
    method Release(id: nat)
      requires Ready()
      modifies this`active, this`queuedBytes, this`queue, this`outstanding, this`running, this`settled, this`starts
      modifies memoryBudget`used, memoryBudget`categories
      ensures Ready() && Moves(old(memoryBudget.State()), old(Holdings()), memoryBudget.State(), Holdings())
      ensures State() == if id in old(outstanding) then Finish(old(State()), IndexOf(old(running), id), 0) else old(State())
      ensures outstanding == old(outstanding) - {id} + if id in old(outstanding) && old(queue) != [] then {old(queue)[0].id} else {}
    {
      if id !in outstanding { return; }
      ghost var i := IndexOf(running, id);
      FinishKeeps(State(), i, 0);
      FinishLaunchesOne(State(), i, 0);
      SlotsFacts(State());
      outstanding := outstanding - {id};
      forall other | other in outstanding ensures IndexOf(Without(running, i), other) < |running| - 1 { IndexKept(running, i, other); }
      hide Inv, Finish, Keeps, Moves, Sound, Covers, Launch;
      active := active - 1;
      running := Without(running, i);
      HandOn();
    }

    /** The freed slot goes to the waiter at the front, if there is one. */
    method HandOn()
      requires Counted() && Sound(memoryBudget.State()) && Covers(memoryBudget.categories, Holdings())
      modifies this`active, this`queuedBytes, this`queue, this`outstanding, this`running, this`settled, this`starts
      modifies memoryBudget`used, memoryBudget`categories
      ensures Counted() && Sound(memoryBudget.State()) && Covers(memoryBudget.categories, Holdings())
      ensures Moves(old(memoryBudget.State()), old(Holdings()), memoryBudget.State(), Holdings())
      ensures var s := old(State()); State() == if s.queue == [] then s else Launch(s.(queue := s.queue[1..]), s.queue[0])
      ensures outstanding == old(outstanding) + if old(queue) != [] then {old(queue)[0].id} else {}
    {
      hide IndexOf, Launch;
      if queue == [] { return; }
      var next := queue[0];
      queue := queue[1..];
      GiveBack(next.bytes);
      Start(next);
    }

    /** The waiter's timer, or with another fate its signal. */
    method LeaveQueue(id: nat, fate: Fate)
      requires Ready() && !fate.Started?
      modifies this`queuedBytes, this`queue, this`settled, memoryBudget`used, memoryBudget`categories
      ensures Ready() && Moves(old(memoryBudget.State()), old(Holdings()), memoryBudget.State(), Holdings())
      ensures State() == Leave(old(State()), id, fate)
    {
      LeaveKeeps(State(), id, fate);
      hide Inv;
      var index := IndexOf(queue, id);
      if index == |queue| { return; }
      BytesWithout(queue, index);
      var bytes := queue[index].bytes;
      queue := Without(queue, index);
      GiveBack(bytes);
      settled := settled[id := fate];
    }

    /** After the close no waiter holds bytes. */
    method CloseGate()
      requires Ready()
      modifies this`closed, this`queuedBytes, this`queue, this`settled, memoryBudget`used, memoryBudget`categories
      ensures Ready() && Moves(old(memoryBudget.State()), old(Holdings()), memoryBudget.State(), Holdings())
      ensures State() == Close(old(State())) && Holdings() == EMPTY
    {
      CloseIs(State());
      hide Inv, Close, Discard, NoDeadlines;
      closed := true;
      GiveBackAll();
      settled := SettleAll(settled, queue, ClosedOut);
      queue := [];
    }

    /** The loop of `close` cleans the waiters up in turn. */
    method GiveBackAll()
      requires queuedBytes == Bytes(queue) && Sound(memoryBudget.State()) && Covers(memoryBudget.categories, Holdings())
      modifies this`queuedBytes, memoryBudget`used, memoryBudget`categories
      ensures Sound(memoryBudget.State()) && queuedBytes == 0
      ensures Moves(old(memoryBudget.State()), old(Holdings()), memoryBudget.State(), Holdings())
    {
      var i := 0;
      assert queue[0..] == queue;
      while i < |queue|
        modifies this`queuedBytes, memoryBudget`used, memoryBudget`categories
        invariant i <= |queue| && queuedBytes == Bytes(queue[i..])
        invariant Sound(memoryBudget.State()) && Covers(memoryBudget.categories, Holdings())
        invariant Moves(old(memoryBudget.State()), old(Holdings()), memoryBudget.State(), Holdings())
      {
        assert queue[i..][1..] == queue[i + 1..];
        GiveBack(queue[i].bytes);
        i := i + 1;
      }
      assert queue[i..] == [];
    }
  }
}
