/** The event-bus retry queue: a byte-bounded backlog with at most one publication under way.
    Over every interleaving of enqueues, publications that succeed or fail, and clears, the
    successes are a subsequence of the accepted events. */
module RetryQueue {
  import opened Common

  /** An encoded event; `id` is its position among the accepted ones. */
  datatype Entry = Entry(id: nat, encoded: seq<Byte>)

  datatype Limits = Limits(enabled: bool, maxSize: nat, maxBytes: nat)

  /** While `active`, the first entry is being published; `discard` is its `discardAfterPublish`.
      `accepted` and `delivered` are history: what enqueue took, and which of it was published. */
  datatype Queue = Queue(
    events: seq<Entry>, bytes: nat, dropped: nat, flushing: bool, active: bool, discard: bool,
    accepted: seq<seq<Byte>>, delivered: seq<nat>)

  const EMPTY := Queue([], 0, 0, false, false, false, [], [])

  function Sum(es: seq<Entry>): nat {
    if es == [] then 0 else |es[0].encoded| + Sum(es[1..])
  }

  function Waiting(q: Queue): nat {
    if q.active && q.events != [] then |q.events| - 1 else |q.events|
  }

  /** The position of the oldest entry that is not being published. */
  function Oldest(q: Queue): nat {
    if q.active then 1 else 0
  }

  // ---------- The invariant ----------

  predicate Increasing(ids: seq<nat>) {
    forall i, j | 0 <= i < j < |ids| :: ids[i] < ids[j]
  }

  /** The backlog's bytes and count are within their limits. */
  predicate Sized(q: Queue, l: Limits) {
    && q.bytes == Sum(q.events) && q.bytes <= l.maxBytes && |q.events| <= l.maxSize + 1
    && (q.active ==> q.flushing && q.events != []) && (q.discard ==> q.active)
  }

  /** The backlog holds accepted events in order of acceptance, all later than what was delivered. */
  predicate History(events: seq<Entry>, accepted: seq<seq<Byte>>, delivered: seq<nat>) {
    && (forall i, j | 0 <= i < j < |events| :: events[i].id < events[j].id)
    && (forall i | 0 <= i < |events| :: events[i].id < |accepted| && accepted[events[i].id] == events[i].encoded)
    && Increasing(delivered)
    && (forall i | 0 <= i < |delivered| :: delivered[i] < |accepted|)
    && (delivered != [] && events != [] ==> delivered[|delivered| - 1] < events[0].id)
  }

  predicate Inv(q: Queue, l: Limits) {
    Sized(q, l) && History(q.events, q.accepted, q.delivered)
  }

  lemma {:induction false} SumWithout(es: seq<Entry>, i: nat)
    requires i < |es|
    ensures Sum(es) == Sum(es[..i] + es[i + 1..]) + |es[i].encoded|
  {
    var rest := es[..i] + es[i + 1..];
    if i == 0 {
      assert rest == es[1..];
    } else {
      SumWithout(es[1..], i - 1);
      assert rest[1..] == es[1..][..i - 1] + es[1..][i..];
    }
  }

  lemma {:induction false} SumAppend(es: seq<Entry>, e: Entry)
    ensures Sum(es + [e]) == Sum(es) + |e.encoded|
  {
    if es == [] {
      assert es + [e] == [e] && [e][1..] == [];
    } else {
      assert (es + [e])[1..] == es[1..] + [e];
      SumAppend(es[1..], e);
    }
  }

  lemma HistoryWithout(events: seq<Entry>, accepted: seq<seq<Byte>>, delivered: seq<nat>, i: nat)
    requires History(events, accepted, delivered) && i < |events|
    ensures History(events[..i] + events[i + 1..], accepted, delivered)
  {
    var r := events[..i] + events[i + 1..];
    assert forall k | 0 <= k < |r| :: r[k] == events[if k < i then k else k + 1];
  }

  lemma HistoryAppend(events: seq<Entry>, accepted: seq<seq<Byte>>, delivered: seq<nat>, encoded: seq<Byte>)
    requires History(events, accepted, delivered)
    ensures History(events + [Entry(|accepted|, encoded)], accepted + [encoded], delivered)
  {
  }

  lemma HistoryDelivered(events: seq<Entry>, accepted: seq<seq<Byte>>, delivered: seq<nat>)
    requires History(events, accepted, delivered) && events != []
    ensures History(events[1..], accepted, delivered) && History(events[1..], accepted, delivered + [events[0].id])
    ensures History([events[0]], accepted, delivered) && History([], accepted, delivered)
  {
  }

  function DropOldest(q: Queue, l: Limits): (r: Queue)
    requires Inv(q, l) && 0 < Waiting(q)
    ensures Inv(r, l) && Waiting(r) == Waiting(q) - 1 && |r.events| == |q.events| - 1
  {
    var i := Oldest(q);
    SumWithout(q.events, i);
    HistoryWithout(q.events, q.accepted, q.delivered, i);
    q.(events := q.events[..i] + q.events[i + 1..], bytes := q.bytes - |q.events[i].encoded|, dropped := q.dropped + 1)
  }

  /** Dropping the oldest entries until the new one fits, or only the active one is left. */
  function MakeRoom(q: Queue, l: Limits, size: nat): (r: Queue)
    requires Inv(q, l)
    ensures Inv(r, l) && Waiting(r) <= Waiting(q)
    ensures r.bytes + size <= l.maxBytes || Waiting(r) == 0
    ensures r == q.(events := r.events, bytes := r.bytes, dropped := r.dropped) && |r.events| <= |q.events|
    decreases Waiting(q)
  {
    if 0 < Waiting(q) && l.maxBytes < q.bytes + size then MakeRoom(DropOldest(q, l), l, size) else q
  }

  function Append(q: Queue, encoded: seq<Byte>): Queue {
    q.(events := q.events + [Entry(|q.accepted|, encoded)], bytes := q.bytes + |encoded|, accepted := q.accepted + [encoded])
  }

  lemma AppendKeeps(q: Queue, l: Limits, encoded: seq<Byte>)
    requires Inv(q, l) && q.bytes + |encoded| <= l.maxBytes && |q.events| <= l.maxSize
    ensures Inv(Append(q, encoded), l)
  {
    SumAppend(q.events, Entry(|q.accepted|, encoded));
    HistoryAppend(q.events, q.accepted, q.delivered, encoded);
  }

  /** The backlog after making room by count: one entry goes when the backlog is full. */
  function Trimmed(q: Queue, l: Limits): (r: Queue)
    requires Inv(q, l) && 0 < l.maxSize
    ensures Inv(r, l) && r == q.(events := r.events, bytes := r.bytes, dropped := r.dropped)
    ensures |r.events| <= l.maxSize
  {
    if l.maxSize <= Waiting(q) then DropOldest(q, l) else q
  }

  /** `enqueue`; `None` stands for an event that cannot be encoded. */
  function Enqueue(q: Queue, l: Limits, encoded: Option<seq<Byte>>): Queue
    requires Inv(q, l)
  {
    var refused := q.(dropped := q.dropped + 1);
    if !l.enabled || l.maxSize == 0 || encoded == None || l.maxBytes == 0 || l.maxBytes < |encoded.value| then refused
    else
      var room := MakeRoom(Trimmed(q, l), l, |encoded.value|);
      if l.maxBytes < room.bytes + |encoded.value| then room.(dropped := room.dropped + 1)
      else Append(room, encoded.value)
  }

  /** The events a queue takes in: `Enqueue` with its outcome told by the state itself. */
  datatype Step =
    | Offer(encoded: Option<seq<Byte>>)
    | Flush
    | Begin
    | Published
    | Undecodable
    | Failed
    | Clear

  function Next(q: Queue, l: Limits, step: Step): Queue
    requires Inv(q, l)
  {
    match step
    case Offer(encoded) => Enqueue(q, l, encoded)
    case Flush => q.(flushing := true)
    case Begin =>
      if !q.flushing || q.active then q
      else if q.events == [] then q.(flushing := false)
      else q.(active := true, discard := false)
    case Published => if q.active then Removed(q).(delivered := q.delivered + [q.events[0].id]) else q
    case Undecodable => if q.active then Removed(q) else q
    case Failed =>
      if !q.active then q
      else (if q.discard then Removed(q) else q.(active := false)).(flushing := false)
    case Clear =>
      if q.active then q.(events := [q.events[0]], bytes := |q.events[0].encoded|, discard := true)
      else q.(events := [], bytes := 0)
  }

  /** The entry under publication leaves the backlog. */
  function Removed(q: Queue): Queue
    requires q.events != [] && |q.events[0].encoded| <= q.bytes
  {
    q.(events := q.events[1..], bytes := q.bytes - |q.events[0].encoded|, active := false, discard := false)
  }

  lemma EnqueueKeeps(q: Queue, l: Limits, encoded: Option<seq<Byte>>)
    requires Inv(q, l)
    ensures Inv(Enqueue(q, l, encoded), l)
  {
    hide History;
    if l.enabled && 0 < l.maxSize && encoded != None && 0 < l.maxBytes && |encoded.value| <= l.maxBytes {
      var trimmed := Trimmed(q, l);
      var room := MakeRoom(trimmed, l, |encoded.value|);
      if room.bytes + |encoded.value| <= l.maxBytes { AppendKeeps(room, l, encoded.value); }
    }
  }

  lemma NextKeeps(q: Queue, l: Limits, step: Step)
    requires Inv(q, l)
    ensures Inv(Next(q, l, step), l)
  {
    hide History;
    match step
    case Offer(encoded) => EnqueueKeeps(q, l, encoded);
    case Published => if q.active { RemovedKeeps(q, l); }
    case Undecodable => if q.active { RemovedKeeps(q, l); }
    case Failed => if q.active { RemovedKeeps(q, l); }
    case Clear => if q.active { SumOne(q.events); }
      if q.events != [] { HistoryDelivered(q.events, q.accepted, q.delivered); }
    case _ =>
  }

  lemma RemovedKeeps(q: Queue, l: Limits)
    requires Inv(q, l) && q.active
    ensures |q.events[0].encoded| <= q.bytes && Inv(Removed(q), l)
    ensures Inv(Removed(q).(delivered := q.delivered + [q.events[0].id]), l)
  {
    HistoryDelivered(q.events, q.accepted, q.delivered);
    hide History;
  }

  lemma SumOne(es: seq<Entry>)
    requires es != []
    ensures Sum([es[0]]) == |es[0].encoded| <= Sum(es)
  {
    assert [es[0]][1..] == [];
  }

  // ---------- Every run ----------

  function After(l: Limits, run: seq<Step>): (q: Queue)
    ensures Inv(q, l)
  {
    if run == [] then EMPTY
    else
      var q := After(l, run[..|run| - 1]);
      NextKeeps(q, l, run[|run| - 1]);
      Next(q, l, run[|run| - 1])
  }

  /** `s` is `all` with some elements left out: the kept positions increase. */
  ghost predicate SubsequenceAt(s: seq<seq<Byte>>, all: seq<seq<Byte>>, at: seq<nat>) {
    && |at| == |s| && Increasing(at)
    && forall i | 0 <= i < |s| :: at[i] < |all| && s[i] == all[at[i]]
  }

  /** The payloads that were published, in order. */
  function Successes(q: Queue): (s: seq<seq<Byte>>)
    requires forall i | 0 <= i < |q.delivered| :: q.delivered[i] < |q.accepted|
    ensures |s| == |q.delivered| && forall i | 0 <= i < |s| :: s[i] == q.accepted[q.delivered[i]]
  {
    seq(|q.delivered|, i requires 0 <= i < |q.delivered| => q.accepted[q.delivered[i]])
  }

  /** Over every interleaving: bytes are the queued sum and within their limit, the size exceeds
      the limit by at most the one failed or active entry, the publication under way is of the
      oldest entry, and the successes are a subsequence of the accepted events, each once. */
  lemma QueueIsBounded(l: Limits, run: seq<Step>)
    ensures var q := After(l, run);
      && q.bytes == Sum(q.events) <= l.maxBytes && |q.events| <= l.maxSize + 1
      && (q.active ==> q.flushing && q.events != [] && forall e | e in q.events :: q.events[0].id <= e.id)
      && SubsequenceAt(Successes(q), q.accepted, q.delivered)
  {
    var q := After(l, run);
    if q.active {
      forall e | e in q.events ensures q.events[0].id <= e.id {
        var i :| 0 <= i < |q.events| && q.events[i] == e;
      }
    }
  }

  function Ids(es: seq<Entry>): seq<nat> {
    if es == [] then [] else [es[0].id] + Ids(es[1..])
  }

  /** One flush with nothing going wrong. */
  function Drain(l: Limits, q: Queue): (r: Queue)
    requires Inv(q, l) && q.flushing && !q.active
    ensures Inv(r, l)
    decreases |q.events|
  {
    NextKeeps(q, l, Begin);
    var b := Next(q, l, Begin);
    if q.events == [] then b
    else
      NextKeeps(b, l, Published);
      Drain(l, Next(b, l, Published))
  }

  /** It publishes the whole backlog, oldest first, and stops. */
  lemma {:induction false} DrainDeliversAll(l: Limits, q: Queue)
    requires Inv(q, l) && q.flushing && !q.active
    ensures var r := Drain(l, q);
      r.events == [] && r.bytes == 0 && !r.flushing && !r.active && r.delivered == q.delivered + Ids(q.events)
    decreases |q.events|
  {
    hide Inv, Drain, Next;
    if q.events == [] {
      NothingToDrain(l, q);
    } else {
      var n := OneDelivered(l, q);
      DrainDeliversAll(l, n);
      var id := q.events[0].id;
      assert (q.delivered + [id]) + Ids(n.events) == q.delivered + ([id] + Ids(n.events));
    }
  }

  lemma NothingToDrain(l: Limits, q: Queue)
    requires Inv(q, l) && q.flushing && !q.active && q.events == []
    ensures Drain(l, q) == q.(flushing := false) && q.bytes == 0 && q.delivered + Ids(q.events) == q.delivered
  {
  }

  lemma OneDelivered(l: Limits, q: Queue) returns (n: Queue)
    requires Inv(q, l) && q.flushing && !q.active && q.events != []
    ensures Inv(n, l) && n.events == q.events[1..] && n.delivered == q.delivered + [q.events[0].id]
    ensures n.flushing && !n.active && Drain(l, q) == Drain(l, n)
  {
    NextKeeps(q, l, Begin);
    var b := Next(q, l, Begin);
    NextKeeps(b, l, Published);
    hide Inv;
    n := Next(b, l, Published);
  }

  // ---------- The queue object ----------

  class EventBusRetryQueue {
    const limits: Limits
    var events: seq<Entry>
    var bytes: nat
    var dropped: nat
    var flushing: bool
    var flushingEntry: Option<Entry>
    var discardAfterPublish: bool
    ghost var accepted: seq<seq<Byte>>
    ghost var delivered: seq<nat>
    var nextId: nat

    ghost function State(): Queue
      reads this
    {
      Queue(events, bytes, dropped, flushing, flushingEntry.Some?, discardAfterPublish, accepted, delivered)
    }

    ghost predicate Valid()
      reads this
    {
      Inv(State(), limits) && nextId == |accepted| && (flushingEntry.Some? ==> flushingEntry.value == events[0])
    }

    constructor (limits: Limits)
      ensures Valid() && State() == EMPTY && this.limits == limits
    {
      this.limits := limits;
      events, bytes, dropped, flushing, flushingEntry, discardAfterPublish := [], 0, 0, false, None, false;
      accepted, delivered, nextId := [], [], 0;
    }

    function WaitingSize(): (n: nat)
      reads this
      ensures n == Waiting(State())
    {
      |events| - if flushingEntry.Some? && events != [] then 1 else 0
    }

    method RemoveOldestWaiting() returns (removed: Entry)
      requires Valid() && 0 < WaitingSize()
      modifies this`events, this`bytes, this`dropped
      ensures Valid() && State() == DropOldest(old(State()), limits)
    {
      ghost var next := DropOldest(State(), limits);
      var i := if flushingEntry.Some? then 1 else 0;
      removed := events[i];
      SumWithout(events, i);
      events := events[..i] + events[i + 1..];
      bytes := bytes - |removed.encoded|;
      dropped := dropped + 1;
    }

    lemma ActiveIsFirst()
      requires Valid()
      ensures flushingEntry.Some? ==> events != [] && flushingEntry.value == events[0]
    {
    }

    /** The eviction loop of `enqueue`. */
    method MakeRoomFor(size: nat)
      requires Valid()
      modifies this`events, this`bytes, this`dropped
      ensures Valid() && State() == MakeRoom(old(State()), limits, size)
    {
      hide Sized, History, Sum, DropOldest;
      ghost var q := State();
      while 0 < WaitingSize() && limits.maxBytes < bytes + size
        modifies this`events, this`bytes, this`dropped
        invariant Valid() && MakeRoom(State(), limits, size) == MakeRoom(q, limits, size)
        invariant flushingEntry == old(flushingEntry) && accepted == old(accepted)
        decreases WaitingSize()
      {
        var _ := RemoveOldestWaiting();
      }
    }

    method Offer(encoded: Option<seq<Byte>>) returns (queued: bool)
      requires Valid()
      modifies this
      ensures Valid() && State() == Enqueue(old(State()), limits, encoded)
      ensures queued <==> |accepted| == |old(accepted)| + 1
    {
      EnqueueKeeps(State(), limits, encoded);
      hide Sized, History, MakeRoom, DropOldest;
      if !limits.enabled || limits.maxSize == 0 || encoded == None || limits.maxBytes == 0 || limits.maxBytes < |encoded.value| {
        dropped := dropped + 1;
        return false;
      }
      queued := Add(encoded.value);
    }

    /** `enqueue`, once the event is known to fit the limits by itself. */
    method Add(encoded: seq<Byte>) returns (queued: bool)
      requires Valid() && 0 < limits.maxSize
      modifies this`events, this`bytes, this`dropped, this`accepted, this`nextId
      ensures var room := MakeRoom(Trimmed(old(State()), limits), limits, |encoded|);
        && queued == (room.bytes + |encoded| <= limits.maxBytes)
        && State() == if queued then Append(room, encoded) else room.(dropped := room.dropped + 1)
      ensures nextId == |accepted| && (flushingEntry.Some? ==> events != [] && flushingEntry.value == events[0])
    {
      hide Sized, History, MakeRoom, DropOldest, Sum;
      ghost var q := State();
      if limits.maxSize <= WaitingSize() { var _ := RemoveOldestWaiting(); }
      assert State() == Trimmed(q, limits);
      MakeRoomFor(|encoded|);
      ActiveIsFirst();
      if limits.maxBytes < bytes + |encoded| {
        dropped := dropped + 1;
        return false;
      }
      events := events + [Entry(nextId, encoded)];
      bytes := bytes + |encoded|;
      accepted, nextId := accepted + [encoded], nextId + 1;
      queued := true;
    }

    /** A `drain` that runs already is joined, not started again. */
    method StartFlush() returns (started: bool)
      requires Valid()
      modifies this`flushing
      ensures Valid() && State() == Next(old(State()), limits, Step.Flush) && started == !old(flushing)
    {
      started := !flushing;
      flushing := true;
    }

    /** The head of `drain`'s loop: the entry to publish, if any is left. */
    method BeginNext() returns (entry: Option<Entry>)
      requires Valid() && flushing && flushingEntry == None
      modifies this`flushing, this`flushingEntry, this`discardAfterPublish
      ensures Valid() && State() == Next(old(State()), limits, Begin)
      ensures entry == if events == [] then None else Some(events[0])
    {
      if events == [] {
        flushing := false;
        return None;
      }
      flushingEntry := Some(events[0]);
      discardAfterPublish := false;
      entry := flushingEntry;
    }

    /** The end of an iteration: published, or skipped because it cannot be decoded. */
    method Settle(published: bool)
      requires Valid() && flushingEntry.Some?
      modifies this`events, this`bytes, this`flushingEntry, this`discardAfterPublish, this`delivered
      ensures Valid() && State() == Next(old(State()), limits, if published then Published else Undecodable)
    {
      RemovedKeeps(State(), limits);
      if published { delivered := delivered + [events[0].id]; }
      bytes := bytes - |events[0].encoded|;
      events := events[1..];
      flushingEntry, discardAfterPublish := None, false;
    }

    /** The publication failed: the entry stays for the next flush unless it was cleared meanwhile. */
    method Fail()
      requires Valid() && flushingEntry.Some?
      modifies this`events, this`bytes, this`flushing, this`flushingEntry, this`discardAfterPublish
      ensures Valid() && State() == Next(old(State()), limits, Failed)
    {
      RemovedKeeps(State(), limits);
      if discardAfterPublish {
        bytes := bytes - |events[0].encoded|;
        events := events[1..];
      }
      flushingEntry, discardAfterPublish, flushing := None, false, false;
    }

    /** The active publisher still owns its bytes until it settles. */
    method ClearAll()
      requires Valid()
      modifies this`events, this`bytes, this`discardAfterPublish
      ensures Valid() && State() == Next(old(State()), limits, Clear)
    {
      NextKeeps(State(), limits, Clear);
      events := [];
      bytes := 0;
      if flushingEntry.Some? {
        discardAfterPublish := true;
        events := [flushingEntry.value];
        bytes := |flushingEntry.value.encoded|;
      }
    }
  }
}
