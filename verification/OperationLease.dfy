/** Local ownership of a coordinated operation: the deadline kept by `maintainOperationLease`
    against the record on the server. Times are in microseconds; the script rounds its own
    clock down to milliseconds, which is what the results below turn on. */
module OperationLease {
  import opened Common
  import opened Coordinator
  import LocalLease

  type Local = LocalLease.Local

  /** What the helper does with an answer to its renewal. */
  function OnReply(l: Local, now: int, requestedAt: int, reply: Option<nat>): Local {
    if l.stopped then l
    else if l.deadline <= now || reply == None then LocalLease.Lose(l)
    else
      var next := l.(deadline := requestedAt + 1000 * reply.value);
      if next.deadline <= now then LocalLease.Lose(next) else next
  }

  /** The helper's first state, from the reply to `begin`. */
  function Started(startedAt: int, now: int, remainingMs: nat): Local {
    var l := LocalLease.Local(startedAt + 1000 * remainingMs, false, false);
    if l.deadline <= now then LocalLease.Lose(l) else l
  }

  class Controller {
    var deadline: int
    var stopped: bool
    var lost: bool

    function State(): Local
      reads this
    {
      LocalLease.Local(deadline, stopped, lost)
    }

    constructor (remainingMs: nat, startedAt: int, now: int)
      ensures State() == Started(startedAt, now, remainingMs)
    {
      deadline := startedAt + 1000 * remainingMs;
      stopped, lost := false, false;
      new;
      if deadline <= now { Lose(); }
    }

    method Lose()
      modifies this`stopped, this`lost
      ensures State() == (if old(stopped) then old(State()) else old(State()).(stopped := true, lost := true))
    {
      if stopped { return; }
      lost := true;
      stopped := true;
    }

    method AssertLive(now: int) returns (live: bool)
      modifies this`stopped, this`lost
      ensures State() == LocalLease.Assert(old(State()), now) && live == !lost
      ensures !old(stopped) && !old(lost) ==> (live <==> LocalLease.Passes(old(State()), now))
    {
      if !stopped && deadline <= now { Lose(); }
      live := !lost;
    }

    method OnRenewed(requestedAt: int, reply: Option<nat>, now: int)
      modifies this
      ensures State() == OnReply(old(State()), now, requestedAt, reply)
    {
      if stopped { return; }
      if deadline <= now || reply == None { Lose(); return; }
      deadline := requestedAt + 1000 * reply.value;
      if deadline <= now { Lose(); }
    }
  }

  // ---------- Clients, requests in flight and the record ----------

  datatype Renewal = Resting | Sent(at: nat) | Answered(at: nat, reply: Option<nat>)

  /** `until` is the end, in the server's milliseconds, of the lease last granted to the client. */
  datatype Client =
    | Idle
    | Asking(leaseMs: nat, sentAt: nat)
    | Granted(leaseMs: nat, sentAt: nat, ms: nat, until: nat)
    | Held(leaseMs: nat, lease: Local, renewal: Renewal, until: nat)

  /** Clients are named by their owner tokens. `dispatched`: every client gave a `startedAt` read
      before its request. `aligned`: every local deadline was counted from no later than the
      start of the server's millisecond. */
  datatype Sys = Sys(base: Request, now: nat, record: Option<Record>, clients: map<string, Client>,
                     dispatched: bool, aligned: bool)

  datatype Step =
    | Ask(owner: string, leaseMs: nat)
    | ServeAsk(owner: string)
    | Deliver(owner: string, given: bool)
    | RenewStart(owner: string)
    | ServeRenew(owner: string)
    | RenewEnd(owner: string, heard: bool)
    | Timer(owner: string)
    | Stop(owner: string)
    | Other(request: Request)
    | Wait(us: nat)

  function Fresh(base: Request): Sys {
    Sys(base, 0, None, map[], true, true)
  }

  function ClientOf(s: Sys, owner: string): Client {
    if owner in s.clients then s.clients[owner] else Idle
  }

  function Put(s: Sys, owner: string, c: Client): Sys {
    s.(clients := s.clients[owner := c])
  }

  function LiveRecord(r: Option<Record>, ms: nat): Option<Record> {
    if r.Some? && ms < r.value.retainUntil then r else None
  }

  function Answer(s: Sys, q: Request): Outcome {
    Respond(LiveRecord(s.record, s.now / 1000), s.now / 1000, q)
  }

  function Serve(s: Sys, q: Request): Sys {
    var o := Answer(s, q);
    if o.Put? then s.(record := Some(o.record)) else s
  }

  function Command(s: Sys, verb: Verb, owner: string, leaseMs: nat): Request {
    s.base.(verb := verb, owner := owner, lease := Some(leaseMs))
  }

  /** Renewals for a client carry its store's own lease length. */
  predicate Fair(s: Sys, q: Request) {
    q.verb.Renew? && !ClientOf(s, q.owner).Idle? ==> q.lease == Some(ClientOf(s, q.owner).leaseMs as int)
  }

  function Next(s: Sys, step: Step): Sys {
    match step
    case Ask(owner, leaseMs) => if ClientOf(s, owner).Idle? then Put(s, owner, Asking(leaseMs, s.now)) else s
    case ServeAsk(owner) => if ClientOf(s, owner).Asking? then DoServeAsk(s, owner) else s
    case Deliver(owner, given) => if ClientOf(s, owner).Granted? then DoDeliver(s, owner, given) else s
    case RenewStart(owner) =>
      var c := ClientOf(s, owner);
      if !c.Held? || !c.renewal.Resting? || c.lease.stopped then s
      else
        var l := LocalLease.Assert(c.lease, s.now);
        Put(s, owner, c.(lease := l, renewal := if l.lost then Resting else Sent(s.now)))
    case ServeRenew(owner) =>
      if ClientOf(s, owner).Held? && s.clients[owner].renewal.Sent? then DoServeRenew(s, owner) else s
    case RenewEnd(owner, heard) =>
      if ClientOf(s, owner).Held? && !s.clients[owner].renewal.Resting? then DoRenewEnd(s, owner, heard) else s
    case Timer(owner) =>
      if ClientOf(s, owner).Held? then Put(s, owner, s.clients[owner].(lease := LocalLease.Lose(s.clients[owner].lease))) else s
    case Stop(owner) =>
      if ClientOf(s, owner).Held? then Put(s, owner, s.clients[owner].(lease := s.clients[owner].lease.(stopped := true))) else s
    case Other(q) => if Fair(s, q) then Serve(s, q) else s
    case Wait(us) => s.(now := s.now + us)
  }

  /** The reply is refused when it reports a lease longer than the client's own. */
  function DoServeAsk(s: Sys, owner: string): Sys
    requires ClientOf(s, owner).Asking?
  {
    var c := s.clients[owner];
    var q := Command(s, Begin, owner, c.leaseMs);
    var reply := Answer(s, q).reply;
    Put(Serve(s, q), owner,
        if reply.Acquired? && reply.ms <= c.leaseMs then Granted(c.leaseMs, c.sentAt, reply.ms, s.now / 1000 + reply.ms) else Idle)
  }

  function DoDeliver(s: Sys, owner: string, given: bool): Sys
    requires ClientOf(s, owner).Granted?
  {
    var c := s.clients[owner];
    var startedAt := if given then c.sentAt else s.now;
    Put(s, owner, Held(c.leaseMs, Started(startedAt, s.now, c.ms), Resting, c.until)).(
      dispatched := s.dispatched && given, aligned := s.aligned && startedAt <= 1000 * (c.until - c.ms))
  }

  function DoServeRenew(s: Sys, owner: string): Sys
    requires ClientOf(s, owner).Held? && s.clients[owner].renewal.Sent?
  {
    var c := s.clients[owner];
    var q := Command(s, Renew, owner, c.leaseMs);
    var reply := Answer(s, q).reply;
    Put(Serve(s, q), owner,
        c.(renewal := Answered(c.renewal.at, if reply.Renewed? then Some(reply.ms) else None),
           until := if reply.Renewed? then s.now / 1000 + reply.ms else c.until))
  }

  function DoRenewEnd(s: Sys, owner: string, heard: bool): Sys
    requires ClientOf(s, owner).Held? && !s.clients[owner].renewal.Resting?
  {
    var c := s.clients[owner];
    if c.renewal.Answered? && heard then
      var l := OnReply(c.lease, s.now, c.renewal.at, c.renewal.reply);
      Put(s, owner, c.(lease := l, renewal := Resting)).(
        aligned := s.aligned && (c.renewal.reply.Some? ==> c.renewal.at <= 1000 * (c.until - c.renewal.reply.value)))
    else Put(s, owner, c.(lease := LocalLease.Lose(c.lease)))
  }

  // ---------- The invariant ----------

  /** The record names the owner, and is completed or not expired. */
  predicate Owns(r: Option<Record>, owner: string, ms: nat) {
    && r.Some? && ms < r.value.retainUntil && r.value.owner == owner
    && (r.value.phase.Pending? ==> ms < r.value.phase.leaseUntil)
  }

  function Promised(c: Client): nat {
    if c.Granted? || c.Held? then c.until else 0
  }

  /** A promised lease stands until it ends. */
  predicate Kept(r: Option<Record>, owner: string, end: nat) {
    && r.Some? && r.value.owner == owner && end <= r.value.retainUntil
    && (r.value.phase.Pending? ==> end <= r.value.phase.leaseUntil)
  }

  predicate ServerInv(s: Sys) {
    && (s.record.Some? ==> Valid(s.record.value))
    && (forall owner | owner in s.clients && s.now / 1000 < Promised(s.clients[owner]) ::
          Kept(s.record, owner, Promised(s.clients[owner])))
  }

  /** A request read at `at` was answered in the millisecond that ends up `ms` before `until`. */
  predicate AskedBefore(at: int, until: nat, ms: nat) {
    ms <= until && at <= 1000 * (until - ms) + 999
  }

  predicate ClientInv(s: Sys, c: Client) {
    match c
    case Idle => true
    case Asking(_, sentAt) => sentAt <= s.now
    case Granted(leaseMs, sentAt, ms, until) => until <= s.now / 1000 + leaseMs && AskedBefore(sentAt, until, ms)
    case Held(leaseMs, lease, renewal, until) =>
      && until <= s.now / 1000 + leaseMs
      && (lease.lost ==> lease.stopped)
      && (renewal.Sent? ==> renewal.at <= s.now)
      && (renewal.Answered? && renewal.reply.Some? ==> AskedBefore(renewal.at, until, renewal.reply.value))
      && (!lease.stopped && s.dispatched ==> lease.deadline <= 1000 * until + 999)
      && (!lease.stopped && s.aligned ==> lease.deadline <= 1000 * until)
  }

  predicate Inv(s: Sys) {
    ServerInv(s) && forall owner | owner in s.clients :: ClientInv(s, s.clients[owner])
  }

  /** No command takes a lease from an owner that was promised it until `end`. */
  lemma ServeKeepsPromise(s: Sys, q: Request, owner: string, end: nat, leaseMs: nat)
    requires (s.record.Some? ==> Valid(s.record.value)) && s.now / 1000 < end <= s.now / 1000 + leaseMs
    requires Kept(s.record, owner, end) && (q.verb.Renew? && q.owner == owner ==> q.lease == Some(leaseMs as int))
    ensures Kept(Serve(s, q).record, owner, end)
  {
  }

  lemma ServeKeepsValid(s: Sys, q: Request)
    requires s.record.Some? ==> Valid(s.record.value)
    ensures Serve(s, q).record.Some? ==> Valid(Serve(s, q).record.value)
  {
    RespondKeepsValid(LiveRecord(s.record, s.now / 1000), s.now / 1000, q);
  }

  /** A granted lease stands in the record that the command leaves. */
  lemma GrantIsKept(s: Sys, q: Request)
    requires s.record.Some? ==> Valid(s.record.value)
    ensures var reply := Answer(s, q).reply;
      reply.Acquired? || reply.Renewed? ==> Kept(Serve(s, q).record, q.owner, s.now / 1000 + reply.ms)
    ensures Answer(s, q).reply.Renewed? ==> Some(Answer(s, q).reply.ms as int) == q.lease
  {
    ServeKeepsValid(s, q);
  }

  /** All promises but that of the client the command serves. */
  lemma OthersKept(s: Sys, q: Request)
    requires Inv(s) && Fair(s, q)
    ensures var t := Serve(s, q);
      && (t.record.Some? ==> Valid(t.record.value))
      && (forall owner | owner in s.clients && s.now / 1000 < Promised(s.clients[owner]) ::
            Kept(t.record, owner, Promised(s.clients[owner])))
  {
    hide Serve;
    ServeKeepsValid(s, q);
    forall owner | owner in s.clients && s.now / 1000 < Promised(s.clients[owner])
      ensures Kept(Serve(s, q).record, owner, Promised(s.clients[owner]))
    {
      assert ClientInv(s, s.clients[owner]);
      ServeKeepsPromise(s, q, owner, Promised(s.clients[owner]), s.clients[owner].leaseMs);
    }
  }

  /** What a client may believe does not depend on the record. */
  lemma ServedOnly(s: Sys, t: Sys, owner: string)
    requires t == s.(record := t.record, clients := t.clients) && owner in t.clients
    requires t.clients == s.clients[owner := t.clients[owner]] && Inv(s) && ClientInv(s, t.clients[owner])
    ensures forall o | o in t.clients :: ClientInv(t, t.clients[o])
  {
    forall o | o in t.clients ensures ClientInv(t, t.clients[o]) {
      assert ClientInv(s, t.clients[o]) by { if o != owner { assert ClientInv(s, s.clients[o]); } }
    }
  }

  /** A grant in flight promises no more than the client asked for. */
  lemma AskedPromise(s: Sys, before: Client, c: Client)
    requires ClientInv(s, before) && before.Asking?
    requires c.Idle? || (c.Granted? && c == Granted(before.leaseMs, before.sentAt, c.ms, s.now / 1000 + c.ms))
    requires c.Granted? ==> c.ms <= c.leaseMs
    ensures ClientInv(s, c)
  {
  }

  lemma ServeAskKeeps(s: Sys, owner: string)
    requires Inv(s) && ClientOf(s, owner).Asking?
    ensures Inv(DoServeAsk(s, owner))
  {
    hide Answer, Serve, Kept;
    var q := Command(s, Begin, owner, s.clients[owner].leaseMs);
    OthersKept(s, q);
    GrantIsKept(s, q);
    assert ClientInv(s, s.clients[owner]);
    var t := DoServeAsk(s, owner);
    ServeOnly(s, q);
    assert t.clients == s.clients[owner := t.clients[owner]] && t.now == s.now && t.record == Serve(s, q).record;
    AskedPromise(s, s.clients[owner], t.clients[owner]);
    ServedOnly(s, t, owner);
  }

  /** Serving a command touches the record alone. */
  lemma ServeOnly(s: Sys, q: Request)
    ensures Serve(s, q) == s.(record := Serve(s, q).record)
  {
  }

  /** A renewal in flight only lengthens the promise. */
  lemma RenewedPromise(s: Sys, before: Client, c: Client)
    requires ClientInv(s, before) && before.Held? && before.renewal.Sent? && c.Held? && c.lease == before.lease
    requires c.leaseMs == before.leaseMs && c.renewal.Answered? && c.renewal.at == before.renewal.at
    requires if c.renewal.reply.Some? then c.renewal.reply.value == c.leaseMs && c.until == s.now / 1000 + c.leaseMs
             else c.until == before.until
    ensures ClientInv(s, c)
  {
  }

  lemma ServeRenewKeeps(s: Sys, owner: string)
    requires Inv(s) && ClientOf(s, owner).Held? && s.clients[owner].renewal.Sent?
    ensures Inv(DoServeRenew(s, owner))
  {
    hide Answer, Serve, Kept;
    var c := s.clients[owner];
    var q := Command(s, Renew, owner, c.leaseMs);
    OthersKept(s, q);
    GrantIsKept(s, q);
    ServeOnly(s, q);
    assert ClientInv(s, c);
    var t := DoServeRenew(s, owner);
    RenewedPromise(s, c, t.clients[owner]);
    ServedOnly(s, t, owner);
  }

  lemma OtherKeeps(s: Sys, q: Request)
    requires Inv(s) && Fair(s, q)
    ensures Inv(Serve(s, q))
  {
    hide Serve, Kept;
    OthersKept(s, q);
    ServeOnly(s, q);
    var t := Serve(s, q);
    forall o | o in t.clients ensures ClientInv(t, t.clients[o]) { assert ClientInv(s, s.clients[o]); }
  }

  /** A step of one client that leaves the record and the client's promise alone. */
  lemma ClientOnly(s: Sys, t: Sys, owner: string)
    requires Inv(s) && owner in t.clients && t.clients == s.clients[owner := t.clients[owner]]
    requires t == s.(clients := t.clients, dispatched := t.dispatched, aligned := t.aligned)
    requires (t.dispatched ==> s.dispatched) && (t.aligned ==> s.aligned)
    requires ClientInv(t, t.clients[owner])
    requires Promised(t.clients[owner]) == Promised(ClientOf(s, owner))
    ensures Inv(t)
  {
    forall o | o in t.clients ensures ClientInv(t, t.clients[o]) { if o != owner { assert ClientInv(s, s.clients[o]); } }
  }

  lemma StepKeeps(s: Sys, step: Step)
    requires Inv(s)
    ensures Inv(Next(s, step))
  {
    var t := Next(s, step);
    match step
    case ServeAsk(owner) => if ClientOf(s, owner).Asking? { ServeAskKeeps(s, owner); }
    case ServeRenew(owner) => if ClientOf(s, owner).Held? && s.clients[owner].renewal.Sent? { ServeRenewKeeps(s, owner); }
    case Other(q) => if Fair(s, q) { OtherKeeps(s, q); }
    case Wait(us) => WaitKeeps(s, us);
    case _ => ClientStepKeeps(s, step);
  }

  lemma WaitKeeps(s: Sys, us: nat)
    requires Inv(s)
    ensures Inv(s.(now := s.now + us))
  {
    var t := s.(now := s.now + us);
    forall o | o in t.clients ensures ClientInv(t, t.clients[o]) { assert ClientInv(s, s.clients[o]); }
  }

  lemma ClientStepKeeps(s: Sys, step: Step)
    requires Inv(s)
    requires step.Ask? || step.Deliver? || step.RenewStart? || step.RenewEnd? || step.Timer? || step.Stop?
    ensures Inv(Next(s, step))
  {
    var owner, t := step.owner, Next(s, step);
    if t != s {
      assert owner in s.clients ==> ClientInv(s, s.clients[owner]);
      ClientChange(s, step);
      hide ClientInv;
      ClientOnly(s, t, owner);
    }
  }

  lemma ClientChange(s: Sys, step: Step)
    requires (step.Ask? || step.Deliver? || step.RenewStart? || step.RenewEnd? || step.Timer? || step.Stop?)
    requires step.owner in s.clients ==> ClientInv(s, s.clients[step.owner])
    ensures var t := Next(s, step);
      t != s ==> step.owner in t.clients && ClientInv(t, t.clients[step.owner])
  {
  }

  ghost function After(base: Request, run: seq<Step>): (s: Sys)
    ensures Inv(s)
  {
    if run == [] then Fresh(base)
    else
      var s := After(base, run[..|run| - 1]);
      StepKeeps(s, run[|run| - 1]);
      Next(s, run[|run| - 1])
  }

  // ---------- What a passing check means ----------

  predicate PassesAt(s: Sys, owner: string, at: int) {
    ClientOf(s, owner).Held? && LocalLease.Passes(s.clients[owner].lease, at)
  }

  /** With a `startedAt` read before the request, a local check that would still pass 999
      microseconds later means that the operation is this owner's on the server. */
  lemma PassingMeansOwning(base: Request, run: seq<Step>, owner: string)
    requires var s := After(base, run); s.dispatched && PassesAt(s, owner, s.now + 999)
    ensures var s := After(base, run); Owns(s.record, owner, s.now / 1000)
  {
    var s := After(base, run);
    assert ClientInv(s, s.clients[owner]);
  }

  /** The margin is not needed when the deadlines were counted from the start of the server's
      millisecond or earlier. */
  lemma AlignedPassingMeansOwning(base: Request, run: seq<Step>, owner: string)
    requires var s := After(base, run); s.aligned && PassesAt(s, owner, s.now)
    ensures var s := After(base, run); Owns(s.record, owner, s.now / 1000)
  {
    var s := After(base, run);
    assert ClientInv(s, s.clients[owner]);
  }

  /** So at most one client passes at any instant. */
  lemma OnePasses(base: Request, run: seq<Step>, a: string, b: string)
    requires var s := After(base, run);
      || (s.dispatched && PassesAt(s, a, s.now + 999) && PassesAt(s, b, s.now + 999))
      || (s.aligned && PassesAt(s, a, s.now) && PassesAt(s, b, s.now))
    ensures a == b
  {
    var s := After(base, run);
    if s.dispatched && PassesAt(s, a, s.now + 999) && PassesAt(s, b, s.now + 999) {
      PassingMeansOwning(base, run, a);
      PassingMeansOwning(base, run, b);
    } else {
      AlignedPassingMeansOwning(base, run, a);
      AlignedPassingMeansOwning(base, run, b);
    }
  }

  /** A lease granted at `served` for `ms` milliseconds, and a local deadline counted from
      `startedAt`: at the end of the lease on the server another owner is granted the operation,
      and the first one's check still passes, exactly when `startedAt` is past the start of the
      server's millisecond. */
  lemma OverlapIff(startedAt: nat, served: nat, now: nat, ms: nat, r: Record, q: Request)
    requires startedAt <= now < startedAt + 1000 * ms && r.phase == Pending(served / 1000 + ms)
    requires q.verb.Begin? && q.owner != r.owner
    requires var end := served / 1000 + ms;
      Accepted(Some(r), end, q) && end < r.retainUntil <= end + MAX_RETENTION
    ensures var end := 1000 * (served / 1000 + ms);
      && Respond(LiveRecord(Some(r), end / 1000), end / 1000, q).reply.Acquired?
      && (LocalLease.Passes(Started(startedAt, now, ms), end) <==> 1000 * (served / 1000) < startedAt)
  {
    assert 1000 * (served / 1000 + ms) / 1000 == served / 1000 + ms;
  }

  /** Counting from the arrival of the reply loses the whole way back: after any delay the check
      still passes that long after the lease ended on the server. */
  lemma UndatedDeadlineOverruns(served: nat, delay: nat, ms: nat)
    requires 0 < ms && 0 < delay
    ensures var arrived := served + delay;
      LocalLease.Passes(Started(arrived, arrived, ms), 1000 * (served / 1000 + ms) + delay - 1)
  {
  }
}
