/** Local ownership of a distributed lock: the deadline kept by `maintainLock` against the
    lock cell on the server. One step is the code between two awaits, or one command at the
    server; requests and replies take any time. */
module LocalLease {
  import opened Common
  import opened FencedLease

  // ---------- The lease object ----------

  /** `error` is set exactly when the lease was lost before it was stopped. */
  datatype Local = Local(deadline: int, stopped: bool, lost: bool)

  /** The first deadline, from one monotonic and two wall-clock readings. */
  function FirstDeadline(ttl: Ttl, now: int, wallAsked: int, wallNow: int): int {
    now + Max(0, ttl - Max(0, wallNow - wallAsked))
  }

  function Lose(l: Local): Local {
    if l.stopped then l else Local(l.deadline, true, true)
  }

  /** `assertOwned` may notice that the deadline passed; it returns unless `lost`. */
  function Assert(l: Local, now: int): Local {
    if !l.stopped && l.deadline <= now then Lose(l) else l
  }

  /** The renewal's continuation: a late answer cannot revive a lease. */
  function Renewed(l: Local, now: int, startedAt: int, ttl: Ttl, renewed: bool): Local {
    if l.stopped then l
    else
      var a := Assert(l, now);
      if a.lost || !renewed then Lose(a) else a.(deadline := startedAt + ttl)
  }

  /** An ownership check made now returns, and the lease was not stopped. */
  predicate Passes(l: Local, now: int) {
    !l.stopped && !l.lost && now < l.deadline
  }

  class LoadLease {
    const ttl: Ttl
    var deadline: int
    var stopped: bool
    var lost: bool

    function State(): Local
      reads this
    {
      Local(deadline, stopped, lost)
    }

    constructor (ttl: Ttl, acquiredAt: int, wallNow: int, now: int)
      ensures this.ttl == ttl && State() == Local(FirstDeadline(ttl, now, acquiredAt, wallNow), false, false)
    {
      this.ttl := ttl;
      var age := if wallNow - acquiredAt < 0 then 0 else wallNow - acquiredAt;
      deadline := now + if ttl - age < 0 then 0 else ttl - age;
      stopped, lost := false, false;
    }

    method Stop()
      modifies this`stopped
      ensures stopped
    {
      stopped := true;
    }

    method LoseIt()
      modifies this`stopped, this`lost
      ensures State() == Lose(old(State()))
    {
      if stopped { return; }
      lost := true;
      Stop();
    }

    /** Before a stop, the check returns exactly while the deadline is ahead and no loss was seen. */
    method AssertOwned(now: int) returns (returns_: bool)
      modifies this`stopped, this`lost
      ensures State() == Assert(old(State()), now)
      ensures returns_ == !lost
      ensures !old(stopped) && !old(lost) ==> (returns_ <==> Passes(old(State()), now))
    {
      if !stopped && deadline <= now { LoseIt(); }
      returns_ := !lost;
    }

    method OnRenewed(startedAt: int, renewed: bool, now: int)
      modifies this`deadline, this`stopped, this`lost
      ensures State() == Renewed(old(State()), now, startedAt, ttl, renewed)
    {
      if stopped { return; }
      var owned := AssertOwned(now);
      if !owned { LoseIt(); return; }
      if !renewed { LoseIt(); return; }
      deadline := startedAt + ttl;
    }
  }

  // ---------- Clients, requests in flight and the server ----------

  datatype Renewal = Resting | Sent(startedAt: nat) | Answered(startedAt: nat, renewed: bool)

  datatype Client =
    | Idle
    | Asking(ttl: Ttl, sentAt: nat, wallAsked: int)
    | Granted(ttl: Ttl, sentAt: nat, wallAsked: int)
    | Loading(ttl: Ttl, lease: Local, renewal: Renewal)

  /** A client is named by the token of its load. `fenced` holds the tokens whose lock a direct
      set or delete removed since it was granted; `steady` says that no wall clock ran slow
      between a request and its answer. */
  datatype Sys = Sys(key: Key, server: Server, clients: map<Token, Client>, fenced: set<Token>, steady: bool)

  function Fresh(key: Key): Sys {
    Sys(key, Server(0, map[], map[]), map[], {}, true)
  }

  datatype Step =
    | Ask(token: Token, ttl: Ttl, wall: int)
    | ServeAsk(token: Token)
    | Deliver(token: Token, wall: int)
    | GiveUp(token: Token)
    | RenewStart(token: Token)
    | ServeRenew(token: Token)
    | RenewEnd(token: Token, heard: bool)
    | Timer(token: Token)
    | Check(token: Token)
    | Stop(token: Token)
    | ServeRelease(token: Token)
    | Fence(payload: Option<(seq<Byte>, Ttl)>)
    | Wait(ms: nat)

  function ClientOf(s: Sys, token: Token): Client {
    if token in s.clients then s.clients[token] else Idle
  }

  function Put(s: Sys, token: Token, c: Client): Sys {
    s.(clients := s.clients[token := c])
  }

  /** Between request and answer the wall clock advanced as much as the monotonic clock, as far
      as the lifetime of the lock goes. */
  predicate Steady(ttl: Ttl, elapsed: nat, wallElapsed: int) {
    Min(elapsed, ttl) <= Max(0, wallElapsed)
  }

  function WithLease(s: Sys, token: Token, l: Local): Sys
    requires ClientOf(s, token).Loading?
  {
    Put(s, token, s.clients[token].(lease := l))
  }

  function Next(s: Sys, step: Step): Sys {
    var now := s.server.now;
    match step
    case Ask(token, ttl, wall) => if ClientOf(s, token).Idle? then Put(s, token, Asking(ttl, now, wall)) else s
    case ServeAsk(token) =>
      var c := ClientOf(s, token);
      if !c.Asking? then s
      else if !Accepts(s.server, Acquire(s.key, token, c.ttl)) then Put(s, token, Idle)
      else Put(s, token, Granted(c.ttl, c.sentAt, c.wallAsked)).(
        server := Execute(s.server, Acquire(s.key, token, c.ttl)), fenced := s.fenced - {token})
    case Deliver(token, wall) =>
      var c := ClientOf(s, token);
      if !c.Granted? then s
      else Put(s, token, Loading(c.ttl, Local(FirstDeadline(c.ttl, now, c.wallAsked, wall), false, false), Resting)).(
        steady := s.steady && c.sentAt <= now && Steady(c.ttl, now - c.sentAt, wall - c.wallAsked))
    case GiveUp(token) =>
      if ClientOf(s, token).Asking? || ClientOf(s, token).Granted? then Put(s, token, Idle) else s
    case RenewStart(token) =>
      var c := ClientOf(s, token);
      if !c.Loading? || !c.renewal.Resting? || c.lease.stopped then s
      else
        var l := Assert(c.lease, now);
        Put(s, token, Loading(c.ttl, l, if l.lost then Resting else Sent(now)))
    case ServeRenew(token) =>
      var c := ClientOf(s, token);
      if !c.Loading? || !c.renewal.Sent? then s
      else
        var renew := Renew(s.key, token, c.ttl);
        Put(s, token, c.(renewal := Answered(c.renewal.startedAt, Accepts(s.server, renew)))).(
          server := Execute(s.server, renew))
    case RenewEnd(token, heard) =>
      var c := ClientOf(s, token);
      if !c.Loading? || c.renewal.Resting? then s
      else if c.renewal.Answered? && heard then
        Put(s, token, Loading(c.ttl, Renewed(c.lease, now, c.renewal.startedAt, c.ttl, c.renewal.renewed), Resting))
      else Put(s, token, Loading(c.ttl, Lose(c.lease), c.renewal))
    case Timer(token) => if ClientOf(s, token).Loading? then WithLease(s, token, Lose(s.clients[token].lease)) else s
    case Check(token) => if ClientOf(s, token).Loading? then WithLease(s, token, Assert(s.clients[token].lease, now)) else s
    case Stop(token) =>
      if ClientOf(s, token).Loading? then WithLease(s, token, s.clients[token].lease.(stopped := true)) else s
    case ServeRelease(token) =>
      if ClientOf(s, token).Loading? && s.clients[token].lease.stopped
      then s.(server := Execute(s.server, Release(s.key, token))) else s
    case Fence(payload) =>
      var c := match payload case None => DeleteDirect(s.key) case Some(p) => SetDirect(s.key, p.0, p.1);
      s.(server := Execute(s.server, c),
         fenced := s.fenced + if Holder(s.server, s.key).Some? then {Holder(s.server, s.key).value} else {})
    case Wait(ms) => s.(server := Execute(s.server, Elapse(ms)))
  }

  // ---------- The invariant ----------

  /** Until when the client may believe, now or after an answer in flight, that it owns the lock. */
  function Belief(c: Client): int {
    match c
    case Granted(ttl, sentAt, _) => sentAt + ttl
    case Loading(ttl, lease, renewal) =>
      if lease.stopped then 0
      else if renewal.Answered? && renewal.renewed then Max(lease.deadline, renewal.startedAt + ttl)
      else lease.deadline
    case _ => 0
  }

  predicate Believed(s: Sys, token: Token) {
    token in s.clients && token !in s.fenced && s.server.now < Belief(s.clients[token])
  }

  predicate Backed(s: Sys, token: Token)
    requires token in s.clients
  {
    && s.key in s.server.locks && s.server.locks[s.key].token == token
    && Belief(s.clients[token]) <= s.server.locks[s.key].until
  }

  predicate TimesOk(c: Client, now: nat) {
    && (c.Asking? || c.Granted? ==> c.sentAt <= now)
    && (c.Loading? && (c.renewal.Sent? || c.renewal.Answered?) ==> c.renewal.startedAt <= now)
    && (c.Loading? && c.lease.lost ==> c.lease.stopped)
    && (c.Loading? ==> c.lease.deadline <= now + c.ttl)
  }

  ghost predicate Inv(s: Sys) {
    && (forall token | token in s.clients :: TimesOk(s.clients[token], s.server.now))
    && (s.steady ==> forall token | Believed(s, token) :: Backed(s, token))
  }

  /** The first deadline is within the lifetime on the server exactly when the clocks were steady. */
  lemma FirstDeadlineIsSafe(ttl: Ttl, sentAt: nat, now: nat, wallAsked: int, wallNow: int)
    requires sentAt <= now
    ensures FirstDeadline(ttl, now, wallAsked, wallNow) <= Max(now, sentAt + ttl)
      <==> Steady(ttl, now - sentAt, wallNow - wallAsked)
  {
  }

  /** A step that changes one client, leaves the server, and raises no belief. */
  lemma ClientOnly(s: Sys, t: Sys, token: Token)
    requires Inv(s) && t == s.(clients := t.clients, steady := t.steady) && token in t.clients
    requires t.clients == s.clients[token := t.clients[token]]
    requires TimesOk(t.clients[token], s.server.now)
    requires t.steady ==> s.steady
    requires t.steady && Believed(t, token) ==> token in s.clients && Belief(t.clients[token]) <= Belief(s.clients[token])
    ensures Inv(t)
  {
    forall other | t.steady && Believed(t, other) ensures Backed(t, other) {
      if other != token { assert Believed(s, other); }
      assert Backed(s, other);
    }
  }

  /** A belief in a steady system is true. */
  lemma BelieverHolds(s: Sys, token: Token)
    requires Inv(s) && s.steady
    ensures Believed(s, token) ==> Holder(s.server, s.key) == Some(token) && Backed(s, token)
  {
    assert Believed(s, token) ==> Backed(s, token);
  }

  lemma ServeAskKeeps(s: Sys, token: Token)
    requires Inv(s)
    ensures Inv(Next(s, ServeAsk(token)))
  {
    var t := Next(s, ServeAsk(token));
    if t != s && t.server == s.server {
      ClientOnly(s, t, token);
    } else if t != s {
      forall other | t.steady && Believed(t, other) ensures Backed(t, other) {
        BelieverHolds(s, other);
      }
    }
  }

  lemma ServeRenewKeeps(s: Sys, token: Token)
    requires Inv(s)
    ensures Inv(Next(s, ServeRenew(token)))
  {
    var t := Next(s, ServeRenew(token));
    if t != s {
      var c := s.clients[token];
      if Accepts(s.server, Renew(s.key, token, c.ttl)) {
        forall other | t.steady && Believed(t, other) ensures Backed(t, other) {
          BelieverHolds(s, other);
        }
      } else {
        ClientOnly(s, t, token);
      }
    }
  }

  lemma DeliverKeeps(s: Sys, token: Token, wall: int)
    requires Inv(s)
    ensures Inv(Next(s, Deliver(token, wall)))
  {
    var c, t := ClientOf(s, token), Next(s, Deliver(token, wall));
    if c.Granted? {
      FirstDeadlineIsSafe(c.ttl, c.sentAt, s.server.now, c.wallAsked, wall);
      ClientOnly(s, t, token);
    }
  }

  /** Releases and fences take the lock from its holder, who is stopped or counted as fenced. */
  lemma UnlockKeeps(s: Sys, step: Step)
    requires Inv(s) && (step.ServeRelease? || step.Fence?)
    ensures Inv(Next(s, step))
  {
    var t := Next(s, step);
    forall other | t.steady && Believed(t, other) ensures Backed(t, other) {
      BelieverHolds(s, other);
    }
  }

  lemma WaitKeeps(s: Sys, ms: nat)
    requires Inv(s)
    ensures Inv(Next(s, Wait(ms)))
  {
    var t := Next(s, Wait(ms));
    forall other | t.steady && Believed(t, other) ensures Backed(t, other) {
      assert Believed(s, other);
    }
  }

  lemma ClientStepKeeps(s: Sys, step: Step)
    requires Inv(s)
    requires step.Ask? || step.GiveUp? || step.RenewStart? || step.RenewEnd? || step.Timer? || step.Check? || step.Stop?
    ensures Inv(Next(s, step))
  {
    var t := Next(s, step);
    if t != s { ClientOnly(s, t, step.token); }
  }

  lemma StepKeeps(s: Sys, step: Step)
    requires Inv(s)
    ensures Inv(Next(s, step))
  {
    hide Next, Inv;
    match step
    case ServeAsk(token) => ServeAskKeeps(s, token);
    case Deliver(token, wall) => DeliverKeeps(s, token, wall);
    case ServeRenew(token) => ServeRenewKeeps(s, token);
    case ServeRelease(_) => UnlockKeeps(s, step);
    case Fence(_) => UnlockKeeps(s, step);
    case Wait(ms) => WaitKeeps(s, ms);
    case _ => ClientStepKeeps(s, step);
  }

  ghost function After(key: Key, run: seq<Step>): (s: Sys)
    ensures Inv(s)
  {
    if run == [] then Fresh(key)
    else
      var s := After(key, run[..|run| - 1]);
      StepKeeps(s, run[|run| - 1]);
      Next(s, run[|run| - 1])
  }

  // ---------- What a passing check means ----------

  predicate CheckPasses(s: Sys, token: Token) {
    ClientOf(s, token).Loading? && Passes(s.clients[token].lease, s.server.now)
  }

  /** Before `stop`, and while no fence removed the lock, a passing local check means that the
      server still holds that very token. */
  lemma PassingMeansHolding(key: Key, run: seq<Step>, token: Token)
    requires var s := After(key, run); s.steady && CheckPasses(s, token) && token !in s.fenced
    ensures var s := After(key, run); Holder(s.server, s.key) == Some(token)
  {
    var s := After(key, run);
    assert Believed(s, token);
    BelieverHolds(s, token);
  }

  /** So at most one client passes at any instant. */
  lemma OnePasses(key: Key, run: seq<Step>, a: Token, b: Token)
    requires var s := After(key, run);
      s.steady && CheckPasses(s, a) && CheckPasses(s, b) && a !in s.fenced && b !in s.fenced
    ensures a == b
  {
    PassingMeansHolding(key, run, a);
    PassingMeansHolding(key, run, b);
  }

  // ---------- The wall clock matters ----------

  /** Client `a` asks, its answer takes `elapsed`; once the lock expired `b` asks and is answered at once. */
  function Takeover(a: Token, b: Token, ttl: Ttl, elapsed: nat, wallElapsed: int): seq<Step> {
    [Ask(a, ttl, 0), ServeAsk(a), Wait(elapsed), Deliver(a, wallElapsed), Wait(Max(0, ttl - elapsed)),
     Ask(b, ttl, 0), ServeAsk(b), Deliver(b, 0)]
  }

  lemma AfterSnoc(key: Key, run: seq<Step>, step: Step)
    ensures After(key, run + [step]) == Next(After(key, run), step)
  {
    assert (run + [step])[..|run|] == run;
  }

  /** Both clients pass after the takeover exactly when the wall clock ran slow. */
  lemma SlowWallClockBreaksExclusion(key: Key, a: Token, b: Token, ttl: Ttl, elapsed: nat, wallElapsed: int)
    requires a != b
    ensures var s := After(key, Takeover(a, b, ttl, elapsed, wallElapsed));
      CheckPasses(s, b) && a !in s.fenced && b !in s.fenced &&
      (CheckPasses(s, a) <==> !Steady(ttl, elapsed, wallElapsed))
  {
    hide After, Inv, Next;
    var r := Takeover(a, b, ttl, elapsed, wallElapsed);
    assert After(key, r[..0]) == Fresh(key) by { FreshAfter(key, r); }
    for i := 0 to |r|
      invariant After(key, r[..i]) == Played(key, r, i)
    {
      assert r[..i + 1] == r[..i] + [r[i]];
      AfterSnoc(key, r[..i], r[i]);
    }
    assert r[..|r|] == r;
    TakeoverPlayed(key, a, b, ttl, elapsed, wallElapsed);
  }

  lemma FreshAfter(key: Key, r: seq<Step>)
    ensures After(key, r[..0]) == Fresh(key)
  {
  }

  function Played(key: Key, r: seq<Step>, n: nat): Sys
    requires n <= |r|
  {
    if n == 0 then Fresh(key) else Next(Played(key, r, n - 1), r[n - 1])
  }

  lemma PlayedEight(key: Key, r: seq<Step>)
    requires |r| == 8
    ensures var s4 := Next(Next(Next(Next(Fresh(key), r[0]), r[1]), r[2]), r[3]);
      Played(key, r, 8) == Next(Next(Next(Next(s4, r[4]), r[5]), r[6]), r[7])
  {
    hide Next;
    assert Played(key, r, 1) == Next(Fresh(key), r[0]);
    assert Played(key, r, 2) == Next(Next(Fresh(key), r[0]), r[1]);
    assert Played(key, r, 4) == Next(Next(Played(key, r, 2), r[2]), r[3]);
    assert Played(key, r, 6) == Next(Next(Played(key, r, 4), r[4]), r[5]);
  }

  /** The first four steps: `a` believes in its lock. */
  lemma FirstOwner(key: Key, a: Token, ttl: Ttl, elapsed: nat, wall: int)
    ensures Next(Next(Next(Next(Fresh(key), Ask(a, ttl, 0)), ServeAsk(a)), Wait(elapsed)), Deliver(a, wall)) ==
      Sys(key, Server(elapsed, map[], map[key := Lease(a, ttl)]),
          map[a := Loading(ttl, Local(FirstDeadline(ttl, elapsed, 0, wall), false, false), Resting)], {},
          Steady(ttl, elapsed, wall))
  {
    var s1 := Next(Fresh(key), Ask(a, ttl, 0));
    assert s1 == Sys(key, Server(0, map[], map[]), map[a := Asking(ttl, 0, 0)], {}, true);
    var s2 := Next(s1, ServeAsk(a));
    assert s2 == Sys(key, Server(0, map[], map[key := Lease(a, ttl)]), map[a := Granted(ttl, 0, 0)], {}, true);
  }

  /** The last four: `b` takes the lock over. */
  lemma SecondOwner(s: Sys, a: Token, b: Token, ttl: Ttl, ms: nat)
    requires a != b && s.clients.Keys == {a} && s.clients[a].Loading? && s.fenced == {}
    requires s.key in s.server.locks && s.server.locks[s.key].until <= s.server.now + ms
    ensures var t := Next(Next(Next(Next(s, Wait(ms)), Ask(b, ttl, 0)), ServeAsk(b)), Deliver(b, 0));
      && t.server.now == s.server.now + ms && t.clients.Keys == {a, b} && t.clients[a] == s.clients[a] && t.fenced == {}
      && t.clients[b] == Loading(ttl, Local(s.server.now + ms + ttl, false, false), Resting)
  {
    var s2 := Next(Next(s, Wait(ms)), Ask(b, ttl, 0));
    assert s2.server == s.server.(now := s.server.now + ms) && s2.fenced == {};
    assert s2.clients == s.clients[b := Asking(ttl, s2.server.now, 0)];
  }

  lemma TakeoverPlayed(key: Key, a: Token, b: Token, ttl: Ttl, elapsed: nat, wallElapsed: int)
    requires a != b
    ensures var r := Takeover(a, b, ttl, elapsed, wallElapsed);
      var s := Played(key, r, 8);
      CheckPasses(s, b) && s.fenced == {} && (CheckPasses(s, a) <==> !Steady(ttl, elapsed, wallElapsed))
  {
    hide Next, Played;
    var r := Takeover(a, b, ttl, elapsed, wallElapsed);
    PlayedEight(key, r);
    FirstOwner(key, a, ttl, elapsed, wallElapsed);
    var s4 := Next(Next(Next(Next(Fresh(key), r[0]), r[1]), r[2]), r[3]);
    SecondOwner(s4, a, b, ttl, Max(0, ttl - elapsed));
    FirstDeadlineIsSafe(ttl, 0, elapsed, 0, wallElapsed);
  }
}
