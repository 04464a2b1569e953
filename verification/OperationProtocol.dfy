/** What the coordination script guarantees over every sequence of commands on one key, from an
    empty key and with a server clock that never goes back. */
module OperationProtocol {
  import opened Common
  import opened Decimal
  import opened Coordinator

  /** A command and the server's TIME, in microseconds, when it ran. */
  datatype Event = Event(us: nat, request: Request)

  predicate Ordered(run: seq<Event>) {
    forall i, j | 0 <= i < j < |run| :: run[i].us <= run[j].us
  }

  function Ms(run: seq<Event>, n: nat): nat
    requires n < |run|
  {
    run[n].us / 1000
  }

  lemma MsOrdered(run: seq<Event>, i: nat, j: nat)
    requires Ordered(run) && i <= j < |run|
    ensures Ms(run, i) <= Ms(run, j)
  {
  }

  function Live(r: Option<Record>, now: nat): Option<Record> {
    if r.Some? && now < r.value.retainUntil then r else None
  }

  /** The record last written by the first `n` commands. */
  function State(run: seq<Event>, n: nat): Option<Record>
    requires n <= |run|
  {
    if n == 0 then None
    else
      var before := State(run, n - 1);
      var outcome := Respond(Live(before, Ms(run, n - 1)), Ms(run, n - 1), run[n - 1].request);
      if outcome.Put? then Some(outcome.record) else before
  }

  function Outcome(run: seq<Event>, n: nat): Coordinator.Outcome
    requires n < |run|
  {
    Respond(Live(State(run, n), Ms(run, n)), Ms(run, n), run[n].request)
  }

  function Answer(run: seq<Event>, n: nat): Reply
    requires n < |run|
  {
    Outcome(run, n).reply
  }

  // ---------- The script refines the state machine ----------

  function CellAt(run: seq<Event>, n: nat): Option<Cell>
    requires n <= |run|
  {
    if n == 0 then None else Script(CellAt(run, n - 1), Ms(run, n - 1), run[n - 1].request).0
  }

  function CellFor(r: Option<Record>): Option<Cell> {
    if r.Some? then Some(CellOf(r.value)) else None
  }

  /** Every stored record is valid. */
  lemma {:induction false} StoredIsValid(run: seq<Event>, n: nat)
    requires n <= |run|
    ensures State(run, n).Some? ==> 0 < n && Valid(State(run, n).value)
  {
    if 0 < n {
      StoredIsValid(run, n - 1);
      RespondKeepsValid(Live(State(run, n - 1), Ms(run, n - 1)), Ms(run, n - 1), run[n - 1].request);
    }
  }

  /** On a table of strings the script answers and stores what the state machine says. */
  lemma ScriptRefines(r: Option<Record>, now: nat, q: Request)
    requires r.Some? ==> Valid(r.value)
    ensures Script(CellFor(r), now, q) ==
      (if Respond(Live(r, now), now, q).Put? then Some(CellOf(Respond(Live(r, now), now, q).record)) else CellFor(r),
       Respond(Live(r, now), now, q).reply)
  {
    hide Respond, CellOf, Readable, ArgumentError, Valid, Meaning, ValidTable;
    if r.Some? { CellReads(r.value); }
    RespondRefusesFirst(Live(r, now), now, q);
  }

  /** A written cell reads back as its record, for as long as the record is retained. */
  lemma CellReads(r: Record)
    requires Valid(r)
    ensures Readable(CellOf(r)) && Meaning(CellOf(r).body.value) == r && CellOf(r).until == r.retainUntil
  {
    PersistReady(r);
    TableMeaning(r, TableOf(r));
  }

  /** Bad arguments are refused whatever the record. */
  lemma RespondRefusesFirst(r: Option<Record>, now: nat, q: Request)
    ensures ArgumentError(q) != None ==> Respond(r, now, q) == Keep(Error(ArgumentError(q).value))
  {
  }

  lemma {:induction false} CellsFollowRecords(run: seq<Event>, n: nat)
    requires n <= |run|
    ensures CellAt(run, n) == CellFor(State(run, n))
    ensures n < |run| ==> Script(CellAt(run, n), Ms(run, n), run[n].request).1 == Answer(run, n)
  {
    hide Respond, Script, CellOf;
    if 0 < n {
      CellsFollowRecords(run, n - 1);
      StoredIsValid(run, n - 1);
      ScriptRefines(State(run, n - 1), Ms(run, n - 1), run[n - 1].request);
    }
    if n < |run| {
      StoredIsValid(run, n);
      ScriptRefines(State(run, n), Ms(run, n), run[n].request);
    }
  }

  // ---------- Retention ----------

  /** No record is retained longer than the longest retention from now. */
  lemma {:induction false} RetentionBound(run: seq<Event>, n: nat)
    requires Ordered(run) && n < |run|
    ensures State(run, n).Some? ==> State(run, n).value.retainUntil <= Ms(run, n) + MAX_RETENTION
  {
    if 0 < n {
      RetentionBound(run, n - 1);
      MsOrdered(run, n - 1, n);
    }
  }

  /** Writing never fails: a lifetime complaint is always about the arguments, and no record
      is ever found invalid. */
  lemma PersistNeverFails(run: seq<Event>, n: nat)
    requires Ordered(run) && n < |run|
    ensures Answer(run, n) == Error("TX_INVALID_TTL") <==> ArgumentError(run[n].request) == Some("TX_INVALID_TTL")
    ensures Answer(run, n) != Error("TX_INVALID_RECORD")
  {
    RetentionBound(run, n);
  }

  /** While its retention lasts a record stays, its identity stays, its retention never
      shrinks, and a completed one does not change at all. */
  lemma {:induction false} RetainedUntilItsEnd(run: seq<Event>, n: nat, m: nat)
    requires Ordered(run) && n <= m <= |run| && State(run, n).Some?
    requires n < m ==> Ms(run, m - 1) < State(run, n).value.retainUntil
    ensures State(run, m).Some?
    ensures var r, r' := State(run, n).value, State(run, m).value;
      && r.retainUntil <= r'.retainUntil && r'.fingerprint == r.fingerprint && r'.durableId == r.durableId
      && (r.phase.Completed? ==> r' == r)
    decreases m
  {
    if n < m {
      if n < m - 1 { MsOrdered(run, m - 2, m - 1); }
      RetainedUntilItsEnd(run, n, m - 1);
      assert Live(State(run, m - 1), Ms(run, m - 1)) == State(run, m - 1);
    }
  }

  lemma DoneIsStored(run: seq<Event>, n: nat)
    requires n < |run| && Answer(run, n).Done?
    ensures var r := State(run, n + 1);
      r.Some? && r.value.phase == Completed(Answer(run, n).result) && Ms(run, n) < r.value.retainUntil
  {
  }

  /** Until the retention ends, every completed answer carries the same result. */
  lemma ResultIsUnique(run: seq<Event>, i: nat, j: nat)
    requires Ordered(run) && i < j < |run| && Answer(run, i).Done? && Answer(run, j).Done?
    requires State(run, i + 1).Some? && Ms(run, j) < State(run, i + 1).value.retainUntil
    ensures Answer(run, j).result == Answer(run, i).result
  {
    DoneIsStored(run, i);
    DoneIsStored(run, j);
    MsOrdered(run, j - 1, j);
    RetainedUntilItsEnd(run, i + 1, j + 1);
  }

  /** Until then nobody is granted the operation again. */
  lemma NoGrantAfterCompletion(run: seq<Event>, i: nat, j: nat)
    requires Ordered(run) && i < j < |run| && Answer(run, i).Done?
    requires State(run, i + 1).Some? && Ms(run, j) < State(run, i + 1).value.retainUntil
    ensures !Answer(run, j).Acquired? && !Answer(run, j).Renewed? && !Answer(run, j).Missing? && !Outcome(run, j).Put?
  {
    DoneIsStored(run, i);
    MsOrdered(run, j - 1, j);
    RetainedUntilItsEnd(run, i + 1, j);
  }

  // ---------- Leases ----------

  /** Command `i` tells `owner` that it has the lease. */
  predicate Grants(run: seq<Event>, i: nat, owner: string) {
    && i < |run| && run[i].request.owner == owner
    && (Answer(run, i).Acquired? || Answer(run, i).Renewed?)
  }

  function GrantEnd(run: seq<Event>, i: nat): nat
    requires i < |run| && (Answer(run, i).Acquired? || Answer(run, i).Renewed?)
  {
    Ms(run, i) + Answer(run, i).ms
  }

  predicate PendingFor(r: Option<Record>, owner: string, end: nat) {
    r.Some? && r.value.owner == owner && r.value.phase == Pending(end)
  }

  lemma GrantIsStored(run: seq<Event>, i: nat, owner: string)
    requires Grants(run, i, owner)
    ensures var r := State(run, i + 1);
      PendingFor(r, owner, GrantEnd(run, i)) && GrantEnd(run, i) <= r.value.retainUntil && Ms(run, i) < GrantEnd(run, i)
  {
    StoredIsValid(run, i);
    StoredIsValid(run, i + 1);
  }

  /** After its last grant the owner's lease stands in the record until it ends, or until it
      completes the operation. */
  lemma {:induction false} LastGrantStands(run: seq<Event>, i: nat, n: nat, owner: string)
    requires Ordered(run) && Grants(run, i, owner) && i < n <= |run|
    requires forall k | i < k < n :: !Grants(run, k, owner)
    ensures var r, end := State(run, n), GrantEnd(run, i);
      || end <= Ms(run, n - 1)
      || (r.Some? && end <= r.value.retainUntil && (PendingFor(r, owner, end) || r.value.phase.Completed?))
    decreases n
  {
    GrantIsStored(run, i, owner);
    if i + 1 < n {
      LastGrantStands(run, i, n - 1, owner);
      MsOrdered(run, n - 2, n - 1);
      var r, now, end := State(run, n - 1), Ms(run, n - 1), GrantEnd(run, i);
      assert !Grants(run, n - 1, owner);
      if now < end { StandingStep(r, now, run[n - 1].request, owner, end); }
    }
  }

  /** One command on a record whose lease has not ended. */
  lemma StandingStep(r: Option<Record>, now: nat, q: Request, owner: string, end: nat)
    requires r.Some? && now < end <= r.value.retainUntil && (PendingFor(r, owner, end) || r.value.phase.Completed?)
    ensures var o := Respond(Live(r, now), now, q);
      && (o.reply.Acquired? || o.reply.Renewed? ==> q.owner == owner)
      && (o.Put? && !o.reply.Renewed? ==> o.record.phase.Completed? && r.value.retainUntil <= o.record.retainUntil)
  {
  }

  /** The last lease of one owner has ended when another owner is granted one. */
  lemma LastLeaseEnded(run: seq<Event>, i: nat, j: nat, a: string, b: string)
    requires Ordered(run) && i < j && a != b && Grants(run, i, a) && Grants(run, j, b)
    requires forall k | i < k < j :: !Grants(run, k, a)
    ensures GrantEnd(run, i) <= Ms(run, j)
  {
    LastGrantStands(run, i, j, a);
    MsOrdered(run, j - 1, j);
    if Ms(run, j) < GrantEnd(run, i) {
      StandingStep(State(run, j), Ms(run, j), run[j].request, a, GrantEnd(run, i));
    }
  }

  /** Every command of the owner asks for the same lease. */
  predicate SameLease(run: seq<Event>, owner: string, lease: nat) {
    forall i | 0 <= i < |run| && run[i].request.owner == owner :: run[i].request.lease == Some(lease)
  }

  lemma {:induction false} LeaseBound(run: seq<Event>, n: nat, owner: string, lease: nat)
    requires Ordered(run) && SameLease(run, owner, lease) && 0 < n <= |run|
    ensures var r := State(run, n);
      r.Some? && r.value.owner == owner && r.value.phase.Pending? ==> r.value.phase.leaseUntil <= Ms(run, n - 1) + lease
  {
    if 1 < n {
      LeaseBound(run, n - 1, owner, lease);
      MsOrdered(run, n - 2, n - 1);
    }
  }

  /** Later grants of one owner end no earlier. */
  lemma {:induction false} EndsGrow(run: seq<Event>, i: nat, k: nat, owner: string, lease: nat)
    requires Ordered(run) && SameLease(run, owner, lease)
    requires Grants(run, i, owner) && Grants(run, k, owner) && i <= k
    ensures GrantEnd(run, i) <= GrantEnd(run, k)
    decreases k
  {
    if i < k {
      var m := LastGrantBefore(run, i, k, owner);
      EndsGrow(run, i, m, owner, lease);
      LastGrantStands(run, m, k, owner);
      GrantIsStored(run, k, owner);
      MsOrdered(run, k - 1, k);
      LeaseBound(run, k, owner, lease);
      var end := GrantEnd(run, m);
      if Ms(run, k) < end { GrantExtends(State(run, k), Ms(run, k), run[k].request, owner, end); }
    }
  }

  lemma GrantExtends(r: Option<Record>, now: nat, q: Request, owner: string, end: nat)
    requires r.Some? && now < end <= r.value.retainUntil && (PendingFor(r, owner, end) || r.value.phase.Completed?)
    ensures var o := Respond(Live(r, now), now, q);
      && (o.reply.Acquired? ==> now + o.reply.ms == end)
      && (o.reply.Renewed? ==> q.owner == owner && PendingFor(r, owner, end) && Some(o.reply.ms as int) == q.lease)
  {
  }

  lemma {:induction false} LastGrantBefore(run: seq<Event>, i: nat, n: nat, owner: string) returns (k: nat)
    requires Grants(run, i, owner) && i < n <= |run|
    ensures i <= k < n && Grants(run, k, owner) && forall m | k < m < n :: !Grants(run, m, owner)
    decreases n
  {
    hide Respond, State;
    if i + 1 == n || Grants(run, n - 1, owner) {
      k := n - 1;
    } else {
      k := LastGrantBefore(run, i, n - 1, owner);
    }
  }

  /** Lease intervals of different owners never overlap, an owner's own leases being equally long. */
  lemma LeasesAreDisjoint(run: seq<Event>, i: nat, j: nat, a: string, b: string, lease: nat)
    requires Ordered(run) && SameLease(run, a, lease) && i < j && a != b && Grants(run, i, a) && Grants(run, j, b)
    ensures GrantEnd(run, i) <= Ms(run, j)
  {
    var k := LastGrantBefore(run, i, j, a);
    EndsGrow(run, i, k, a, lease);
    LastLeaseEnded(run, k, j, a, b);
  }

  /** Without that condition the intervals may overlap, but only after a renewal of `a` that cut
      the promise of its own earlier grant short. */
  lemma OverlapMeansShortened(run: seq<Event>, i: nat, j: nat, a: string, b: string) returns (k: nat)
    requires Ordered(run) && i < j && a != b && Grants(run, i, a) && Grants(run, j, b) && Ms(run, j) < GrantEnd(run, i)
    ensures i < k < j && Grants(run, k, a) && Answer(run, k).Renewed? && GrantEnd(run, k) < GrantEnd(run, i)
  {
    k := LastGrantBefore(run, i, j, a);
    LastLeaseEnded(run, k, j, a, b);
    k := ShorteningRenewal(run, i, k, a);
  }

  lemma {:induction false} ShorteningRenewal(run: seq<Event>, i: nat, k: nat, a: string) returns (m: nat)
    requires Ordered(run) && i < k && Grants(run, i, a) && Grants(run, k, a) && GrantEnd(run, k) < GrantEnd(run, i)
    ensures i < m <= k && Grants(run, m, a) && Answer(run, m).Renewed? && GrantEnd(run, m) < GrantEnd(run, i)
    decreases k
  {
    var last := LastGrantBefore(run, i, k, a);
    if GrantEnd(run, last) < GrantEnd(run, i) {
      m := ShorteningRenewal(run, i, last, a);
    } else {
      m := k;
      LastGrantStands(run, last, k, a);
      MsOrdered(run, k - 1, k);
      GrantIsStored(run, k, a);
      if Ms(run, k) < GrantEnd(run, last) { GrantExtends(State(run, k), Ms(run, k), run[k].request, a, GrantEnd(run, last)); }
    }
  }

  /** The least such run: `a` begins, renews for one millisecond, and `b` follows. */
  lemma ShortenedLeaseOverlaps(a: Request, b: Request)
    requires ArgumentError(a) == None && a.verb.Begin? && 1 < a.lease.value
    requires b == a.(owner := b.owner) && Hex64(b.owner) && b.owner != a.owner
    ensures var run := [Event(0, a), Event(0, a.(verb := Renew, lease := Some(1))), Event(1000, b)];
      Grants(run, 0, a.owner) && Grants(run, 2, b.owner) && Ms(run, 2) < GrantEnd(run, 0)
  {
    var lease, retention := a.lease.value, a.retention.value;
    var run := [Event(0, a), Event(0, a.(verb := Renew, lease := Some(1))), Event(1000, b)];
    assert Ms(run, 0) == 0 && Ms(run, 1) == 0 && Ms(run, 2) == 1;
    assert State(run, 1) == Some(Record(a.fingerprint, a.durableId, a.owner, Pending(lease), retention));
    assert State(run, 2) == Some(Record(a.fingerprint, a.durableId, a.owner, Pending(1), retention));
  }

  /** More commands, none of them the owner's. */
  ghost predicate Silent(run: seq<Event>, es: seq<Event>, a: string) {
    Ordered(run + es) && forall e | e in es :: e.request.owner != a
  }

  /** From command `from` on nobody but `a` is granted the operation before `end`. */
  ghost predicate PromiseKept(run: seq<Event>, end: nat, a: string, from: nat) {
    forall j, b: string | from <= j < |run| && b != a && Grants(run, j, b) :: end <= Ms(run, j)
  }

  /** Whatever follows while `a` is silent. */
  ghost predicate Clear(run: seq<Event>, end: nat, a: string) {
    forall es | Silent(run, es, a) :: PromiseKept(run + es, end, a, |run|)
  }

  lemma {:induction false} PrefixState(run: seq<Event>, es: seq<Event>, n: nat)
    requires n <= |run|
    ensures State(run + es, n) == State(run, n)
  {
    if 0 < n { PrefixState(run, es, n - 1); }
  }

  lemma PrefixGrant(run: seq<Event>, es: seq<Event>, i: nat, owner: string)
    requires i < |run|
    ensures Ms(run + es, i) == Ms(run, i) && Answer(run + es, i) == Answer(run, i)
    ensures Grants(run + es, i, owner) <==> Grants(run, i, owner)
  {
    PrefixState(run, es, i);
  }

  /** The command another owner may send next: the same operation, begun. */
  function Rival(q: Request, b: string): Request {
    q.(verb := Begin, owner := b)
  }

  /** At the end of the last lease a rival's begin is granted, unless the clock leaves the safe
      integers. */
  lemma RivalIsGranted(run: seq<Event>, k: nat, a: string, b: string)
    requires Ordered(run) && Grants(run, k, a) && k + 1 == |run| && Hex64(b) && b != a
    requires GrantEnd(run, k) + run[k].request.retention.value <= MAX_SAFE
    ensures var e := Event(1000 * GrantEnd(run, k), Rival(run[k].request, b));
      Ordered(run + [e]) && Grants(run + [e], k + 1, b) && Ms(run + [e], k + 1) == GrantEnd(run, k)
  {
    var q, end := Rival(run[k].request, b), GrantEnd(run, k);
    var r := run + [Event(1000 * end, q)];
    GrantIsStored(run, k, a);
    PrefixState(run, [Event(1000 * end, q)], k + 1);
    GrantAccepts(Live(State(run, k), Ms(run, k)), Ms(run, k), run[k].request, end, b);
    hide Respond;
    assert run[k].us < 1000 * end;
    RetentionBound(r, k + 1);
    BeginGrantsIff(Live(State(r, k + 1), end), end, q);
  }

  /** After a grant the record is the rival's operation too, and pending for its owner. */
  lemma GrantAccepts(r: Option<Record>, now: nat, q: Request, end: nat, b: string)
    requires (Respond(r, now, q).reply.Acquired? || Respond(r, now, q).reply.Renewed?) && Hex64(b)
    requires end + q.retention.value <= MAX_SAFE
    ensures var o := Respond(r, now, q);
      var r' := if o.Put? then Some(o.record) else r;
      r'.Some? && Accepted(r', end, Rival(q, b)) && Accepted(None, end, Rival(q, b))
  {
  }

  /** A promise of `a` outlasts every continuation in which `a` is silent exactly when `a`'s latest
      grant does not end before it. */
  lemma PromiseKeptIff(run: seq<Event>, i: nat, a: string, b: string)
    requires Ordered(run) && i + 1 < |run| && Grants(run, i, a) && Grants(run, |run| - 1, a) && Hex64(b) && b != a
    requires GrantEnd(run, |run| - 1) + run[|run| - 1].request.retention.value <= MAX_SAFE
    ensures Clear(run, GrantEnd(run, i), a) <==> GrantEnd(run, i) <= GrantEnd(run, |run| - 1)
  {
    hide Respond, State, Ordered;
    var k := |run| - 1;
    if GrantEnd(run, i) <= GrantEnd(run, k) {
      forall es | Silent(run, es, a) ensures PromiseKept(run + es, GrantEnd(run, i), a, |run|) {
        PromiseOutlasts(run, GrantEnd(run, i), a, es);
      }
    } else {
      var e := Event(1000 * GrantEnd(run, k), Rival(run[k].request, b));
      RivalIsGranted(run, k, a, b);
      assert Silent(run, [e], a) && !PromiseKept(run + [e], GrantEnd(run, i), a, |run|);
    }
  }

  lemma PromiseOutlasts(run: seq<Event>, end: nat, a: string, es: seq<Event>)
    requires 0 < |run| && Grants(run, |run| - 1, a) && Silent(run, es, a) && end <= GrantEnd(run, |run| - 1)
    ensures PromiseKept(run + es, end, a, |run|)
  {
    var k, r := |run| - 1, run + es;
    PrefixGrant(run, es, k, a);
    hide Respond, State;
    forall j, b: string | |run| <= j < |r| && b != a && Grants(r, j, b) ensures end <= Ms(r, j) {
      forall m | k < m < j ensures !Grants(r, m, a) { assert r[m] in es; }
      LastLeaseEnded(r, k, j, a, b);
    }
  }

  /** How long a renewal lasts is what its owner asked for. */
  lemma RenewalLasts(run: seq<Event>, k: nat)
    requires k < |run| && Answer(run, k).Renewed?
    ensures run[k].request.lease == Some((GrantEnd(run, k) - Ms(run, k)) as int)
  {
  }

  /** Whatever follows each of its grants while `a` is silent, `a`'s leases are its own. */
  ghost predicate StaysClear(run: seq<Event>, a: string) {
    forall i: nat, k: nat | i < k && Grants(run, i, a) && Grants(run, k, a) :: Clear(run[..k + 1], GrantEnd(run, i), a)
  }

  /** No renewal of `a` asks to end before an earlier grant. */
  predicate NeverCutsShort(run: seq<Event>, a: string) {
    forall i: nat, k: nat | i < k < |run| && Grants(run, i, a) && Grants(run, k, a) && Answer(run, k).Renewed? ::
      GrantEnd(run, i) <= GrantEnd(run, k)
  }

  /** So the leases of `a` stay clear of everybody else's exactly when no renewal asks to end
      before an earlier grant. */
  lemma DisjointIff(run: seq<Event>, a: string, b: string)
    requires Ordered(run) && Hex64(b) && b != a
    requires forall k: nat | Grants(run, k, a) :: GrantEnd(run, k) + run[k].request.retention.value <= MAX_SAFE
    ensures StaysClear(run, a) <==> NeverCutsShort(run, a)
  {
    hide Respond, State, Ordered;
    forall i: nat, k: nat | i < k && Grants(run, i, a) && Grants(run, k, a)
      ensures Clear(run[..k + 1], GrantEnd(run, i), a) <==> GrantEnd(run, i) <= GrantEnd(run, k)
    {
      ClearIff(run, i, k, a, b);
    }
    if i: nat, k: nat :| i < k && Grants(run, i, a) && Grants(run, k, a) && GrantEnd(run, k) < GrantEnd(run, i) {
      var m := ShorteningRenewal(run, i, k, a);
    }
  }

  lemma ClearIff(run: seq<Event>, i: nat, k: nat, a: string, b: string)
    requires Ordered(run) && i < k && Grants(run, i, a) && Grants(run, k, a) && Hex64(b) && b != a
    requires GrantEnd(run, k) + run[k].request.retention.value <= MAX_SAFE
    ensures Clear(run[..k + 1], GrantEnd(run, i), a) <==> GrantEnd(run, i) <= GrantEnd(run, k)
  {
    var p := run[..k + 1];
    assert run == p + run[k + 1..];
    PrefixGrant(p, run[k + 1..], i, a);
    PrefixGrant(p, run[k + 1..], k, a);
    PromiseKeptIff(p, i, a, b);
  }

  /** A pending record names the owner that was granted last, and when that lease ends. */
  lemma {:induction false} PendingWasGranted(run: seq<Event>, n: nat) returns (i: nat)
    requires n <= |run| && State(run, n).Some? && State(run, n).value.phase.Pending?
    ensures i < n && Grants(run, i, State(run, n).value.owner)
    ensures GrantEnd(run, i) == State(run, n).value.phase.leaseUntil
    ensures forall k | i < k < n :: !Outcome(run, k).Put?
  {
    if Outcome(run, n - 1).Put? {
      i := n - 1;
    } else {
      i := PendingWasGranted(run, n - 1);
    }
  }

  /** A renewal or a first completion is accepted only within the owner's own last lease. */
  lemma AcceptedWithinLease(run: seq<Event>, n: nat) returns (i: nat)
    requires n < |run| && Outcome(run, n).Put? && !run[n].request.verb.Begin?
    ensures i < n && Grants(run, i, run[n].request.owner) && Ms(run, n) < GrantEnd(run, i)
    ensures forall k | i < k < n :: !Outcome(run, k).Put?
  {
    i := PendingWasGranted(run, n);
  }

  // ---------- May an expired owner come back? ----------

  /** The stored record is retained, still pending, expired, and names another owner. */
  predicate TakenOver(r: Option<Record>, now: nat, owner: string) {
    r.Some? && r.value.phase.Pending? && Remaining(r.value, now) == 0 && r.value.owner != owner
  }

  /** An expired owner that begins again gets the record back exactly when its retention is
      over, or another owner took it and expired too. */
  lemma ExpiredOwnerReturnsIff(run: seq<Event>, i: nat, n: nat, owner: string)
    requires Ordered(run) && i < n < |run| && Grants(run, i, owner) && GrantEnd(run, i) <= Ms(run, n)
    requires forall k | i < k < n :: !Grants(run, k, owner)
    requires run[n].request.verb.Begin? && run[n].request.owner == owner
    requires Accepted(Live(State(run, n), Ms(run, n)), Ms(run, n), run[n].request)
    ensures var r := Live(State(run, n), Ms(run, n));
      Answer(run, n).Acquired? <==> r == None || TakenOver(r, Ms(run, n), owner)
    ensures var r := Live(State(run, n), Ms(run, n));
      TakenOver(r, Ms(run, n), owner) ==> exists k: nat :: k < n && Grants(run, k, r.value.owner)
  {
    hide Respond, State, Accepted, Grants;
    RetentionBound(run, n);
    var r := Live(State(run, n), Ms(run, n));
    BeginGrantsIff(r, Ms(run, n), run[n].request);
    LeaseIsOver(run, i, n, owner);
    if TakenOver(r, Ms(run, n), owner) {
      var k := PendingWasGranted(run, n);
    }
  }

  lemma BeginGrantsIff(r: Option<Record>, now: nat, q: Request)
    requires Accepted(r, now, q) && q.verb.Begin? && (r.Some? ==> r.value.retainUntil <= now + MAX_RETENTION)
    ensures Respond(r, now, q).reply.Acquired? <==>
      || r == None || TakenOver(r, now, q.owner)
      || (r.value.phase.Pending? && r.value.owner == q.owner && 0 < Remaining(r.value, now))
  {
  }

  lemma LeaseIsOver(run: seq<Event>, i: nat, n: nat, owner: string)
    requires i < n < |run| && Grants(run, i, owner) && GrantEnd(run, i) <= Ms(run, n)
    requires forall k | i < k < n :: !Grants(run, k, owner)
    ensures var r := State(run, n);
      r.Some? && r.value.phase.Pending? && r.value.owner == owner ==> Remaining(r.value, Ms(run, n)) == 0
  {
    hide Respond, State;
    var r := State(run, n);
    if r.Some? && r.value.phase.Pending? && r.value.owner == owner {
      var k := PendingWasGranted(run, n);
      assert k <= i;
      GrantIsStored(run, i, owner);
      SameWhileKept(run, i + 1, n);
    }
  }

  lemma {:induction false} SameWhileKept(run: seq<Event>, n: nat, m: nat)
    requires n <= m <= |run| && forall k | n <= k < m :: !Outcome(run, k).Put?
    ensures State(run, m) == State(run, n)
    decreases m
  {
    if n < m {
      assert !Outcome(run, m - 1).Put?;
      SameWhileKept(run, n, m - 1);
    }
  }

  /** So the record may go back to an expired owner: `a`, then `b`, then `a` again. */
  lemma ExpiredOwnerMayReturn(a: Request, b: Request)
    requires ArgumentError(a) == None && a.verb.Begin? && b == a.(owner := b.owner) && Hex64(b.owner) && b.owner != a.owner
    ensures var lease := a.lease.value;
      var run := [Event(0, a), Event(1000 * lease, b), Event(2000 * lease, a)];
      Grants(run, 0, a.owner) && Grants(run, 1, b.owner) && Grants(run, 2, a.owner)
  {
    var lease, retention := a.lease.value, a.retention.value;
    var run := [Event(0, a), Event(1000 * lease, b), Event(2000 * lease, a)];
    assert Ms(run, 0) == 0 && Ms(run, 1) == lease && Ms(run, 2) == 2 * lease;
    assert State(run, 1) == Some(Record(a.fingerprint, a.durableId, a.owner, Pending(lease), retention));
    var second := Record(a.fingerprint, a.durableId, b.owner, Pending(2 * lease), lease + retention);
    assert State(run, 2) == Some(second);
  }

  // ---------- Reading the replies ----------

  function Wire(reply: Reply): seq<string>
    requires !reply.Error?
  {
    match reply
    case Conflict => ["conflict"]
    case Missing => ["missing"]
    case Done(result) => ["completed", result]
    case RecoveryRequired => ["recovery_required"]
    case InProgress(ms) => ["in_progress", Numeral(ms)]
    case Acquired(owner, ms) => ["acquired", owner, Numeral(ms), "reconcile"]
    case Renewed(ms) => ["renewed", Numeral(ms)]
    case Lost => ["lost"]
  }

  /** `decimal(value, name, max)`: a positive canonical numeral up to `max`. */
  function ParseDuration(s: string, max: nat): (n: Option<nat>)
  {
    if Canonical(s) && s != "0" && Value(s) <= max && Value(s) <= MAX_SAFE then Some(Value(s)) else None
  }

  lemma DurationReads(n: nat, max: nat)
    requires max <= MAX_SAFE
    ensures ParseDuration(Numeral(n), max) == if 0 < n <= max then Some(n) else None
  {
    NumeralReads(n);
    if Numeral(n) == "0" { assert Numeral(0) == "0"; NumeralInjective(n, 0); }
  }

  /** `None` where the client rejects the reply as invalid. */
  function DecodeBegin(parts: seq<string>, owner: string, leaseMs: nat): Option<Reply> {
    if parts == [] then None
    else if parts[0] == "acquired" then
      if |parts| != 4 || parts[1] != owner || parts[3] != "reconcile" || ParseDuration(parts[2], leaseMs) == None then None
      else Some(Acquired(owner, ParseDuration(parts[2], leaseMs).value))
    else if parts[0] == "in_progress" then DecodeProgress(parts, leaseMs)
    else if parts[0] == "completed" then DecodeDone(parts)
    else if parts == ["conflict"] then Some(Conflict)
    else None
  }

  function DecodeProgress(parts: seq<string>, leaseMs: nat): Option<Reply> {
    if |parts| != 2 || ParseDuration(parts[1], leaseMs) == None then None
    else Some(InProgress(ParseDuration(parts[1], leaseMs).value))
  }

  function DecodeDone(parts: seq<string>): Option<Reply> {
    if |parts| != 2 || !JsReference(parts[1], 256) then None else Some(Done(parts[1]))
  }

  function DecodeRenew(parts: seq<string>, leaseMs: nat): Option<Reply> {
    if parts == [] then None
    else if parts[0] == "renewed" then
      if |parts| != 2 || ParseDuration(parts[1], leaseMs) == None then None
      else Some(Renewed(ParseDuration(parts[1], leaseMs).value))
    else if parts == ["lost"] then Some(Lost)
    else if parts == ["conflict"] then Some(Conflict)
    else None
  }

  function DecodeComplete(parts: seq<string>, expected: string): Option<Reply> {
    if parts == [] then None
    else if parts[0] == "completed" then if |parts| != 2 || parts[1] != expected then None else Some(Done(expected))
    else if parts == ["lost"] then Some(Lost)
    else if parts == ["conflict"] then Some(Conflict)
    else None
  }

  function DecodeStatus(parts: seq<string>, leaseMs: nat): Option<Reply> {
    if parts == [] then None
    else if parts == ["missing"] then Some(Missing)
    else if parts[0] == "in_progress" then DecodeProgress(parts, leaseMs)
    else if parts == ["recovery_required"] then Some(RecoveryRequired)
    else if parts[0] == "completed" then DecodeDone(parts)
    else if parts == ["conflict"] then Some(Conflict)
    else None
  }

  function Decode(q: Request, parts: seq<string>, leaseMs: nat): Option<Reply> {
    match q.verb
    case Begin => DecodeBegin(parts, q.owner, leaseMs)
    case Renew => DecodeRenew(parts, leaseMs)
    case Complete => DecodeComplete(parts, q.result)
    case Read => DecodeStatus(parts, leaseMs)
  }

  predicate TooLong(reply: Reply, leaseMs: nat) {
    (reply.InProgress? || reply.Acquired? || reply.Renewed?) && leaseMs < reply.ms
  }

  /** The client reads every reply to its own command back, unless it reports a lease longer
      than the client's own. */
  lemma RepliesDecode(r: Option<Record>, now: nat, q: Request, leaseMs: nat)
    requires (r.Some? ==> Valid(r.value)) && leaseMs <= MAX_LEASE
    requires var reply := Respond(r, now, q).reply; !reply.Error?
    ensures var reply := Respond(r, now, q).reply;
      Decode(q, Wire(reply), leaseMs) == if TooLong(reply, leaseMs) then None else Some(reply)
  {
    var reply := Respond(r, now, q).reply;
    ReplyShape(r, now, q);
    hide Respond;
    if reply.InProgress? || reply.Acquired? || reply.Renewed? { DurationReads(reply.ms, leaseMs); }
    if reply.Done? { LuaRefusesPercent(reply.result, 256); }
    hide ParseDuration, JsReference, LuaReference, Valid;
  }

  /** Which replies a command may get. */
  lemma ReplyShape(r: Option<Record>, now: nat, q: Request)
    requires (r.Some? ==> Valid(r.value)) && !Respond(r, now, q).reply.Error?
    ensures var reply := Respond(r, now, q).reply;
      && (reply.InProgress? ==> 0 < reply.ms && (q.verb.Begin? || q.verb.Read?))
      && (reply.Acquired? ==> 0 < reply.ms && reply.owner == q.owner && q.verb.Begin?)
      && (reply.Renewed? ==> 0 < reply.ms && q.verb.Renew?)
      && (reply.Done? ==> LuaReference(reply.result, 256) && !q.verb.Renew? && (q.verb.Complete? ==> reply.result == q.result))
      && (reply.Lost? ==> q.verb.Renew? || q.verb.Complete?)
      && (reply.Missing? || reply.RecoveryRequired? ==> q.verb.Read?)
  {
  }

  /** With one lease length for all clients no reply is ever rejected. */
  lemma UniformLeasesDecode(run: seq<Event>, n: nat, leaseMs: nat)
    requires Ordered(run) && n < |run| && leaseMs <= MAX_LEASE
    requires forall i | 0 <= i < |run| :: run[i].request.lease == Some(leaseMs)
    requires !Answer(run, n).Error?
    ensures Decode(run[n].request, Wire(Answer(run, n)), leaseMs) == Some(Answer(run, n))
  {
    StoredIsValid(run, n);
    RepliesDecode(Live(State(run, n), Ms(run, n)), Ms(run, n), run[n].request, leaseMs);
    if 0 < n && State(run, n).Some? {
      LeaseBound(run, n, State(run, n).value.owner, leaseMs);
      MsOrdered(run, n - 1, n);
    }
  }
}
