/** The operation coordination script: one record per operation, with an owner, a lease and a
    retention. The script's work on the stored table of strings is a method proved against a
    small state machine; the protocol's guarantees are proved over every sequence of commands. */
module Coordinator {
  import opened Common
  import opened Decimal

  const MAX_LEASE: nat := 3600000
  const MAX_RETENTION: nat := 2592000000
  const MAX_RECORD_BYTES: nat := 2048

  // ---------- Identifiers ----------

  predicate Bounded(s: string, cap: nat) {
    0 < |s| <= cap
  }

  predicate IsHex(c: char) {
    '0' <= c <= '9' || 'a' <= c <= 'f'
  }

  predicate Hex64(s: string) {
    |s| == 64 && forall i | 0 <= i < |s| :: IsHex(s[i])
  }

  /** The characters of the script's reference class, where `%` only escapes. */
  predicate IsReferenceChar(c: char) {
    || 'A' <= c <= 'Z' || 'a' <= c <= 'z' || '0' <= c <= '9'
    || c == '_' || c == ':' || c == '/' || c == '.' || c == '-'
  }

  predicate LuaReference(s: string, cap: nat) {
    Bounded(s, cap) && forall i | 0 <= i < |s| :: IsReferenceChar(s[i])
  }

  /** The client's reference class, which admits `%`. */
  predicate JsReference(s: string, cap: nat) {
    Bounded(s, cap) && forall i | 0 <= i < |s| :: IsReferenceChar(s[i]) || s[i] == '%'
  }

  /** The two layers agree on a reference exactly when it holds no `%`. */
  lemma LuaRefusesPercent(s: string, cap: nat)
    ensures LuaReference(s, cap) <==> JsReference(s, cap) && '%' !in s
  {
    if JsReference(s, cap) && '%' !in s {
      forall i | 0 <= i < |s| ensures IsReferenceChar(s[i]) { assert s[i] in s; }
    }
  }

  function Timestamp(s: string): (n: Option<nat>)
    ensures n != None ==> s == Numeral(n.value) && n.value <= MAX_SAFE
  {
    if |s| <= 16 && Canonical(s) && Value(s) <= MAX_SAFE then CanonicalIsNumeral(s); Some(Value(s)) else None
  }

  lemma TimestampReads(n: nat)
    requires n <= MAX_SAFE
    ensures Timestamp(Numeral(n)) == Some(n)
  {
    NumeralReads(n);
    SafeHasSixteenDigits();
    NumeralLength(n, 16);
  }

  // ---------- The record ----------

  datatype Phase = Pending(leaseUntil: nat) | Completed(result: string)

  datatype Record = Record(fingerprint: string, durableId: string, owner: string, phase: Phase, retainUntil: nat)

  predicate Valid(r: Record) {
    && Hex64(r.fingerprint) && Hex64(r.owner) && LuaReference(r.durableId, 128) && 0 < r.retainUntil <= MAX_SAFE
    && match r.phase
       case Pending(leaseUntil) => 0 < leaseUntil <= r.retainUntil
       case Completed(result) => LuaReference(result, 256)
  }

  datatype Verb = Begin | Renew | Complete | Read

  /** What `tonumber` made of the two durations: `None` when it is no integer. */
  datatype Request = Request(
    verb: Verb, fingerprint: string, durableId: string, owner: string,
    lease: Option<int>, retention: Option<int>, result: string)

  datatype Reply =
    | Error(code: string)
    | Conflict
    | Missing
    | Done(result: string)
    | RecoveryRequired
    | InProgress(ms: nat)
    | Acquired(owner: string, ms: nat)
    | Renewed(ms: nat)
    | Lost

  predicate InRange(n: Option<int>, lo: int, hi: int) {
    n != None && lo <= n.value <= hi
  }

  /** The first complaint about the arguments, checked before the record is read. */
  function ArgumentError(q: Request): Option<string> {
    if !Hex64(q.fingerprint) || !LuaReference(q.durableId, 128) then Some("TX_INVALID_ID")
    else if !q.verb.Read? && !Hex64(q.owner) then Some("TX_INVALID_OWNER")
    else if !InRange(q.lease, 1, MAX_LEASE) || !InRange(q.retention, q.lease.value, MAX_RETENTION) then Some("TX_INVALID_TTL")
    else if q.verb.Complete? && !LuaReference(q.result, 256) then Some("TX_INVALID_RESULT")
    else None
  }

  function Remaining(r: Record, now: nat): nat {
    match r.phase
    case Pending(leaseUntil) => if now < leaseUntil then leaseUntil - now else 0
    case Completed(_) => 0
  }

  function Retained(r: Option<Record>, now: nat, retention: nat): nat {
    Max(now + retention, if r.Some? then r.value.retainUntil else 0)
  }

  /** The record is left as it is, or replaced. */
  datatype Outcome = Keep(reply: Reply) | Put(record: Record, reply: Reply)

  /** A record may be stored only with a retention the script can express as a lifetime. */
  function Save(r: Record, now: nat, reply: Reply): Outcome {
    if 1 <= r.retainUntil - now <= MAX_RETENTION then Put(r, reply) else Keep(Error("TX_INVALID_TTL"))
  }

  /** The state machine: a live record, the server's millisecond and a request. */
  function Respond(r: Option<Record>, now: nat, q: Request): Outcome {
    if ArgumentError(q) != None then Keep(Error(ArgumentError(q).value))
    else if r.Some? && (r.value.fingerprint != q.fingerprint || r.value.durableId != q.durableId) then Keep(Conflict)
    else if MAX_SAFE < now + q.retention.value then Keep(Error("TX_INVALID_TIME"))
    else Decision(r, now, q)
  }

  predicate Accepted(r: Option<Record>, now: nat, q: Request) {
    && ArgumentError(q) == None && now + q.retention.value <= MAX_SAFE
    && (r.Some? ==> r.value.fingerprint == q.fingerprint && r.value.durableId == q.durableId)
  }

  function Decision(r: Option<Record>, now: nat, q: Request): Outcome
    requires Accepted(r, now, q)
  {
    if q.verb.Read? then Keep(Status(r, now))
    else if r.Some? && r.value.phase.Completed? then Keep(AfterCompletion(r.value.phase.result, q))
    else if q.verb.Begin? then BeginDecision(r, now, q)
    else OwnerDecision(r, now, q)
  }

  function AfterCompletion(result: string, q: Request): Reply {
    if q.verb.Renew? then Lost else if q.verb.Complete? && result != q.result then Conflict else Done(result)
  }

  function BeginDecision(r: Option<Record>, now: nat, q: Request): Outcome
    requires Accepted(r, now, q)
  {
    if r.Some? && 0 < Remaining(r.value, now) then
      Keep(if r.value.owner == q.owner then Acquired(q.owner, Remaining(r.value, now)) else InProgress(Remaining(r.value, now)))
    else if r.Some? && r.value.owner == q.owner then Keep(Error("TX_FRESH_OWNER_REQUIRED"))
    else
      var retain := Retained(r, now, q.retention.value);
      Save(Record(q.fingerprint, q.durableId, q.owner, Pending(now + q.lease.value), retain), now,
           Acquired(q.owner, q.lease.value))
  }

  function OwnerDecision(r: Option<Record>, now: nat, q: Request): Outcome
    requires Accepted(r, now, q)
  {
    if r.None? || r.value.owner != q.owner || Remaining(r.value, now) == 0 then Keep(Lost)
    else
      var retain := Retained(r, now, q.retention.value);
      if q.verb.Renew?
      then Save(r.value.(phase := Pending(now + q.lease.value), retainUntil := retain), now, Renewed(q.lease.value))
      else Save(r.value.(phase := Completed(q.result), retainUntil := retain), now, Done(q.result))
  }

  function Status(r: Option<Record>, now: nat): Reply {
    if r.None? then Missing
    else if r.value.phase.Completed? then Done(r.value.phase.result)
    else if Remaining(r.value, now) == 0 then RecoveryRequired
    else InProgress(Remaining(r.value, now))
  }

  // ---------- The stored table, and the script itself ----------

  /** The decoded table: every field a string but `schema`; `extra` counts unknown names. */
  datatype Table = Table(
    schema: int, fingerprint: string, durableId: string, owner: string, state: string,
    leaseUntilMs: string, retainUntilMs: string, resultRef: string, extra: nat)

  /** A value of the key: its length, what `cjson.decode` makes of it, and its expiry. */
  datatype Cell = Cell(size: nat, body: Option<Table>, until: nat)

  /** `validate_record`. */
  predicate ValidTable(t: Table) {
    && t.schema == 1 && Hex64(t.fingerprint) && Hex64(t.owner) && LuaReference(t.durableId, 128) && t.extra == 0
    && var lease, retain := Timestamp(t.leaseUntilMs), Timestamp(t.retainUntilMs);
       && lease.Some? && retain.Some? && 0 < retain.value
       && (if t.state == "pending" then 0 < lease.value <= retain.value && t.resultRef == ""
           else t.state == "completed" && lease.value == 0 && LuaReference(t.resultRef, 256))
  }

  function Meaning(t: Table): (r: Record)
    requires ValidTable(t)
    ensures Valid(r)
  {
    Record(t.fingerprint, t.durableId, t.owner,
           if t.state == "pending" then Pending(Timestamp(t.leaseUntilMs).value) else Completed(t.resultRef),
           Timestamp(t.retainUntilMs).value)
  }

  function TableOf(r: Record): Table {
    match r.phase
    case Pending(leaseUntil) =>
      Table(1, r.fingerprint, r.durableId, r.owner, "pending", Numeral(leaseUntil), Numeral(r.retainUntil), "", 0)
    case Completed(result) =>
      Table(1, r.fingerprint, r.durableId, r.owner, "completed", "0", Numeral(r.retainUntil), result, 0)
  }

  /** The table of a valid record is valid and means that record, and no other table does. */
  lemma TableMeaning(r: Record, t: Table)
    requires Valid(r)
    ensures ValidTable(t) && Meaning(t) == r <==> t == TableOf(r)
  {
    TimestampReads(r.retainUntil);
    TimestampReads(0);
    NumeralReads(0);
    assert Numeral(0) == "0";
    if r.phase.Pending? { TimestampReads(r.phase.leaseUntil); }
  }

  /** The JSON text of a string: `cjson` writes `/` as two characters. */
  function Quoted(s: string): (n: nat)
    ensures n <= 2 * |s|
  {
    if s == [] then 0 else Quoted(s[1..]) + if s[0] == '/' then 2 else 1
  }

  /** The length of `cjson.encode`: braces, seven commas, eight names with quotes and colons,
      quotes around seven strings, and the values. */
  function EncodedSize(t: Table): nat {
    2 + 7 + 8 * 3 + (6 + 11 + 9 + 5 + 5 + 12 + 13 + 9) + 7 * 2 + 1
    + Quoted(t.fingerprint) + Quoted(t.durableId) + Quoted(t.owner) + Quoted(t.state)
    + Quoted(t.leaseUntilMs) + Quoted(t.retainUntilMs) + Quoted(t.resultRef)
  }

  /** No valid record exceeds the size limit. */
  lemma ValidFits(r: Record)
    requires Valid(r)
    ensures EncodedSize(TableOf(r)) <= MAX_RECORD_BYTES
  {
    SafeHasSixteenDigits();
    NumeralLength(r.retainUntil, 16);
    if r.phase.Pending? { NumeralLength(r.phase.leaseUntil, 16); }
  }

  function CellOf(r: Record): Cell {
    Cell(EncodedSize(TableOf(r)), Some(TableOf(r)), r.retainUntil)
  }

  /** Whatever the script stores is valid: bounds on times and arguments suffice. */
  lemma RespondKeepsValid(r: Option<Record>, now: nat, q: Request)
    requires r.Some? ==> Valid(r.value)
    ensures Respond(r, now, q).Put? ==> Valid(Respond(r, now, q).record)
  {
  }

  /** What GET finds. */
  function Present(cell: Option<Cell>, now: nat): Option<Cell> {
    if cell.Some? && now < cell.value.until then cell else None
  }

  function Readable(cell: Cell): (ok: bool) {
    cell.size <= MAX_RECORD_BYTES && cell.body.Some? && ValidTable(cell.body.value)
  }

  /** The script on whatever the key holds. */
  function Script(cell: Option<Cell>, now: nat, q: Request): (Option<Cell>, Reply) {
    var found := Present(cell, now);
    if ArgumentError(q) != None then (cell, Error(ArgumentError(q).value))
    else if found.None? then Applied(cell, Respond(None, now, q))
    else if !Readable(found.value) then (cell, Error("TX_INVALID_RECORD"))
    else Applied(cell, Respond(Some(Meaning(found.value.body.value)), now, q))
  }

  function Applied(cell: Option<Cell>, outcome: Outcome): (Option<Cell>, Reply) {
    (if outcome.Put? then Some(CellOf(outcome.record)) else cell, outcome.reply)
  }

  /** The fields rewritten by `renew` and `complete` are those the record changes. */
  lemma OwnedTables(r: Record, t: Table, now: nat, q: Request, retain: nat)
    requires ValidTable(t) && r == Meaning(t) && r.phase.Pending? && Accepted(Some(r), now, q) && !q.verb.Read?
    requires retain == Retained(Some(r), now, q.retention.value)
    ensures var renewed := r.(phase := Pending(now + q.lease.value), retainUntil := retain);
      Valid(renewed) && TableOf(renewed) == t.(leaseUntilMs := Numeral(now + q.lease.value), retainUntilMs := Numeral(retain))
    ensures var done := r.(phase := Completed(q.result), retainUntil := retain);
      var u := t.(state := "completed", resultRef := q.result, leaseUntilMs := "0", retainUntilMs := Numeral(retain));
      q.verb.Complete? ==> Valid(done) && TableOf(done) == u
  {
    TableMeaning(r, t);
    hide Hex64, LuaReference, Timestamp;
  }

  lemma OpenedTable(r: Option<Record>, now: nat, q: Request, retain: nat)
    requires (r.Some? ==> Valid(r.value)) && Accepted(r, now, q) && q.verb.Begin?
    requires retain == Retained(r, now, q.retention.value)
    ensures var begun := Record(q.fingerprint, q.durableId, q.owner, Pending(now + q.lease.value), retain);
      var t := Table(1, q.fingerprint, q.durableId, q.owner, "pending", Numeral(now + q.lease.value), Numeral(retain), "", 0);
      Valid(begun) && TableOf(begun) == t
  {
  }

  lemma PersistReady(r: Record)
    requires Valid(r)
    ensures ValidTable(TableOf(r)) && EncodedSize(TableOf(r)) <= MAX_RECORD_BYTES
    ensures Timestamp(TableOf(r).retainUntilMs) == Some(r.retainUntil)
  {
    TableMeaning(r, TableOf(r));
    ValidFits(r);
  }

  class OperationKey {
    var cell: Option<Cell>

    constructor ()
      ensures cell == None
    {
      cell := None;
    }

    /** `persist`, then the caller's answer: the record is validated, measured and given a
        lifetime before it is written. */
    method Persist(next: Table, now: nat, ghost r: Record, success: Reply) returns (reply: Reply)
      requires Valid(r) && next == TableOf(r)
      modifies this
      ensures (cell, reply) == Applied(old(cell), Save(r, now, success))
    {
      hide ValidTable, Valid, TableOf, EncodedSize, Timestamp;
      PersistReady(r);
      assert ValidTable(next) && EncodedSize(next) <= MAX_RECORD_BYTES;
      var ttl := Timestamp(next.retainUntilMs).value - now;
      if ttl < 1 || MAX_RETENTION < ttl { return Error("TX_INVALID_TTL"); }
      cell := Some(Cell(EncodedSize(next), Some(next), now + ttl));
      reply := success;
    }

    /** The whole script, `us` being the server's TIME in microseconds. */
    method Execute(us: nat, q: Request) returns (reply: Reply)
      modifies this
      ensures (cell, reply) == Script(old(cell), us / 1000, q)
    {
      var seconds, micros := us / 1000000, us % 1000000;
      var now := seconds * 1000 + micros / 1000;
      assert now == us / 1000;
      if !Hex64(q.fingerprint) || !LuaReference(q.durableId, 128) { return Error("TX_INVALID_ID"); }
      if q.verb != Read && !Hex64(q.owner) { return Error("TX_INVALID_OWNER"); }
      if !InRange(q.lease, 1, MAX_LEASE) || !InRange(q.retention, q.lease.value, MAX_RETENTION) {
        return Error("TX_INVALID_TTL");
      }
      if q.verb == Complete && !LuaReference(q.result, 256) { return Error("TX_INVALID_RESULT"); }
      var r: Option<Table> := None;
      var raw := Present(cell, now);
      if raw.Some? {
        if MAX_RECORD_BYTES < raw.value.size { return Error("TX_INVALID_RECORD"); }
        if raw.value.body.None? || !ValidTable(raw.value.body.value) { return Error("TX_INVALID_RECORD"); }
        r := raw.value.body;
        if r.value.fingerprint != q.fingerprint || r.value.durableId != q.durableId { return Conflict; }
      }
      if MAX_SAFE < now + q.retention.value { return Error("TX_INVALID_TIME"); }
      reply := Decide(now, q, r);
    }

    /** The script once the record is known to be this operation's. */
    method Decide(now: nat, q: Request, r: Option<Table>) returns (reply: Reply)
      requires (r.Some? ==> ValidTable(r.value)) && Accepted(Understood(r), now, q)
      modifies this
      ensures (cell, reply) == Applied(old(cell), Decision(Understood(r), now, q))
    {
      hide Timestamp, Hex64, LuaReference, BeginDecision, OwnerDecision;
      var remaining := if r.Some? then Max(0, Timestamp(r.value.leaseUntilMs).value - now) else 0;
      if q.verb == Read {
        reply := if r.None? then Missing
                 else if r.value.state == "completed" then Done(r.value.resultRef)
                 else if remaining == 0 then RecoveryRequired
                 else InProgress(remaining);
      } else if r.Some? && r.value.state == "completed" {
        reply := if q.verb == Renew then Lost
                 else if q.verb == Complete && r.value.resultRef != q.result then Conflict
                 else Done(r.value.resultRef);
      } else if q.verb == Begin {
        reply := Open(now, q, r, remaining);
      } else {
        reply := Advance(now, q, r, remaining);
      }
    }

    ghost predicate Known(now: nat, q: Request, r: Option<Table>, remaining: nat)
      reads this
    {
      && (r.Some? ==> ValidTable(r.value) && r.value.state == "pending")
      && Accepted(Understood(r), now, q)
      && remaining == if r.Some? then Remaining(Meaning(r.value), now) else 0
    }

    static ghost function Understood(r: Option<Table>): Option<Record> {
      if r.Some? && ValidTable(r.value) then Some(Meaning(r.value)) else None
    }

    /** `retainedDeadline()`. */
    method RetainedDeadline(now: nat, q: Request, r: Option<Table>) returns (retain: nat)
      requires ArgumentError(q) == None && (r.Some? ==> ValidTable(r.value))
      ensures retain == Retained(Understood(r), now, q.retention.value)
    {
      retain := Max(now + q.retention.value, if r.Some? then Timestamp(r.value.retainUntilMs).value else 0);
    }

    /** The branch for `begin` on a record that is not completed. */
    method Open(now: nat, q: Request, r: Option<Table>, remaining: nat) returns (reply: Reply)
      requires Known(now, q, r, remaining) && q.verb.Begin?
      modifies this
      ensures (cell, reply) == Applied(old(cell), BeginDecision(Understood(r), now, q))
    {
      if r.Some? && 0 < remaining {
        return if r.value.owner == q.owner then Acquired(q.owner, remaining) else InProgress(remaining);
      }
      if r.Some? && r.value.owner == q.owner { return Error("TX_FRESH_OWNER_REQUIRED"); }
      var retain := RetainedDeadline(now, q, r);
      OpenedTable(Understood(r), now, q, retain);
      hide ValidTable, Meaning, Valid, TableOf, Timestamp, Hex64, LuaReference, CellOf, Applied, Save;
      var next := Table(1, q.fingerprint, q.durableId, q.owner, "pending", Numeral(now + q.lease.value), Numeral(retain), "", 0);
      reply := Persist(next, now, Record(q.fingerprint, q.durableId, q.owner, Pending(now + q.lease.value), retain),
                       Acquired(q.owner, q.lease.value));
    }

    /** The branches for `renew` and `complete` on a record that is not completed. */
    method Advance(now: nat, q: Request, r: Option<Table>, remaining: nat) returns (reply: Reply)
      requires Known(now, q, r, remaining) && (q.verb.Renew? || q.verb.Complete?)
      modifies this
      ensures (cell, reply) == Applied(old(cell), OwnerDecision(Understood(r), now, q))
    {
      if r.None? || r.value.owner != q.owner || remaining == 0 { return Lost; }
      var retain := RetainedDeadline(now, q, r);
      ghost var meaning := Meaning(r.value);
      OwnedTables(meaning, r.value, now, q, retain);
      hide ValidTable, Meaning, Valid, TableOf, Timestamp, Hex64, LuaReference, CellOf, Applied, Save;
      if q.verb == Renew {
        var next := r.value.(leaseUntilMs := Numeral(now + q.lease.value), retainUntilMs := Numeral(retain));
        reply := Persist(next, now, meaning.(phase := Pending(now + q.lease.value), retainUntil := retain), Renewed(q.lease.value));
        return;
      }
      var next := r.value.(state := "completed", resultRef := q.result, leaseUntilMs := "0", retainUntilMs := Numeral(retain));
      reply := Persist(next, now, meaning.(phase := Completed(q.result), retainUntil := retain), Done(q.result));
    }
  }
}
