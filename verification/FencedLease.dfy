/** Fenced leases of `RedisStore` on v2 keys. Each Lua script is one atomic command on a
    server that holds a data cell and a lock cell per logical key; clients may interleave
    their commands in any order. What the lock cell says is proved equal to what the trace
    of commands says. */
module FencedLease {
  import opened Common
  import Pattern
  import RedisKeys
  import RedisScan
  import Utf16

  type Key = seq<Unit>
  type Token = seq<Unit>

  /** `resolveTtl` refuses anything else before a command is sent. */
  type Ttl = n: int | 0 < n witness 1

  datatype Cell = Cell(payload: seq<Byte>, until: nat)

  datatype Lease = Lease(token: Token, until: nat)

  /** Redis as a map with expiry. An expired cell is as good as absent. */
  datatype Server = Server(now: nat, data: map<Key, Cell>, locks: map<Key, Lease>)

  datatype Command =
    | Acquire(key: Key, token: Token, ttl: Ttl)
    | Renew(key: Key, token: Token, ttl: Ttl)
    | Release(key: Key, token: Token)
    | Publish(key: Key, token: Token, payload: seq<Byte>, ttl: Ttl)
    | SetDirect(key: Key, payload: seq<Byte>, ttl: Ttl)
    | DeleteDirect(key: Key)
    | Elapse(ms: nat)

  function Holder(s: Server, key: Key): Option<Token> {
    if key in s.locks && s.now < s.locks[key].until then Some(s.locks[key].token) else None
  }

  /** `SNAPSHOT_LUA`: a value and its remaining lifetime, read together. */
  function Snapshot(s: Server, key: Key): Option<(seq<Byte>, nat)> {
    if key in s.data && s.now < s.data[key].until then Some((s.data[key].payload, s.data[key].until - s.now)) else None
  }

  /** Whether the script answers 1 (or `OK`). */
  predicate Accepts(s: Server, c: Command) {
    match c
    case Acquire(key, _, _) => Holder(s, key) == None
    case Renew(key, token, _) => Holder(s, key) == Some(token)
    case Release(key, token) => Holder(s, key) == Some(token)
    case Publish(key, token, _, _) => Holder(s, key) == Some(token)
    case DeleteDirect(key) => Snapshot(s, key) != None
    case _ => true
  }

  function Execute(s: Server, c: Command): Server {
    match c
    case Acquire(key, token, ttl) => if Accepts(s, c) then s.(locks := s.locks[key := Lease(token, s.now + ttl)]) else s
    case Renew(key, token, ttl) => if Accepts(s, c) then s.(locks := s.locks[key := Lease(token, s.now + ttl)]) else s
    case Release(key, _) => if Accepts(s, c) then s.(locks := s.locks - {key}) else s
    case Publish(key, _, payload, ttl) =>
      if Accepts(s, c) then s.(data := s.data[key := Cell(payload, s.now + ttl)]) else s
    case SetDirect(key, payload, ttl) =>
      s.(data := s.data[key := Cell(payload, s.now + ttl)], locks := s.locks - {key})
    case DeleteDirect(key) => s.(data := s.data - {key}, locks := s.locks - {key})
    case Elapse(ms) => s.(now := s.now + ms)
  }

  /** The server after the first `n` commands of a run. */
  function State(run: seq<Command>, n: nat): Server
    requires n <= |run|
  {
    if n == 0 then Server(0, map[], map[]) else Execute(State(run, n - 1), run[n - 1])
  }

  predicate Accepted(run: seq<Command>, n: nat) {
    n < |run| && Accepts(State(run, n), run[n])
  }

  // ---------- What the trace alone says about leases ----------

  function Clock(run: seq<Command>, n: nat): nat
    requires n <= |run|
  {
    if n == 0 then 0 else Clock(run, n - 1) + if run[n - 1].Elapse? then run[n - 1].ms else 0
  }

  /** A direct set or delete of the key. */
  predicate Fences(c: Command, key: Key) {
    (c.SetDirect? || c.DeleteDirect?) && c.key == key
  }

  /** Until when the lease granted by command `i` runs, as of command `n`: its owner's renewals
      move the end, its owner's release, a fence or the passing of the end drop it for good. */
  function Until(run: seq<Command>, i: nat, n: nat): Option<nat>
    requires i < n <= |run| && run[i].Acquire?
  {
    if n == i + 1 then Some(Clock(run, i) + run[i].ttl)
    else
      var before, c := Until(run, i, n - 1), run[n - 1];
      if before == None || before.value <= Clock(run, n - 1) || Fences(c, run[i].key) then None
      else if c.Release? && c.key == run[i].key && c.token == run[i].token then None
      else if c.Renew? && c.key == run[i].key && c.token == run[i].token then Some(Clock(run, n - 1) + c.ttl)
      else before
  }

  predicate Granted(run: seq<Command>, key: Key, i: nat) {
    Accepted(run, i) && run[i].Acquire? && run[i].key == key
  }

  /** Command `i` was granted the lease of `key` and still has it just before command `n`. */
  predicate Owns(run: seq<Command>, key: Key, i: nat, n: nat) {
    && i < n <= |run| && Granted(run, key, i)
    && Until(run, i, n) != None && Clock(run, n) < Until(run, i, n).value
  }

  lemma {:induction false} ClockIsNow(run: seq<Command>, n: nat)
    requires n <= |run|
    ensures State(run, n).now == Clock(run, n)
  {
    if 0 < n { ClockIsNow(run, n - 1); }
  }

  lemma {:induction false} OwnedBefore(run: seq<Command>, key: Key, i: nat, m: nat, n: nat)
    requires Owns(run, key, i, n) && i < m <= n
    ensures Owns(run, key, i, m)
    decreases n - m
  {
    if m < n { OwnedBefore(run, key, i, m + 1, n); }
  }

  /** A lease that the trace says is owned is the one in the lock cell. */
  lemma {:induction false} OwnedIsStored(run: seq<Command>, key: Key, i: nat, n: nat)
    requires Owns(run, key, i, n)
    ensures var s := State(run, n); key in s.locks && s.locks[key] == Lease(run[i].token, Until(run, i, n).value)
    ensures Holder(State(run, n), key) == Some(run[i].token)
    decreases n
  {
    ClockIsNow(run, n);
    ClockIsNow(run, n - 1);
    if i + 1 < n {
      OwnedBefore(run, key, i, n - 1, n);
      OwnedIsStored(run, key, i, n - 1);
    }
  }

  /** A live lock cell is a lease the trace says is owned. */
  lemma {:induction false} StoredIsOwned(run: seq<Command>, key: Key, n: nat) returns (i: nat)
    requires n <= |run| && Holder(State(run, n), key) != None
    ensures Owns(run, key, i, n) && run[i].token == Holder(State(run, n), key).value
  {
    ClockIsNow(run, n);
    ClockIsNow(run, n - 1);
    if Holder(State(run, n - 1), key) == None {
      i := n - 1;
    } else {
      i := StoredIsOwned(run, key, n - 1);
      OwnedIsStored(run, key, i, n - 1);
    }
  }

  /** While a lease is owned nobody fences the key and nobody else is granted it. */
  lemma {:induction false} OwnedUndisturbed(run: seq<Command>, key: Key, i: nat, n: nat)
    requires Owns(run, key, i, n)
    ensures forall k | i < k < n :: !Fences(run[k], key) && !Granted(run, key, k)
  {
    forall k | i < k < n ensures !Fences(run[k], key) && !Granted(run, key, k) {
      OwnedBefore(run, key, i, k + 1, n);
      OwnedBefore(run, key, i, k, n);
      OwnedIsStored(run, key, i, k);
    }
  }

  // ---------- The protocol ----------

  /** At any moment one lease at most is owned. */
  lemma OneOwner(run: seq<Command>, key: Key, i: nat, j: nat, n: nat)
    requires Owns(run, key, i, n) && Owns(run, key, j, n)
    ensures i == j
  {
    OwnedUndisturbed(run, key, i, n);
    OwnedUndisturbed(run, key, j, n);
  }

  /** A publish, renewal or release is accepted exactly when its token was granted a lease
      that nothing has ended since. */
  lemma AcceptedIffOwned(run: seq<Command>, n: nat)
    requires n < |run| && (run[n].Publish? || run[n].Renew? || run[n].Release?)
    ensures Accepted(run, n) <==> exists i: nat :: Owns(run, run[n].key, i, n) && run[i].token == run[n].token
  {
    var key := run[n].key;
    if Accepted(run, n) {
      var i := StoredIsOwned(run, key, n);
    }
    forall i: nat | Owns(run, key, i, n) && run[i].token == run[n].token ensures Accepted(run, n) {
      OwnedIsStored(run, key, i, n);
    }
  }

  /** A lease is granted exactly when none is owned. */
  lemma GrantedIffFree(run: seq<Command>, n: nat)
    requires n < |run| && run[n].Acquire?
    ensures Accepted(run, n) <==> forall i: nat :: !Owns(run, run[n].key, i, n)
  {
    var key := run[n].key;
    if !Accepted(run, n) {
      var i := StoredIsOwned(run, key, n);
    }
    forall i: nat | Owns(run, key, i, n) ensures !Accepted(run, n) {
      OwnedIsStored(run, key, i, n);
    }
  }

  /** Owned leases follow each other in the order of their grants. */
  lemma OwnersInOrder(run: seq<Command>, key: Key, i: nat, m: nat, j: nat, n: nat)
    requires Owns(run, key, i, m) && Owns(run, key, j, n)
    ensures m <= n ==> i <= j
    ensures i < j ==> m <= j
  {
    OwnedUndisturbed(run, key, i, m);
    OwnedUndisturbed(run, key, j, n);
  }

  /** No two grants of one key share a token. */
  ghost predicate DistinctTokens(run: seq<Command>, key: Key) {
    forall i: nat, j: nat | Granted(run, key, i) && Granted(run, key, j) && run[i].token == run[j].token :: i == j
  }

  /** A publish is accepted only if its lease was acquired after the last direct set or delete
      before it. */
  lemma PublishAfterLastMutation(run: seq<Command>, key: Key, grant: nat, n: nat)
    requires DistinctTokens(run, key) && Granted(run, key, grant)
    requires Accepted(run, n) && run[n].Publish? && run[n].key == key && run[n].token == run[grant].token
    ensures grant < n && forall k | 0 <= k < n && Fences(run[k], key) :: k < grant
  {
    AcceptedIffOwned(run, n);
    var i: nat :| Owns(run, key, i, n) && run[i].token == run[n].token;
    assert i == grant;
    OwnedUndisturbed(run, key, i, n);
  }

  /** Accepted publishes follow the order in which their leases were acquired. */
  lemma PublishesFollowGrants(run: seq<Command>, key: Key, g1: nat, n1: nat, g2: nat, n2: nat)
    requires DistinctTokens(run, key) && Granted(run, key, g1) && Granted(run, key, g2)
    requires Accepted(run, n1) && run[n1].Publish? && run[n1].key == key && run[n1].token == run[g1].token
    requires Accepted(run, n2) && run[n2].Publish? && run[n2].key == key && run[n2].token == run[g2].token
    ensures n1 < n2 ==> g1 <= g2
    ensures g1 < g2 ==> n1 < g2
  {
    PublishAfterLastMutation(run, key, g1, n1);
    PublishAfterLastMutation(run, key, g2, n2);
    AcceptedIffOwned(run, n1);
    AcceptedIffOwned(run, n2);
    var i1: nat :| Owns(run, key, i1, n1) && run[i1].token == run[n1].token;
    var i2: nat :| Owns(run, key, i2, n2) && run[i2].token == run[n2].token;
    assert i1 == g1 && i2 == g2;
    OwnersInOrder(run, key, g1, n1, g2, n2);
    OwnersInOrder(run, key, g2, n2, g1, n1);
  }

  // ---------- What is stored ----------

  /** A write that took effect. */
  predicate Writes(run: seq<Command>, key: Key, w: nat) {
    Accepted(run, w) && (run[w].SetDirect? || run[w].Publish?) && run[w].key == key
  }

  predicate LastWrite(run: seq<Command>, key: Key, w: nat, n: nat) {
    && w < n <= |run| && Writes(run, key, w)
    && forall k | w < k < n :: !Writes(run, key, k) && !(run[k].DeleteDirect? && run[k].key == key)
  }

  lemma {:induction false} LastWriteIsStored(run: seq<Command>, key: Key, w: nat, n: nat)
    requires LastWrite(run, key, w, n)
    ensures var s := State(run, n); key in s.data && s.data[key] == Cell(run[w].payload, Clock(run, w) + run[w].ttl)
    decreases n
  {
    if w + 1 < n {
      assert !Writes(run, key, n - 1) && !(run[n - 1].DeleteDirect? && run[n - 1].key == key);
      LastWriteIsStored(run, key, w, n - 1);
    } else {
      ClockIsNow(run, w);
    }
  }

  lemma {:induction false} StoredIsLastWrite(run: seq<Command>, key: Key, n: nat) returns (w: nat)
    requires n <= |run| && key in State(run, n).data
    ensures LastWrite(run, key, w, n)
  {
    if Writes(run, key, n - 1) {
      w := n - 1;
    } else {
      w := StoredIsLastWrite(run, key, n - 1);
    }
  }

  /** A snapshot is the last accepted write, with what is left of its lifetime, or a miss
      when there is none or it ran out. */
  lemma SnapshotIsLastWrite(run: seq<Command>, key: Key, n: nat, payload: seq<Byte>, left: nat)
    requires n <= |run|
    ensures Snapshot(State(run, n), key) == Some((payload, left)) <==>
      (exists w: nat :: LastWrite(run, key, w, n) && ReadsAs(run, w, n, payload, left))
  {
    hide State, Clock, Accepted;
    ClockIsNow(run, n);
    forall w: nat | LastWrite(run, key, w, n) && ReadsAs(run, w, n, payload, left)
      ensures Snapshot(State(run, n), key) == Some((payload, left))
    {
      LastWriteIsStored(run, key, w, n);
    }
    if Snapshot(State(run, n), key) == Some((payload, left)) {
      var w := StoredIsLastWrite(run, key, n);
      LastWriteIsStored(run, key, w, n);
    }
  }

  predicate ReadsAs(run: seq<Command>, w: nat, n: nat, payload: seq<Byte>, left: nat)
    requires w < n <= |run|
  {
    && (run[w].SetDirect? || run[w].Publish?) && run[w].payload == payload
    && 0 < left && Clock(run, w) + run[w].ttl == Clock(run, n) + left
  }

  /** Write `w` is a direct set no earlier than `m`, or a publish under a lease acquired after `m`. */
  ghost predicate FreshWrite(run: seq<Command>, key: Key, w: nat, m: nat)
    requires w < |run| && (run[w].SetDirect? || run[w].Publish?)
  {
    if run[w].SetDirect? then m <= w else exists i: nat :: m < i && Owns(run, key, i, w) && run[i].token == run[w].token
  }

  lemma FenceBeforeWrite(run: seq<Command>, key: Key, w: nat, n: nat, m: nat)
    requires LastWrite(run, key, w, n) && m < n && Fences(run[m], key)
    ensures m <= w
  {
    if run[m].SetDirect? { assert Writes(run, key, m); }
  }

  /** Stored data never comes from a fill that was under way at the key's last direct set or
      delete: it is that set itself, or was published under a lease acquired after it. */
  lemma StoredIsNotObsolete(run: seq<Command>, key: Key, n: nat, m: nat)
    requires n <= |run| && Snapshot(State(run, n), key) != None
    requires m < n && Fences(run[m], key)
    ensures exists w: nat :: LastWrite(run, key, w, n) && FreshWrite(run, key, w, m)
  {
    var w := StoredIsLastWrite(run, key, n);
    assert m <= w by { FenceBeforeWrite(run, key, w, n, m); }
    if run[w].Publish? {
      AcceptedIffOwned(run, w);
      var i: nat :| Owns(run, key, i, w) && run[i].token == run[w].token;
      OwnedUndisturbed(run, key, i, w);
      assert m != i && m != w;
      assert m < i;
    }
  }

  /** Commands on one key leave every other key alone. */
  lemma KeysAreIndependent(s: Server, c: Command, key: Key)
    requires !c.Elapse? && c.key != key
    ensures Holder(Execute(s, c), key) == Holder(s, key) && Snapshot(Execute(s, c), key) == Snapshot(s, key)
  {
  }

  // ---------- The scripts and the loops around them ----------

  function ExecuteAll(s: Server, cs: seq<Command>): Server {
    if cs == [] then s else Execute(ExecuteAll(s, cs[..|cs| - 1]), cs[|cs| - 1])
  }

  lemma ExecuteNone(s: Server, cs: seq<Command>)
    ensures ExecuteAll(s, cs[..0]) == s
  {
  }

  lemma ExecuteNext(s: Server, cs: seq<Command>, n: nat)
    requires n < |cs|
    ensures ExecuteAll(s, cs[..n + 1]) == Execute(ExecuteAll(s, cs[..n]), cs[n])
  {
    assert cs[..n + 1][..n] == cs[..n];
  }

  function Deletes(keys: seq<Key>): (r: seq<Command>)
    ensures |r| == |keys| && forall i | 0 <= i < |r| :: r[i] == DeleteDirect(keys[i])
  {
    seq(|keys|, i requires 0 <= i < |keys| => DeleteDirect(keys[i]))
  }

  /** After a bulk delete no listed key is stored or leased; every other key is as before. */
  lemma {:induction false} BulkDeleteFences(s: Server, keys: seq<Key>, key: Key)
    ensures var t := ExecuteAll(s, Deletes(keys));
      t.now == s.now &&
      if key in keys then Holder(t, key) == None && Snapshot(t, key) == None
      else Holder(t, key) == Holder(s, key) && Snapshot(t, key) == Snapshot(s, key)
  {
    if keys != [] {
      var n := |keys| - 1;
      assert Deletes(keys)[..n] == Deletes(keys[..n]);
      BulkDeleteFences(s, keys[..n], key);
    }
  }

  lemma {:induction false} BulkDeleteRemoves(s: Server, keys: seq<Key>, key: Key)
    ensures var t := ExecuteAll(s, Deletes(keys));
      && (key in t.data <==> key in s.data && key !in keys)
      && (key in t.locks <==> key in s.locks && key !in keys)
  {
    if keys != [] {
      var n := |keys| - 1;
      assert Deletes(keys)[..n] == Deletes(keys[..n]);
      BulkDeleteRemoves(s, keys[..n], key);
    }
  }

  lemma DeletesLast(s: Server, keys: seq<Key>)
    requires keys != []
    ensures var n := |keys| - 1;
      ExecuteAll(s, Deletes(keys)) == Execute(ExecuteAll(s, Deletes(keys[..n])), DeleteDirect(keys[n]))
  {
    hide Execute;
    assert Deletes(keys)[..|keys| - 1] == Deletes(keys[..|keys| - 1]);
  }

  lemma {:induction false} DeletesJoin(s: Server, a: seq<Key>, b: seq<Key>)
    ensures ExecuteAll(ExecuteAll(s, Deletes(a)), Deletes(b)) == ExecuteAll(s, Deletes(a + b))
  {
    hide Execute, ExecuteAll;
    if b == [] {
      ExecuteNone(ExecuteAll(s, Deletes(a)), []);
      assert a + b == a && Deletes(b) == [];
    } else {
      var n := |b| - 1;
      DeletesJoin(s, a, b[..n]);
      DeletesLast(ExecuteAll(s, Deletes(a)), b);
      DeletesLast(s, a + b);
      assert (a + b)[..|a| + n] == a + b[..n];
    }
  }

  class RedisStore {
    const prefix: seq<Unit>
    const indexKey: seq<Unit>
    var now: nat
    var data: map<Key, Cell>
    var locks: map<Key, Lease>

    ghost function Contents(): Server
      reads this
    {
      Server(now, data, locks)
    }

    /** GET on a lock key. */
    function Current(key: Key): (r: Option<Token>)
      reads this
      ensures r == Holder(Contents(), key)
    {
      if key in locks && now < locks[key].until then Some(locks[key].token) else None
    }

    method SetEncoded(key: Key, payload: seq<Byte>, ttl: Ttl)
      modifies this`data, this`locks
      ensures Contents() == Execute(old(Contents()), SetDirect(key, payload, ttl))
    {
      data := data[key := Cell(payload, now + ttl)];
      locks := locks - {key};
    }

    method AcquireLock(key: Key, token: Token, ttl: Ttl) returns (granted: bool)
      modifies this`locks
      ensures granted == Accepts(old(Contents()), Acquire(key, token, ttl))
      ensures Contents() == Execute(old(Contents()), Acquire(key, token, ttl))
    {
      granted := Current(key) == None;
      if granted { locks := locks[key := Lease(token, now + ttl)]; }
    }

    method ReleaseLock(key: Key, token: Token) returns (released: bool)
      modifies this`locks
      ensures released == Accepts(old(Contents()), Release(key, token))
      ensures Contents() == Execute(old(Contents()), Release(key, token))
    {
      if Current(key) == None || Current(key) != Some(token) { return false; }
      locks := locks - {key};
      released := true;
    }

    method RenewLock(key: Key, token: Token, ttl: Ttl) returns (renewed: bool)
      modifies this`locks
      ensures renewed == Accepts(old(Contents()), Renew(key, token, ttl))
      ensures Contents() == Execute(old(Contents()), Renew(key, token, ttl))
    {
      if Current(key) == None || Current(key) != Some(token) { return false; }
      locks := locks[key := locks[key].(until := now + ttl)];
      renewed := true;
    }

    method PublishIfOwner(key: Key, token: Token, payload: seq<Byte>, ttl: Ttl) returns (published: bool)
      modifies this`data
      ensures published == Accepts(old(Contents()), Publish(key, token, payload, ttl))
      ensures Contents() == Execute(old(Contents()), Publish(key, token, payload, ttl))
    {
      if Current(key) == None || Current(key) != Some(token) { return false; }
      data := data[key := Cell(payload, now + ttl)];
      published := true;
    }

    method DeleteAndFence(key: Key) returns (deleted: bool)
      modifies this`data, this`locks
      ensures deleted == Accepts(old(Contents()), DeleteDirect(key))
      ensures Contents() == Execute(old(Contents()), DeleteDirect(key))
    {
      deleted := key in data && now < data[key].until;
      data, locks := data - {key}, locks - {key};
    }

    /** Fenced deletes in batches; the batch size changes nothing. */
    method DeleteKeys(keys: seq<Key>, batchSize: nat)
      requires 0 < batchSize
      modifies this`data, this`locks
      ensures Contents() == ExecuteAll(old(Contents()), Deletes(keys))
    {
      hide Execute, ExecuteAll;
      var index := 0;
      assert Contents() == ExecuteAll(Contents(), Deletes(keys)[..0]) by { ExecuteNone(Contents(), Deletes(keys)); }
      while index < |keys|
        invariant index <= |keys|
        invariant Contents() == ExecuteAll(old(Contents()), Deletes(keys)[..index])
      {
        var end := if index + batchSize < |keys| then index + batchSize else |keys|;
        while index < end
          invariant index <= end <= |keys|
          invariant Contents() == ExecuteAll(old(Contents()), Deletes(keys)[..index])
        {
          ExecuteNext(old(Contents()), Deletes(keys), index);
          var _ := DeleteAndFence(keys[index]);
          index := index + 1;
        }
      }
      assert Deletes(keys)[..|keys|] == Deletes(keys);
    }

    /** The prefix can be written on the wire, and the index does not look like a v2 key. */
    predicate LayoutOk() {
      Utf16.WellFormed(prefix) && !RedisKeys.StartsWith(indexKey, RedisKeys.VERSION + [RedisKeys.OPEN])
    }

    /** A scan lists the keys as they are on the wire; what does not parse is passed by. */
    lemma Recognised(kind: RedisKeys.Kind, key: Key)
      requires LayoutOk()
      ensures RedisKeys.Parse(prefix, indexKey, RedisKeys.Wire(RedisKeys.Build(prefix, kind, key))) ==
        if Utf16.WellFormed(key) then Some(RedisKeys.Parsed(kind, key)) else None
    {
      RedisKeys.WireOfBuild(prefix, kind, key);
      RedisKeys.ShellParts(key, prefix + RedisKeys.Mark(kind) + RedisKeys.Wire(key));
      RedisKeys.WireParses(prefix, indexKey, kind, key);
    }

    /** What a scan with the pattern finds, in no particular order: of what the server lists for it
        the keys that parse and match. */
    method Scan(server: RedisScan.Server, kind: RedisKeys.Kind, stored: set<Key>, pattern: seq<Unit>) returns (found: seq<Key>)
      requires LayoutOk()
      ensures forall k :: k in found <==> k in stored && Found(server, kind, k, pattern)
    {
      hide LayoutOk, RedisKeys.Parse, RedisKeys.Build, RedisKeys.Wire, Utf16.WellFormed, Pattern.Matches, RedisScan.Listed;
      found := [];
      var todo := stored;
      while todo != {}
        invariant todo <= stored
        invariant forall k :: k in found <==> k in stored - todo && Found(server, kind, k, pattern)
      {
        var key :| key in todo;
        todo := todo - {key};
        if RedisScan.Listed(server, prefix, kind, key, pattern) {
          Recognised(kind, key);
          var parsed := RedisKeys.Parse(prefix, indexKey, RedisKeys.Wire(RedisKeys.Build(prefix, kind, key)));
          if parsed.Some? && parsed.value.kind == kind {
            var hit := Pattern.MatchesPattern(parsed.value.key, pattern);
            if hit { found := found + [parsed.value.key]; }
          }
        }
      }
    }

    ghost predicate Found(server: RedisScan.Server, kind: RedisKeys.Kind, key: Key, pattern: seq<Unit>) {
      Utf16.WellFormed(key) && Pattern.Matches(key, pattern) && RedisScan.Listed(server, prefix, kind, key, pattern)
    }

    /** One of the two scans of a pattern delete finds the key. */
    ghost predicate Reaches(server: RedisScan.Server, key: Key, pattern: seq<Unit>)
      reads this`data, this`locks
    {
      (key in data && Found(server, RedisKeys.Data, key, pattern)) || (key in locks && Found(server, RedisKeys.Lock, key, pattern))
    }

    /** `deleteByPattern`: the stored keys first, then `fencePatternLeases`, which reaches the
        fills that have stored nothing yet. It amounts to fenced deletes of matching keys, of all
        that hold no unpaired surrogate when the pattern holds none. */
    method DeleteByPattern(server: RedisScan.Server, pattern: seq<Unit>, batchSize: nat) returns (ghost deleted: seq<Key>)
      requires 0 < batchSize && LayoutOk()
      modifies this`data, this`locks
      ensures Contents() == ExecuteAll(old(Contents()), Deletes(deleted))
      ensures forall k | k in deleted :: Utf16.WellFormed(k) && Pattern.Matches(k, pattern)
      ensures forall k :: k in data <==> k in old(data) && !old(Reaches(server, k, pattern))
      ensures forall k :: k in locks <==> k in old(locks) && !old(Reaches(server, k, pattern))
      ensures Utf16.WellFormed(pattern) ==> forall k | Utf16.WellFormed(k) && Pattern.Matches(k, pattern) :: k !in data && k !in locks
    {
      hide Execute, ExecuteAll, Found, LayoutOk;
      var stored := Scan(server, RedisKeys.Data, data.Keys, pattern);
      DeleteKeys(stored, batchSize);
      ghost var before := Contents();
      var leased := Scan(server, RedisKeys.Lock, locks.Keys, pattern);
      DeleteKeys(leased, 1);
      DeletesJoin(old(Contents()), stored, leased);
      deleted := stored + leased;
      forall k: Key
        ensures k in data <==> k in old(data) && !old(Reaches(server, k, pattern))
        ensures k in locks <==> k in old(locks) && !old(Reaches(server, k, pattern))
      {
        BulkDeleteRemoves(old(Contents()), stored, k);
        BulkDeleteRemoves(before, leased, k);
      }
      FoundMatches(server, pattern);
    }

    lemma FoundMatches(server: RedisScan.Server, pattern: seq<Unit>)
      ensures forall kind, k | Found(server, kind, k, pattern) :: Utf16.WellFormed(k) && Pattern.Matches(k, pattern)
      ensures LayoutOk() && Utf16.WellFormed(pattern) ==> forall kind, k | Utf16.WellFormed(k) && Pattern.Matches(k, pattern) ::
        Found(server, kind, k, pattern)
    {
      hide Pattern.Matches, RedisScan.Listed, Utf16.WellFormed;
      if LayoutOk() && Utf16.WellFormed(pattern) {
        forall kind, k: Key | Utf16.WellFormed(k) && Pattern.Matches(k, pattern) ensures Found(server, kind, k, pattern) {
          RedisScan.ScanLosesNothing(server, prefix, kind, k, pattern);
        }
      }
    }
  }
}
