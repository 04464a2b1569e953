# LazyLayers: verified core

LazyLayers is a two-tier cache: a process-local L1, a shared L2 (Redis, or KV in a Worker), a
bus that carries invalidations, and a small coordinator that makes an operation run once. This
project models the parts whose correctness is not visible in any one function, and proves what
they promise:

- **Wire formats.** The flat MessagePack scanner, the one-pass JSON bracket scanner and the UTF-8
  automaton accept exactly what the recursive grammars define (`MessagePack`, `JsonScan`, `Utf8`).
  Record encoding and decoding round-trip under every codec policy (`Codec`), the running size
  counter of event metadata is exact (`EventEncoding`, `Utf16`), and Redis keys can be read back
  (`RedisKeys`).
- **Matching.** The anchored-segment wildcard matcher with its KMP search means the glob it is
  meant to mean (`Pattern`), and a Redis scan, whose own glob works on octets, loses nothing that
  the matcher accepts, unpaired surrogates apart (`RedisScan`).
- **Local coherence.** In every interleaving of reads, loads, writes, deletes, peer events and
  restores no obsolete entry is kept, and trust means reconciled (`CacheGuards`, `WorkerGuards`).
- **Leases.** The lock scripts, the lock maintained on the client's clock, and the coordinator
  with its lease helper (`FencedLease`, `LocalLease`, `Coordinator`, `OperationProtocol`,
  `OperationLease`, `Decimal`).
- **Bytes and bounds.** The shared byte ledger and everything counted on it (`ByteLedger`,
  `CacheLedger`, `InflightLoads`, `OriginGate`, `MemoryStore`, `OrderedMap`), what received deletes leave in a cache
  that closes meanwhile (`ReceivedDelete`), the retry queue (`RetryQueue`), and the three gates and
  the handler queue as one bounded FIFO semaphore (`Semaphore`, `OriginGate`, `Gates`).

Asynchronous code is a transition system: one step is the code between two awaits, with one clock
reading per step. A class with mutable fields is a class here; each of its methods is proved to
do to the object's state what a function of the old state says, and the theorems about whole runs
are about those functions. Text is a sequence of UTF-16 code units, binary data a sequence of
octets. Commands to other processes, random tokens, clocks and library codecs are parameters.

`dafny verify dfyconfig.toml` checks the whole project.

## Where the code and its promise part

Each of these is a lemma with the exact condition, or with a concrete run.

- `clear()` and `deleteByPattern('*')` of the Worker facade leave L1 entries whose key holds a line
  terminator: the purge prefixes the pattern, and only the bare `*` crosses terminators. It is so
  with every prefix but the empty one (`WorkerGuards.PurgeReaches`,
  `WorkerGuards.ClearMissesTerminators`, `WorkerGuards.ClearedEntrySurvives`). The order of deletes
  and installs holds for every delete that reaches the key (`WorkerGuards.NoObsoleteEntry`).
- An owner whose operation lease expired can hold the record again, after another owner took it and
  expired too, or after the retention (`OperationProtocol.ExpiredOwnerReturnsIff`,
  `OperationProtocol.ExpiredOwnerMayReturn`).
- A lease that its owner renews for a shorter time ends before an earlier answer said, and another
  owner can then be granted the operation. Whatever others do while an owner is silent, its leases
  stay clear of theirs exactly when no renewal of its own asks to end before an earlier grant
  (`OperationProtocol.DisjointIff`, `OperationProtocol.PromiseKeptIff`;
  `OperationProtocol.ShortenedLeaseOverlaps` is the least run).
- The operation lease helper trusts a lease for up to one millisecond longer than the server, which
  cuts its clock down to milliseconds (`OperationLease.OverlapIff`); without a `startedAt` from
  before the request it overruns by the whole way back (`OperationLease.UndatedDeadlineOverruns`).
- The first deadline of the load lock is counted on the wall clock: it is safe exactly when the wall
  clock advanced at least as far as the monotonic one (`LocalLease.FirstDeadlineIsSafe`,
  `LocalLease.SlowWallClockBreaksExclusion`).
- A closed cache whose tasks settled should hold nothing. A received delete asks whether the cache
  is closed only at the head of its loop: at the close it may be in the flush after a generation
  regression (versioned caches only), or at a canonical numeric key of an untyped event, whose
  number it has still to delete. Such a delete stores a generation in the closed cache if the limits
  and the ledger admit it, and its bytes are never given back. In every run the settled share is
  zero exactly when no such delete went on and was admitted (`ReceivedDelete.SettledShareIff`,
  `ReceivedDelete.EmptyIff`); with room for each, exactly when none was there at the close
  (`ReceivedDelete.EmptyIffNoneExposed`). Both ways are runs through the loop
  (`ReceivedDelete.AliasOutlivesClose`, `ReceivedDelete.RegressionOutlivesClose`).
- The byte counter of the loads in flight should be the sum of the tracked loads. `getOrSet` reads
  the clock once to prune an expired load and once more before it joins one; a load that is tracked
  over an entry which expired between the two leaves that entry's bytes counted until the next
  clear. In every run the counter is the sum exactly when that did not happen since the last clear
  (`InflightLoads.CounterIsSumIff`, `InflightLoads.OneReadingIsExact`; the least run is
  `InflightLoads.ReplacedStaysCounted`).
- A JSON record that starts with a byte order mark is a hit for the Worker reader and a miss for
  the Node reader (`Codec.ReadersAgreeIff`, for gzip bodies that the two platforms expand alike). The Node reader ignores the top bit of each tag octet,
  the Worker reader does not (`Codec.MaskedTagIsRead`); no record of an earlier release is misread
  for that (`Codec.LegacyIsNotTagged`).
- A Redis key that holds an unpaired surrogate is not recognised when a scan lists it, so pattern
  deletes pass it by (`RedisKeys.WireParses`). A pattern that holds one is sent to the server as
  another pattern: it makes the server pass by well-formed keys exactly if it matches any
  (`RedisScan.PatternLosesIff`; the least case is `RedisScan.HalfPairIsPassedBy`). With neither,
  nothing is lost (`RedisScan.ScanLosesNothing`). The empty key and `_` share a slot tag
  (`RedisKeys.EmptyKeyCollides`).
- The JavaScript side admits `%` in a reference, the script does not
  (`Coordinator.LuaRefusesPercent`). A client refuses a reply that reports a lease longer than its
  own (`OperationProtocol.RepliesDecode`).

## Model

| member | source | states |
|---|---|---|
| Utf8.IsSafeUtf8 | src/utils/decodeValidation.ts:8-27 | The automaton accepts a range exactly when it is the UTF-8 of some sequence of scalar values (section 3 of RFC 3629). |
| Utf8.OctetsIffUtf8 | src/utils/decodeValidation.ts:8-27 | The byte grammar of section 4 of RFC 3629, which the automaton follows, describes the same octet sequences as the encoding table of section 3. |
| Utf8.CharEncodesScalar | src/utils/decodeValidation.ts:12-24 | Every character of that grammar encodes a scalar value: no overlong form, no surrogate, nothing above U+10FFFF. |
| Utf8.EncodeAllInjective | src/utils/decodeValidation.ts:8-27 | Valid UTF-8 has one reading. |
| MessagePack.IsSafeMessagePack | src/utils/decodeValidation.ts:35-121 | Accepts exactly the encodings of one value of the recursive grammar within the depth, collection, total-value and size limits; terminates; its stack never exceeds maxDepth + 1. |
| MessagePack.ParseComplete | src/utils/decodeValidation.ts:35-121 | Recursive reading finds every value of the grammar within the limits, in full. |
| MessagePack.ParseSound | src/utils/decodeValidation.ts:35-121 | Whatever recursive reading accepts is the encoding of a well-formed value within the limits. |
| MessagePack.ParseDecides | src/utils/decodeValidation.ts:35-121 | Recursive reading from the first octet decides the grammar. |
| MessagePack.VerdictDecides | src/utils/decodeValidation.ts:37-39 | The verdict of the flat stack, started with one pending value, is the grammar's. |
| MessagePack.TakeKeepsVerdict | src/utils/decodeValidation.ts:53-60 | Reading one header, or refusing a container, early cut on remaining octets included, changes no verdict. |
| MessagePack.ParseMany | src/utils/decodeValidation.ts:56-57 | Each value takes at least one octet and counts at least one: what makes the early cut sound. |
| MessagePack.Scanner.Advance | src/utils/decodeValidation.ts:40-44 | Moves the position by the announced octets exactly when they are there. |
| MessagePack.Scanner.Length | src/utils/decodeValidation.ts:45-50 | Reads a big-endian length, or -1 when it is cut short. |
| MessagePack.Scanner.Text | src/utils/decodeValidation.ts:51-52 | Passes over a string exactly when it is there and is UTF-8. |
| MessagePack.Scanner.Container | src/utils/decodeValidation.ts:53-60 | Pushes the child count exactly when the collection, remaining-octet and depth limits allow. |
| MessagePack.Scanner.Extension | src/utils/decodeValidation.ts:61-80 | Reads the listed extensions and wrappers and no others. |
| MessagePack.Scanner.Dispatch | src/utils/decodeValidation.ts:88-119 | Follows what the header announces, for every tag octet. |
| MessagePack.Scanner.Take | src/utils/decodeValidation.ts:82-119 | One turn of the loop keeps the verdict and makes progress; a refusal means no acceptable value starts here. |
| JsonScan.IsSafeJson | src/utils/decodeValidation.ts:125-155 | On every RFC 8259 text, whatever its whitespace and escapes, accepts exactly when depth, each collection's size, values plus object keys, and byte length are within the limits. |
| JsonScan.TextDecided | src/utils/decodeValidation.ts:125-155 | The bracket scanner's state machine decides the limits of every text of the grammar. |
| JsonScan.RunValue | src/utils/decodeValidation.ts:130-154 | Scanning the text of a value adds its values and keys, and fails exactly when the value breaks a limit where it stands. |
| JsonScan.RunString | src/utils/decodeValidation.ts:132-138 | A string, escapes included, is passed over as one token. |
| Pattern.MatchesPattern | src/cache/pattern.ts:1-23 | True exactly when the pattern is `*`, or the value is literal, gap, literal, ... with no line terminator in any gap. |
| Pattern.GlobSegments | src/cache/pattern.ts:8-22 | The recursive glob is: first segment at the start, last at the end, the others in order between them with clean gaps. |
| Pattern.LeftmostComplete | src/cache/pattern.ts:15-21 | Committing to the leftmost occurrence loses no match, although literals may contain line terminators. |
| Pattern.RepeatedLiteralIsClean | src/cache/pattern.ts:15-21 | A literal that occurs again after a terminator-free gap holds no terminator itself (periodicity). |
| Pattern.GlobTail | src/cache/pattern.ts:13-22 | The segments after the first: a chain of clean gaps, and the last one anchored at the end. |
| Pattern.GlobLiteral | src/cache/pattern.ts:11-12 | A leading literal consumes itself and nothing else. |
| Pattern.FindLiteral | src/cache/pattern.ts:34-46 | The leftmost occurrence inside [start, end) or -1, in at most 2(literal) + 2(range) loop turns. |
| Pattern.BuildTable | src/cache/pattern.ts:35-40 | Each cell of the failure table is the longest proper border of its prefix. |
| Pattern.HasLineTerminator | src/cache/pattern.ts:25-32 | True exactly when the range holds CR, LF, U+2028 or U+2029. |
| Pattern.TwoStarsAreNotOne | src/cache/pattern.ts:2 | `*` matches everything, `**` only values without line terminators. |
| CacheGuards.NoObsoleteEntry | src/cache/hybridCache.ts:476-535 | In every interleaving no L1 entry was installed by a task that observed its key before the key's latest delete, matching pattern delete or accepted set; stale and negative entries neither, as far as deletes go. |
| CacheGuards.CurrentGuardIsUpToDate | src/cache/hybridCache.ts:1733-1760 | A guard that passes the check holds the record its key is listed under, with an exact reference count, and nothing mutated the key since it observed it. |
| CacheGuards.TrustedMeansReconciled | src/cache/hybridCache.ts:1774-1796 | While a cache is trusted, no gap came after the restoring flush began, and every entry was installed by a task that observed its key after it, overlapping restores included. |
| CacheGuards.StepKeeps | src/cache/hybridCache.ts:435-620 | Every step of set, get, load, delete, pattern delete, peer event, bus status, restore, saturation, eviction and close keeps the invariant behind these, whether a value is stored, bypassed with or without emptying its key, or its set throws. |
| CacheGuards.BeginKeeps | src/cache/hybridCache.ts:1733-1745 | A mutating observation leaves no other guard of the key current. |
| CacheGuards.PeerSetReadKeeps | src/cache/hybridCache.ts:1945-2006 | A peer set, accepted as of its observation once it is promoted, keeps the invariant. |
| CacheGuards.LoadPublishedKeeps | src/cache/hybridCache.ts:881-939 | Promoting an atomically published load, under the guard check, keeps the invariant. |
| CacheGuards.HybridCache.ObserveKey | src/cache/hybridCache.ts:1733-1745 | Uses the listed record or a new one, counts the guard, and hands out the record's revision and the epoch. |
| CacheGuards.HybridCache.ReleaseKey | src/cache/hybridCache.ts:1747-1755 | The last guard of a listed record takes it off the list, and no other change. |
| CacheGuards.HybridCache.DeleteLocal | src/cache/hybridCache.ts:1108-1124 | Forgets the key in all three maps and bumps its revision, in one step. |
| CacheGuards.HybridCache.DeleteByPatternLocal | src/cache/hybridCache.ts:1139-1159 | New epoch; exactly the matching entries go from all three maps. |
| CacheGuards.HybridCache.MarkInvalidationUntrusted | src/cache/hybridCache.ts:1774-1783 | New epoch and bus revision, no trust, everything local dropped. |
| CacheGuards.HybridCache.RestoreBegin | src/cache/hybridCache.ts:1785-1791 | The flush before trust: new epoch, everything dropped, the bus revision remembered. |
| CacheGuards.HybridCache.RestoreFinish | src/cache/hybridCache.ts:1792-1795 | Trust returns exactly when no gap intervened, the cache is open and the bus is up. |
| CacheGuards.HybridCache.CloseResources | src/cache/hybridCache.ts:435-460 | After the close no listed record is registered, so no guard is current. |
| CacheGuards.DropMatching | src/cache/hybridCache.ts:1141-1157 | The loop removes exactly the keys the matcher accepts. |
| WorkerGuards.NoObsoleteEntry | src/cloudflare/index.ts:208-331 | In every interleaving, with every prefix and key, no L1 entry was installed by a task that observed its key before the latest set, delete or pattern delete that reaches the key. |
| WorkerGuards.NoObsoleteCleanEntry | src/cloudflare/index.ts:208-331 | That is every one that hits the key when the key holds no line terminator, or the prefix is empty. |
| WorkerGuards.PatternDeleteObsoletesGuards | src/cloudflare/index.ts:282-289 | A pattern delete bumps tracked keys only, and still no outstanding matching guard stays current. |
| WorkerGuards.PurgeReaches | src/cloudflare/index.ts:287 | The purge reaches a matching key except when the pattern is `*`, the prefix is not empty and the key holds a line terminator; behind a prefix without `*` it reaches nothing else. |
| WorkerGuards.PrefixKeepsGlob | src/cloudflare/index.ts:287 | Prefixing both key and pattern keeps a match, whatever the prefix holds. |
| WorkerGuards.ClearMissesTerminators | src/cloudflare/index.ts:291 | `clear()` leaves an L1 entry exactly when the prefix is not empty and the key holds a line terminator. |
| Pattern.PrefixedStar | src/cache/pattern.ts:8-22 | A prefix followed by `*` reaches, under that prefix, keys without line terminators only, even if the prefix itself holds wildcards. |
| WorkerGuards.ClearedEntrySurvives | src/cloudflare/index.ts:282-291 | The least run that shows it: one fill, then `clear()`. |
| WorkerGuards.StepKeeps | src/cloudflare/index.ts:208-331 | Every step of the facade keeps the invariant behind these. |
| WorkerGuards.CloudflareWorkerCache.ObserveKey | src/cloudflare/index.ts:314-321 | Uses the tracked record or a new one and hands out its revision and the epoch. |
| WorkerGuards.CloudflareWorkerCache.ReleaseKey | src/cloudflare/index.ts:323-326 | The last guard of a tracked record removes it. |
| WorkerGuards.CloudflareWorkerCache.DeleteByPattern | src/cloudflare/index.ts:282-289 | Bumps exactly the tracked matching keys and purges L1 with the prefixed pattern. |
| WorkerGuards.CloudflareWorkerCache.Close | src/cloudflare/index.ts:296-300 | Once: new epoch, no record tracked. |
| FencedLease.OwnedIsStored | src/cache/redisStore.ts:48-90 | A lease that the commands so far say is owned is the one in the lock cell, until its end. |
| FencedLease.StoredIsOwned | src/cache/redisStore.ts:48-90 | A live lock cell was granted by a command nothing has ended since. |
| FencedLease.OneOwner | src/cache/redisStore.ts:630-661 | At any moment at most one lease of a key is owned. |
| FencedLease.AcceptedIffOwned | src/cache/redisStore.ts:48-66 | A publish, renewal or release is accepted exactly when its token was granted a lease that nothing has ended. |
| FencedLease.GrantedIffFree | src/cache/redisStore.ts:630-636 | A lease is granted exactly when none is owned. |
| FencedLease.OwnersInOrder | src/cache/redisStore.ts:630-661 | Owned leases follow each other in the order of their grants. |
| FencedLease.PublishAfterLastMutation | src/cache/redisStore.ts:672-711 | A publish is accepted only if its lease was acquired after the key's last direct set or delete. |
| FencedLease.PublishesFollowGrants | src/cache/redisStore.ts:672-711 | Accepted publishes follow the order in which their leases were acquired. |
| FencedLease.SnapshotIsLastWrite | src/cache/redisStore.ts:69-76 | A snapshot is the last accepted write with what is left of its lifetime, and a miss exactly when there is none or it ran out. |
| FencedLease.StoredIsNotObsolete | src/cache/redisStore.ts:79-90 | What is stored is the last direct set itself, or was published under a lease acquired after the last set or delete. |
| FencedLease.KeysAreIndependent | src/cache/redisStore.ts:48-90 | A command on one key leaves the data and lock of every other key alone. |
| FencedLease.BulkDeleteFences | src/cache/redisStore.ts:979-1002 | After a bulk delete no listed key is stored or leased; every other key is as before. |
| FencedLease.RedisStore.SetEncoded | src/cache/redisStore.ts:79-83 | Stores the payload with its lifetime and drops the lock. |
| FencedLease.RedisStore.AcquireLock | src/cache/redisStore.ts:630-636 | Sets the lock exactly when none is live. |
| FencedLease.RedisStore.ReleaseLock | src/cache/redisStore.ts:48-52 | Drops the lock exactly when it holds the token. |
| FencedLease.RedisStore.RenewLock | src/cache/redisStore.ts:54-58 | Prolongs the lock exactly when it holds the token. |
| FencedLease.RedisStore.PublishIfOwner | src/cache/redisStore.ts:61-66 | Stores the payload exactly when the lock holds the token; the lock stays. |
| FencedLease.RedisStore.DeleteAndFence | src/cache/redisStore.ts:86-90 | Drops data and lock, and says whether there was data. |
| FencedLease.RedisStore.DeleteKeys | src/cache/redisStore.ts:979-1002 | Batches amount to one fenced delete per key, in order, whatever the batch size. |
| FencedLease.RedisStore.DeleteByPattern | src/cache/redisStore.ts:431-455 | Amounts to fenced deletes of matching keys: exactly those go that one of the two scans finds, cold fills included; when the pattern holds no unpaired surrogate, no well-formed matching key is stored or leased afterwards. |
| FencedLease.RedisStore.Scan | src/cache/redisStore.ts:437-447 | Of the stored keys a scan yields those that the server's `MATCH` lists, that hold no unpaired surrogate and that match, and no other. |
| RedisScan.ServerGlobIff | src/cache/redisStore.ts:436-439 | The server's glob on octets accepts an encoded text exactly when the text matches character by character, although its `*` may split characters and whatever its brackets mean. |
| RedisScan.ServerGlobSound | src/cache/redisStore.ts:436-439 | A match on octets finds its way back to whole characters at every literal. |
| RedisScan.EscapedBytes | src/cache/redisStore.ts:1094-1100 | The escaped text, as it is on the wire, spells the text's characters and stars and nothing else. |
| RedisScan.PatternBytes | src/cache/redisStore.ts:741-747 | The same of the whole pattern sent, escaped prefix and lock mark included. |
| RedisScan.ListedIff | src/cache/redisStore.ts:741-747 | The server lists a key exactly when the text of its Redis key matches the pattern's tokens. |
| RedisScan.GlobIsOnText | src/cache/redisStore.ts:1098-1100 | On well-formed texts a match of the store's matcher on code units is a match on characters. |
| RedisScan.ScanLosesNothing | src/cache/redisStore.ts:431-455 | For well-formed prefix, key and pattern the server lists whatever the store's matcher accepts, data and locks alike. |
| RedisScan.FewMarksAreNotListed | src/cache/redisStore.ts:741-747 | An ill-formed pattern does not list a well-formed key with no more replacement characters than its own. |
| RedisScan.PatternLosesIff | src/cache/redisStore.ts:431-455 | Some well-formed matching key is not listed exactly when the pattern is ill-formed and matches any well-formed key. |
| RedisScan.HalfPairIsPassedBy | src/cache/redisStore.ts:431-455 | The least case: a surrogate pair, and a pattern that asks for its second half. |
| LocalLease.PassingMeansHolding | src/cache/distributedLock.ts:39-98 | Before `stop`, and while no fence removed the lock, a passing local check means the server still holds that token. |
| LocalLease.OnePasses | src/cache/distributedLock.ts:70-73 | So at most one client passes at any instant. |
| LocalLease.FirstDeadlineIsSafe | src/cache/distributedLock.ts:46-48 | The first deadline is within the server's lifetime exactly when the wall clock advanced at least as far as the monotonic clock, up to the lifetime. |
| LocalLease.SlowWallClockBreaksExclusion | src/cache/distributedLock.ts:46-48 | In a takeover run both clients pass exactly when the wall clock ran slow. |
| LocalLease.StepKeeps | src/cache/distributedLock.ts:39-98 | Every step of clients, server and clock keeps the invariant behind these. |
| LocalLease.LoadLease.constructor | src/cache/distributedLock.ts:46-50 | The first deadline, from both clocks. |
| LocalLease.LoadLease.AssertOwned | src/cache/distributedLock.ts:70-73 | Returns exactly while the deadline is ahead and no loss was seen, and records the loss otherwise. |
| LocalLease.LoadLease.OnRenewed | src/cache/distributedLock.ts:81-92 | Counts the new deadline from the request; a late or negative answer loses the lease. |
| LocalLease.LoadLease.LoseIt | src/cache/distributedLock.ts:63-69 | The first loss stops the lease; after a stop nothing changes. |
| LocalLease.LoadLease.Stop | src/cache/distributedLock.ts:58-62 | Stops, and changes neither deadline nor loss. |
| Decimal.NumeralReads | src/transactions/scripts.ts:30 | The printed numeral is canonical and reads back as the number. |
| Decimal.CanonicalIsNumeral | src/transactions/scripts.ts:31-37 | A canonical numeral is the one its value prints. |
| Decimal.NumeralInjective | src/transactions/scripts.ts:30 | Two different numbers never share a numeral. |
| Decimal.NumeralLength | src/transactions/scripts.ts:32 | A number below ten to the k prints in at most k digits, so every safe integer passes the length check. |
| Coordinator.LuaRefusesPercent | src/transactions/scripts.ts:27-29 | The two layers agree on a reference exactly when it holds no `%`. |
| Coordinator.TimestampReads | src/transactions/scripts.ts:31-37 | Every printed time is read back. |
| Coordinator.TableMeaning | src/transactions/scripts.ts:38-55 | A table validates and means a record exactly when it is the table of that record. |
| Coordinator.ValidFits | src/transactions/scripts.ts:56-61 | No valid record exceeds the size limit, the doubled `/` of the JSON text included. |
| Coordinator.RespondKeepsValid | src/transactions/scripts.ts:62-140 | Whatever is stored is valid. |
| Coordinator.PersistReady | src/transactions/scripts.ts:92-98 | A valid record always passes the checks before the write. |
| Coordinator.OwnedTables | src/transactions/scripts.ts:128-137 | The fields that renew and complete rewrite are those by which the records differ. |
| Coordinator.OperationKey.Persist | src/transactions/scripts.ts:92-98 | Writes the record with its lifetime, or nothing when the lifetime is out of range. |
| Coordinator.OperationKey.Execute | src/transactions/scripts.ts:62-140 | The whole script: cell and answer are those of the state machine on what the cell means. |
| Coordinator.OperationKey.Decide | src/transactions/scripts.ts:100-140 | The commands on a record known to be this operation's. |
| Coordinator.OperationKey.RetainedDeadline | src/transactions/scripts.ts:86-88 | The later of the requested and the stored retention. |
| Coordinator.OperationKey.Open | src/transactions/scripts.ts:111-126 | `begin` on a record that is not completed. |
| Coordinator.OperationKey.Advance | src/transactions/scripts.ts:127-140 | `renew` and `complete` on a record that is not completed. |
| OperationProtocol.StoredIsValid | src/transactions/scripts.ts:38-61 | Over every command sequence each stored record is valid. |
| OperationProtocol.ScriptRefines | src/transactions/scripts.ts:62-140 | On a table of strings the script answers and stores what the state machine over records says. |
| OperationProtocol.CellsFollowRecords | src/transactions/scripts.ts:74-98 | Over every run the cell is the encoding of the record, with its retention as expiry, and the answers agree. |
| OperationProtocol.PersistNeverFails | src/transactions/scripts.ts:92-98 | No record is ever found invalid, and a lifetime complaint is always about the arguments. |
| OperationProtocol.RetentionBound | src/transactions/scripts.ts:86-88 | No record is retained longer than the longest retention from now. |
| OperationProtocol.RetainedUntilItsEnd | src/transactions/scripts.ts:86-88 | While retention lasts a record stays with its identity, its retention never shrinks, and a completed record does not change. |
| OperationProtocol.ResultIsUnique | src/transactions/scripts.ts:106-110 | Until the retention ends all completed answers carry one result reference. |
| OperationProtocol.NoGrantAfterCompletion | src/transactions/scripts.ts:106-110 | Until then nobody is granted the operation again. |
| OperationProtocol.LastLeaseEnded | src/transactions/scripts.ts:111-126 | The last lease of one owner has ended when another owner is granted one, for every command sequence. |
| OperationProtocol.LeasesAreDisjoint | src/transactions/scripts.ts:111-134 | Leases of different owners never overlap when an owner always asks for the same length. |
| OperationProtocol.DisjointIff | src/transactions/scripts.ts:111-133 | An owner's leases stay clear of everybody else's, whatever follows each of its grants while it is silent, exactly when none of its renewals ends before an earlier grant. |
| OperationProtocol.PromiseKeptIff | src/transactions/scripts.ts:111-133 | One promise outlasts every such continuation exactly when the owner's latest grant does not end before it. |
| OperationProtocol.PromiseOutlasts | src/transactions/scripts.ts:111-126 | While its owner is silent nobody else is granted the operation before its latest grant ends, in any continuation. |
| OperationProtocol.RivalIsGranted | src/transactions/scripts.ts:111-126 | At that end a begin by anybody else is granted, unless the clock would leave the safe integers. |
| OperationProtocol.RenewalLasts | src/transactions/scripts.ts:128-133 | How long a renewal lasts is what its owner asked for, so the condition is on lengths the caller chose. |
| OperationProtocol.OverlapMeansShortened | src/transactions/scripts.ts:128-133 | In a given run leases overlap only after the owner's own renewal cut an earlier promise short. |
| OperationProtocol.ShortenedLeaseOverlaps | src/transactions/scripts.ts:111-133 | The least run in which they do. |
| OperationProtocol.PendingWasGranted | src/transactions/scripts.ts:118-133 | A pending record names the owner granted last and when that lease ends. |
| OperationProtocol.AcceptedWithinLease | src/transactions/scripts.ts:127-140 | A renewal or first completion is accepted only within the owner's own last lease. |
| OperationProtocol.ExpiredOwnerReturnsIff | src/transactions/scripts.ts:116-117 | An expired owner that begins again gets the record exactly when its retention is over or another owner took it and expired too. |
| OperationProtocol.ExpiredOwnerMayReturn | src/transactions/scripts.ts:111-126 | The run that shows it: one owner, another, and the first again. |
| OperationProtocol.DurationReads | src/transactions/operationStore.ts:88-96 | The client reads back every duration in range and rejects the others. |
| OperationProtocol.ReplyShape | src/transactions/scripts.ts:100-140 | Which answers each command may get, and what they carry. |
| OperationProtocol.RepliesDecode | src/transactions/operationStore.ts:283-373 | The four decoders read every answer to their own command back, except one that reports a lease longer than the client's own. |
| OperationProtocol.UniformLeasesDecode | src/transactions/operationStore.ts:283-373 | With one lease length for all clients no answer is ever rejected. |
| OperationLease.PassingMeansOwning | src/transactions/operationStore.ts:396-457 | With a `startedAt` from before the request, a check that would still pass 999 microseconds later means the operation is this owner's on the server. |
| OperationLease.AlignedPassingMeansOwning | src/transactions/operationStore.ts:396-457 | The margin is not needed when deadlines were counted from the start of the server's millisecond or earlier. |
| OperationLease.OnePasses | src/transactions/operationStore.ts:424-427 | So at most one client passes at any instant. |
| OperationLease.OverlapIff | src/transactions/operationStore.ts:402-403 | At the end of a lease another owner is granted the operation while the first check still passes, exactly when `startedAt` is past the start of the server's millisecond. |
| OperationLease.UndatedDeadlineOverruns | src/transactions/operationStore.ts:402 | Counted from the arrival of the answer, the check passes as long after the end of the lease as the answer was under way. |
| OperationLease.ServeKeepsPromise | src/transactions/scripts.ts:111-140 | No command takes a lease from an owner it was promised to. |
| OperationLease.StepKeeps | src/transactions/operationStore.ts:396-457 | Every step of clients, script and clock keeps the invariant behind these. |
| OperationLease.Controller.constructor | src/transactions/operationStore.ts:402-405 | The first deadline; a deadline already past is a loss. |
| OperationLease.Controller.Lose | src/transactions/operationStore.ts:417-423 | The first loss stops the controller. |
| OperationLease.Controller.AssertLive | src/transactions/operationStore.ts:424-427 | Returns exactly while the deadline is ahead and no loss was seen. |
| OperationLease.Controller.OnRenewed | src/transactions/operationStore.ts:437-450 | Counts the reported remainder from the request; a late, short or other answer loses the lease. |
| ByteLedger.AlwaysBalanced | src/cache/memoryBudget.ts:72-83 | In every interleaving of any number of holders each category is the sum of their counters, no holder's counter exceeds its category, and use never exceeds the hard cap. |
| ByteLedger.NextBalanced | src/cache/memoryBudget.ts:72-83 | One holder's move, a new holder or a new target keeps the balance. |
| ByteLedger.HolderIsCovered | src/cache/memoryBudget.ts:77-83 | A balanced ledger covers every holder, so no release is clamped. |
| ByteLedger.SettledMeansEmpty | src/cache/memoryBudget.ts:77-83 | When every holder has given its bytes back nothing is accounted. |
| ByteLedger.TargetRecovers | src/cache/memoryBudget.ts:97 | After the recovery window every calm sample raises the target by one step, up to the hard cap. |
| ByteLedger.TargetStaysInRange | src/cache/memoryBudget.ts:95-97 | The target stays between the minimum and the hard cap, and a critical sample never raises it. |
| ByteLedger.MemoryBudget.TryReserve | src/cache/memoryBudget.ts:72-76 | Reserves exactly when the bytes fit under the target; one category grows. |
| ByteLedger.MemoryBudget.Release | src/cache/memoryBudget.ts:77-83 | One category shrinks, clamped at what it holds. |
| ByteLedger.MemoryBudget.Sample | src/cache/memoryBudget.ts:84-97 | Target, state and the two instants move as the pressure rules say. |
| CacheLedger.HybridCache.RememberStale | src/cache/hybridCache.ts:1404-1435 | The old copy goes; the new one is kept exactly when it fits its own limits and the ledger, and then the oldest copies beyond the limits go. The ledger moves by the same bytes. |
| CacheLedger.HybridCache.RemoveStale | src/cache/hybridCache.ts:1458-1465 | One key's copy and bytes go. |
| CacheLedger.HybridCache.TrimStale | src/cache/hybridCache.ts:1430-1434 | The loop drops the oldest copies until both limits hold. |
| CacheLedger.HybridCache.ClearStale | src/cache/hybridCache.ts:1467-1471 | All copies and their bytes go. |
| CacheLedger.HybridCache.EvictOneStale | src/cache/hybridCache.ts:1473-1478 | The oldest copy goes, if there is one. |
| CacheLedger.TrimIsLeast | src/cache/hybridCache.ts:1430-1434 | Nothing is dropped in vain: every longer tail breaks a limit. |
| CacheLedger.TrimIsTail | src/cache/hybridCache.ts:1430-1434 | What is left are the newest entries, in their order. |
| CacheLedger.TrimKeepsLast | src/cache/hybridCache.ts:1430-1434 | The copy just added survives the trimming. |
| InflightLoads.CounterIsSumIff | src/cache/hybridCache.ts:652-687 | In every run of looks, prunings, completions, removals and clears the counter is the sum of the tracked loads exactly when no load since the last clear was tracked over an entry that expired between the two clock readings. |
| InflightLoads.CounterIsSumPlus | src/cache/hybridCache.ts:652-687 | The excess is exact: the bytes of the entries so tracked over since the last clear. |
| InflightLoads.OneReadingIsExact | src/cache/hybridCache.ts:1354-1362 | With one reading of the clock there is never an excess. |
| InflightLoads.ReplacedStaysCounted | src/cache/hybridCache.ts:652-687 | The least run: two loads of one key, after which nothing is tracked and the first load's bytes are still counted. |
| InflightLoads.NextKeeps | src/cache/hybridCache.ts:652-687 | Every step keeps one entry per key and moves the excess by what is tracked over. |
| CacheLedger.HybridCache.LookInflight | src/cache/hybridCache.ts:652-687 | From the second look to the registration: a load is pruned at the first reading, joined if it has not expired at the second, and otherwise tracked or passed by, as in the runs. |
| CacheLedger.HybridCache.StartInflight | src/cache/hybridCache.ts:1285-1298 | A load is tracked exactly when the entry, byte and ledger limits admit it, in place of an entry of its key that is there. |
| CacheLedger.HybridCache.PruneInflight | src/cache/hybridCache.ts:1358-1362 | A load goes exactly when it has expired. |
| CacheLedger.HybridCache.CompleteInflight | src/cache/hybridCache.ts:673-677 | A settled load takes its own entry and no later one. |
| CacheLedger.HybridCache.RemoveInflight | src/cache/hybridCache.ts:1317-1323 | One load and its bytes go. |
| CacheLedger.HybridCache.ClearInflight | src/cache/hybridCache.ts:1325-1329 | All loads and all counted bytes go, an excess included. |
| CacheLedger.HybridCache.JoinInflight | src/cache/hybridCache.ts:1300-1308 | A follower joins exactly when the waiter limit and the ledger admit it. |
| CacheLedger.HybridCache.LeaveInflight | src/cache/hybridCache.ts:1310-1314 | A follower gives its bytes back. |
| CacheLedger.HybridCache.RetainCommand | src/cache/hybridCache.ts:1235-1246 | A command's bytes are reserved exactly when they fit. |
| CacheLedger.HybridCache.ReleaseCommand | src/cache/hybridCache.ts:1238-1258 | The settled command's reservation goes, the others stay. |
| CacheLedger.HybridCache.SetNegative | src/cache/hybridCache.ts:1605-1646 | Which absences remain, in order, and whether the key is among them, from the limits and what the ledger leaves. |
| CacheLedger.HybridCache.AddNegative | src/cache/hybridCache.ts:1634-1645 | The old entry goes, the oldest make room for the key's bytes, and the ledger decides. |
| CacheLedger.HybridCache.RemoveNegative | src/cache/hybridCache.ts:1648-1654 | One absence and its bytes go. |
| CacheLedger.HybridCache.StoreGeneration | src/cache/hybridCache.ts:1693-1705 | Stored exactly when safe and known, or within the count, byte and ledger limits; a refusal changes no generation and saturates the tracking. |
| CacheLedger.HybridCache.SaturateGenerationTracking | src/cache/hybridCache.ts:1707-1721 | The first saturation drops loads, absences and stale copies; later ones do nothing. |
| CacheLedger.HybridCache.MarkEventSeen | src/cache/hybridCache.ts:1826-1842 | Which event ids remain, in order, and whether the new one is kept. |
| CacheLedger.HybridCache.RemoveSeenEvent | src/cache/hybridCache.ts:1844-1849 | One event id and its bytes go. |
| CacheLedger.HybridCache.ObserveKey | src/cache/hybridCache.ts:1733-1745 | A new record is listed exactly when it can be paid for; the guard's record is counted, the others are untouched. |
| CacheLedger.HybridCache.ReleaseKey | src/cache/hybridCache.ts:1747-1755 | The last guard of a listed record gives its bytes back, once. |
| CacheLedger.HybridCache.CloseResources | src/cache/hybridCache.ts:435-460 | After the close the origin gate is closed, its waiters' bytes included in what is given back, and the cache holds only the bytes of commands and followers still out. |
| CacheLedger.HybridCache.AcquireOrigin | src/cache/hybridCache.ts:792-799 | A load starts, waits with its bytes on the cache's ledger, or is turned away; the cache's share moves with the ledger. |
| CacheLedger.HybridCache.ReleaseOrigin | src/cache/originLoadGate.ts:101-119 | The freed slot goes to the first waiter, whose bytes leave the cache's share. |
| CacheLedger.HybridCache.LeaveOrigin | src/cache/originLoadGate.ts:69-84 | A waiting load that gives up takes its bytes out of the cache's share. |
| CacheLedger.HybridCache.SettledShare | src/cache/hybridCache.ts:435-460 | A closed cache whose tasks settled holds the bytes of its generations and nothing else, waiting origin loads included; which generations those can be is in ReceivedDelete. |
| CacheLedger.HybridCache.DeleteLocalOnly | src/cache/hybridCache.ts:1127-1137 | A received delete forgets the key in the three maps, stores exactly the next generation or saturates, and holds a guard while every other guard stays held; closed or not. |
| CacheLedger.HybridCache.ForgetHints | src/cache/hybridCache.ts:1130-1132 | Load, absence and stale copy of one key go, with their bytes. |
| ReceivedDelete.EmptyIff | src/cache/hybridCache.ts:1914-1943 | In every run a closed cache holds no generation exactly when no received delete that went on after the close was admitted by the limits and the ledger; each that went on was, at the close, in the regression branch or at a canonical numeric key of an untyped event. |
| ReceivedDelete.EmptyIffNoneExposed | src/cache/hybridCache.ts:1914-1943 | With room for each of them and none failing, nothing is left exactly when no delete was at such a place at the close. |
| ReceivedDelete.NothingExposedNothingLeft | src/cache/hybridCache.ts:1918 | With none at such a place nothing is stored after the close, whatever follows, ordinary deletes of later keys included. |
| ReceivedDelete.LateStores | src/cache/hybridCache.ts:1693-1705 | A delete that goes on in a closed cache stores a first generation exactly when it is past its last look at `closed` and the limits and the ledger admit it. |
| ReceivedDelete.AliasOutlivesClose | src/cache/hybridCache.ts:1936-1941 | The run through the loop for every canonical numeric key: the cache closes while the text is deleted, and the number's generation stays. |
| ReceivedDelete.RegressionOutlivesClose | src/cache/hybridCache.ts:1922-1936 | The run through the regression branch of a versioned cache, for every key. |
| ReceivedDelete.SettledShareIff | src/cache/hybridCache.ts:435-460 | The same for the bytes: the share of a closed cache whose tasks settled is zero exactly when no such delete went on and was admitted. |
| ReceivedDelete.RemoteDelete.Forget | src/cache/hybridCache.ts:1127-1137 | One key is forgotten in the cache as in the run, with the ledger's own answer. |
| ReceivedDelete.RemoteDelete.Loop | src/cache/hybridCache.ts:1917-1936 | From the look at `closed` to the next await: the end, the regression's flush, or the delete of one key. |
| ReceivedDelete.RemoteDelete.Continue | src/cache/hybridCache.ts:1929-1941 | What follows each await: the delete after the flush, the released guard, the number's delete, the next key. |
| CacheLedger.EvictTurn | src/cache/memoryBudget.ts:105 | One turn takes one client's oldest copy and its bytes, and nothing else from anybody. |
| CacheLedger.EvictBounded | src/cache/memoryBudget.ts:105 | The clients take turns until use is within the target or the turns run out, and not one turn more; the eviction count is exact. |
| MemoryStore.ReadIsLatestOrMiss | src/cache/memoryStore.ts:53-134 | After any run a read is a miss or the bytes of the key's latest set that did not throw, within its lifetime, with nothing having removed the key since; never more than maxEntries entries. |
| MemoryStore.LiveIsLatest | src/cache/memoryStore.ts:81-134 | A live entry is what the key's latest set stored. |
| MemoryStore.StoredIsReadable | src/cache/memoryStore.ts:81-118 | What was stored is there at once. |
| MemoryStore.NextKeepsShape | src/cache/memoryStore.ts:53-62 | Every event keeps one entry per key and the count limit. |
| MemoryStore.NextKeepsEntry | src/cache/memoryStore.ts:81-175 | An entry present after an event was set by it, or was there before unchanged and the event does not remove it. |
| MemoryStore.StoredIff | src/cache/memoryStore.ts:99-105 | A write not refused outright succeeds exactly when popping up to sixteen of the other entries makes room. |
| MemoryStore.PopsForIsLeast | src/cache/memoryStore.ts:101-104 | No entry is popped in vain. |
| MemoryStore.RecordedAt | src/cache/memoryStore.ts:237-244 | A use counts once, up to 255; when cells decay, exactly the eight that follow the cursor are halved. |
| MemoryStore.MemoryStore.constructor | src/cache/memoryStore.ts:37-65 | An empty store that holds its history's bytes if the ledger gave them. |
| MemoryStore.MemoryStore.SetEncoded | src/cache/memoryStore.ts:81-118 | Which of the four outcomes a write has, from the entries, the limits, the ledger and the admission verdict; the entries after it; the ledger moves with the byte counter. |
| MemoryStore.MemoryStore.GetEncoded | src/cache/memoryStore.ts:129-134 | A hit moves to the most recent place, an expired entry goes, and the use is recorded. |
| MemoryStore.MemoryStore.Record | src/cache/memoryStore.ts:237-244 | The whole new history, counter and cursor. |
| MemoryStore.MemoryStore.WorthAdmitting | src/cache/memoryStore.ts:245-265 | A key is worth a place exactly when the store is empty or one of the eight least recently used entries has expired or is used no more often for its size. |
| MemoryStore.MemoryStore.ReserveByPopping | src/cache/memoryStore.ts:100-104 | Pops the least number of entries, at most sixteen, that makes the reservation succeed. |
| MemoryStore.MemoryStore.DropAndReserve | src/cache/memoryStore.ts:99-104 | The old entry goes before room is made. |
| MemoryStore.MemoryStore.Insert | src/cache/memoryStore.ts:53-62 | The entry joins as the most recent; the oldest beyond the count limit are disposed of. |
| MemoryStore.MemoryStore.PopOldest | src/cache/memoryStore.ts:64 | What the ledger calls under pressure: the least recently used entry and its bytes go. |
| MemoryStore.MemoryStore.Delete | src/cache/memoryStore.ts:154 | One key's entry and bytes go. |
| MemoryStore.MemoryStore.Clear | src/cache/memoryStore.ts:159 | Every entry and all their bytes go. |
| MemoryStore.MemoryStore.Close | src/cache/memoryStore.ts:168-177 | After the close nothing of the store is left in the ledger; a second close does nothing. |
| MemoryStore.CloudflareWorkerMemoryStore.GetValue | src/cloudflare/index.ts:160-168 | The Worker's L1 answers and reorders like the same model. |
| MemoryStore.CloudflareWorkerMemoryStore.SetValue | src/cloudflare/index.ts:169-176 | The value becomes the most recent; the oldest beyond the limit go. |
| MemoryStore.CloudflareWorkerMemoryStore.DeleteByPattern | src/cloudflare/index.ts:178-180 | Exactly the matching keys go. |
| EventEncoding.EncodeBoundedEvent | src/observability/eventEncoding.ts:11-93 | Returns the JSON text exactly when the value is plain data whose text, depth and node count are within the limits; the last recheck never rejects. |
| EventEncoding.CostIsExact | src/observability/eventEncoding.ts:11-93 | The running counter is the exact UTF-8 length of the text of section 25.5.2 of ECMA-262, and the node and depth counts are those of the tree. |
| EventEncoding.QuotedLength | src/observability/eventEncoding.ts:19-34 | The count of a quoted string is exact, escapes and surrogates included. |
| EventEncoding.FitsIffEncodable | src/observability/eventEncoding.ts:35-92 | Counting from nothing succeeds exactly on encodable values. |
| EventEncoding.Encoder.Reserve | src/observability/eventEncoding.ts:15-18 | Adds the size and compares with the limit. |
| EventEncoding.Encoder.CountString | src/observability/eventEncoding.ts:19-34 | Succeeds exactly when the quoted text fits in what is left. |
| EventEncoding.Encoder.Snapshot | src/observability/eventEncoding.ts:35-86 | Rejects exactly when the value does not fit in what is left of bytes, nodes and depth. |
| EventEncoding.Encoder.SnapshotItems | src/observability/eventEncoding.ts:54-65 | The same for the elements of an array, commas included. |
| EventEncoding.Encoder.SnapshotFields | src/observability/eventEncoding.ts:66-82 | The same for the fields of an object, names, colons and commas included. |
| Utf16.ByteLengthIsExact | src/observability/eventEncoding.ts:89 | The arithmetic of `Buffer.byteLength` is the length of the UTF-8 of the text, a lone surrogate counting as U+FFFD. |
| Utf16.ByteLengthConcat | src/observability/eventEncoding.ts:19-34 | Texts that split no surrogate pair may be measured apart. |
| RedisKeys.ParseInvertsBuild | src/cache/redisStore.ts:773-797 | Parsing returns kind and key of every built key, whatever the prefix and the key. |
| RedisKeys.ParsedWasBuilt | src/cache/redisStore.ts:773-797 | Nothing else parses. |
| RedisKeys.DataIsNotLock | src/cache/redisStore.ts:733-761 | Within a store a data key is never a lock key. |
| RedisKeys.TagDeterminesKey | src/cache/redisStore.ts:820-831 | The slot tag determines the key, except that the empty key and `_` share one. |
| RedisKeys.BuildInjective | src/cache/redisStore.ts:733-761 | On keys that are not empty, prefix, kind and key are determined when neither prefix is the other plus `__lock:`. |
| RedisKeys.CollisionIff | src/cache/redisStore.ts:733-761 | Two stores meet on keys that are not empty exactly when the keys agree and one prefix with its mark spells the other. |
| RedisKeys.EmptyKeyCollides | src/cache/redisStore.ts:822 | The exception: the empty key meets `_` in the store whose prefix is one `_` shorter. |
| RedisKeys.SameSlot | src/cache/redisStore.ts:818-831 | A key's data and lock hash to one slot, whatever braces prefix and key hold. |
| RedisKeys.WireParses | src/cache/redisStore.ts:773-797 | A key that a scan lists is recognised exactly when it holds no unpaired surrogate. |
| RedisKeys.PctEncodeInjective | src/cache/redisStore.ts:822 | Percent-encoding (section 2.1 of RFC 3986) loses nothing. |
| RedisKeys.Base64Injective | src/cache/redisStore.ts:829 | The fallback tag loses nothing. |
| RetryQueue.QueueIsBounded | src/event-bus/retryQueue.ts:38-155 | Over every interleaving bytes are the queued sum and within maxBytes, size is within maxSize + 1, the publication under way is of the oldest entry, and successes are a subsequence of the accepted events, each once. |
| RetryQueue.DrainDeliversAll | src/event-bus/retryQueue.ts:115-130 | A flush with nothing going wrong publishes the whole backlog, oldest first, and stops. |
| RetryQueue.NextKeeps | src/event-bus/retryQueue.ts:38-155 | Every step keeps the invariant behind these. |
| RetryQueue.MakeRoom | src/event-bus/retryQueue.ts:84-89 | Dropping the oldest ends with room for the new entry or with only the active one left. |
| RetryQueue.EventBusRetryQueue.Offer | src/event-bus/retryQueue.ts:38-99 | The queue after an offer, and whether it was accepted. |
| RetryQueue.EventBusRetryQueue.Add | src/event-bus/retryQueue.ts:71-98 | An event that fits by itself: room by count, room by bytes, then in or dropped. |
| RetryQueue.EventBusRetryQueue.MakeRoomFor | src/event-bus/retryQueue.ts:84-89 | The eviction loop does what the function says. |
| RetryQueue.EventBusRetryQueue.RemoveOldestWaiting | src/event-bus/retryQueue.ts:136-143 | The oldest entry that is not being published goes. |
| RetryQueue.EventBusRetryQueue.StartFlush | src/event-bus/retryQueue.ts:101-113 | A flush that runs is joined, not started again. |
| RetryQueue.EventBusRetryQueue.BeginNext | src/event-bus/retryQueue.ts:116-118 | The oldest entry becomes the active one, or the flush ends. |
| RetryQueue.EventBusRetryQueue.Settle | src/event-bus/retryQueue.ts:120-128 | A published or undecodable entry leaves with its bytes. |
| RetryQueue.EventBusRetryQueue.Fail | src/event-bus/retryQueue.ts:125-128 | A failed entry rejoins the backlog unless it was cleared meanwhile. |
| RetryQueue.EventBusRetryQueue.ClearAll | src/event-bus/retryQueue.ts:145-155 | All go but the active entry, whose bytes stay until it settles. |
| Semaphore.SemaphoreIsBoundedAndFair | src/transactions/redisTransport.ts:293-423 | In every run at most `limit` are active; while open a waiter exists only if every slot is busy; starts are in arrival order; everybody who arrived waits or has settled, not both. |
| Semaphore.SettledOnce | src/transactions/redisTransport.ts:360-384 | A fate, once known, never changes: each waiter settles once across pump, timeout, abort and close. |
| Semaphore.ClosedForGood | src/transactions/redisTransport.ts:360-370 | After the close nobody waits and nobody starts. |
| Semaphore.NextKeeps | src/transactions/redisTransport.ts:293-423 | Every step keeps the invariant behind these. |
| Semaphore.RefillKeeps | src/transactions/redisTransport.ts:407-423 | Filling free slots, passing over waiters whose deadline went by, restores the invariant. |
| Semaphore.ArriveKeeps | src/transactions/redisTransport.ts:298-343 | An arrival that starts, waits or is refused keeps it. |
| Semaphore.LeaveKeeps | src/transactions/redisTransport.ts:331-384 | A timeout or abort settles a waiter once; of one that settled before it changes nothing. |
| Semaphore.DiscardKeeps | src/event-bus/handlerQueue.ts:110-124 | Discarding all waiters, with or without closing, keeps it. |
| Gates.BoundedOperationGate.Run | src/transactions/redisTransport.ts:293-344 | Admitted, queued or refused as the semaphore says; byte counters stay the sums. |
| Gates.BoundedOperationGate.Enter | src/transactions/redisTransport.ts:307-343 | The same, once the gate is known to be open. |
| Gates.BoundedOperationGate.Start | src/transactions/redisTransport.ts:386-388 | One more is active, with its bytes. |
| Gates.BoundedOperationGate.Pump | src/transactions/redisTransport.ts:407-423 | The loop fills free slots in order and settles waiters whose deadline went by. |
| Gates.BoundedOperationGate.Completed | src/transactions/redisTransport.ts:398-403 | A completion frees its slot and bytes and lets waiters start. |
| Gates.BoundedOperationGate.LeaveQueue | src/transactions/redisTransport.ts:376-384 | A timer or signal takes its waiter out, wherever it stands. |
| Gates.BoundedOperationGate.CloseGate | src/transactions/redisTransport.ts:360-370 | Every waiter is rejected once; a second close does nothing. |
| Gates.L2OperationGate.Run | src/cache/l2OperationGate.ts:44-53 | Refines the same semaphore's arrival. |
| Gates.L2OperationGate.Start | src/cache/l2OperationGate.ts:56-58 | One more is active, with its bytes. |
| Gates.L2OperationGate.Pump | src/cache/l2OperationGate.ts:67 | At most one waiter starts. |
| Gates.L2OperationGate.Completed | src/cache/l2OperationGate.ts:64-67 | One waiter per completion is enough to refine the semaphore. |
| Gates.L2OperationGate.TimerFired | src/cache/l2OperationGate.ts:50 | A timer takes its waiter out, once. |
| Gates.L2OperationGate.CloseGate | src/cache/l2OperationGate.ts:55 | Every waiter is rejected once. |
| OriginGate.OriginLoadGate.Acquire | src/cache/originLoadGate.ts:50-87 | Refines the arrival, a waiter's bytes being reserved on the ledger or the caller refused; an aborted caller is turned away first. |
| OriginGate.OriginLoadGate.Enter | src/cache/originLoadGate.ts:53-86 | The same, once the gate is known to be open and the caller not aborted. |
| OriginGate.OriginLoadGate.HandOn | src/cache/originLoadGate.ts:110-118 | The first waiter starts, its bytes leave gate and ledger; without one the slot stays free. |
| OriginGate.OriginLoadGate.Release | src/cache/originLoadGate.ts:101-119 | The first call hands the slot to the next waiter, whose bytes go back to the ledger; later calls do nothing. |
| OriginGate.OriginLoadGate.LeaveQueue | src/cache/originLoadGate.ts:69-84 | A timer or signal takes its waiter and its bytes out, once. |
| OriginGate.OriginLoadGate.CloseGate | src/cache/originLoadGate.ts:95-99 | Every waiter is rejected once and nothing of the gate stays in the ledger. |
| Gates.EventBusHandlerQueue.EnqueueItem | src/event-bus/handlerQueue.ts:56-75 | Accepted exactly when open and within the count and byte limits; refines the arrival. |
| Gates.EventBusHandlerQueue.Drain | src/event-bus/handlerQueue.ts:77-91 | The loop starts waiters in order while slots are free. |
| Gates.EventBusHandlerQueue.Completed | src/event-bus/handlerQueue.ts:99-102 | A settled handler frees its slot and bytes and drains. |
| Gates.EventBusHandlerQueue.CloseQueue | src/event-bus/handlerQueue.ts:110-116 | Every waiting delivery settles once with the error. |
| Gates.EventBusHandlerQueue.DiscardPending | src/event-bus/handlerQueue.ts:119-124 | The same after a transport gap; the queue stays open. |
| Codec.RoundTrip | src/utils/serializer.ts:252-356 | For every value and policy, within limits, strict decoding of an encoding is a hit with that value, undefined as null. |
| Codec.NullIsNotSentinel | src/utils/serializer.ts:257-291 | A cached null and a cached sentinel string are never taken for each other. |
| Codec.ReadersAgreeIff | src/utils/serializer.ts:452-487 | On HC1M, HC1G and HC1J, gzip bodies being expanded alike, the Node and Worker readers agree exactly when the record is not acceptable JSON behind a byte order mark. |
| Codec.PortableRoundTrip | src/utils/portableSerializer.ts:34-103 | What a Worker writes, both readers read back, whether or not the two platforms gzip alike. |
| Codec.PortableWritesAgree | src/utils/portableSerializer.ts:34-61 | A Worker writes what Node writes under the portable policy where the two gzip alike, unless the compressed form outgrows the platform's limit. |
| Codec.LegacyIsNotTagged | src/utils/serializer.ts:476-482 | No MessagePack record the validator accepts begins with `HC1` or is taken for a tagged one. |
| Codec.JsonIsNotTagged | src/utils/serializer.ts:476-485 | Nor does any JSON text. |
| Codec.LegacyIsRead | src/utils/serializer.ts:479-482 | Every accepted record of an earlier release is read as such. |
| Codec.MaskedTagIsRead | src/utils/serializer.ts:458-471 | The top bits of a tag make no difference to the Node reader and all to the Worker's. |
| Codec.SentinelIsAcceptable | src/utils/serializer.ts:176-178 | The packed sentinel passes the validator exactly when it fits the size limit. |
| Codec.PackedSentinelIsUnique | src/utils/serializer.ts:464 | Only the sentinel string packs to the packed sentinel. |
| Codec.DecodeCacheRecord | src/utils/serializer.ts:452-487 | The branches of the Node reader decide as the dispatch on tags and limits says. |
| Codec.DecodePortableCacheRecord | src/utils/portableSerializer.ts:63-103 | The same for the Worker reader. |
| Codec.UnpackIfSafe | src/utils/serializer.ts:441-445 | Nothing the validator refuses reaches the unpacker. |
| Codec.ParseIfSafe | src/utils/serializer.ts:473 | Nothing the scanner or the UTF-8 check refuses reaches the JSON parser. |
| Codec.CheckThenUnpack | src/utils/portableSerializer.ts:73-88 | The same in the Worker. |
| Codec.HasWireTag | src/utils/serializerPolicy.ts:68-74 | True exactly when the record starts with the tag. |
| Codec.SameBytes | src/utils/serializerPolicy.ts:90-96 | True exactly when the octets are equal. |
| Codec.WithWireTag | src/utils/serializerPolicy.ts:82-88 | The tag, then the body. |
| Codec.Transform | src/utils/portableSerializer.ts:105-132 | The joined chunks, or a failure exactly when they exceed the limit, however the stream cuts them. |

## Left out

- Connections, reconnection timers, HTTP handlers, dashboards, metrics and option validation: they would add only easy members or cannot be seen.
- Redis: a map with expiry whose scripts run atomically; a cell counts as gone from its expiry on. Server failures, script registration, the shared index, legacy (v1) keys, the size cut of the snapshot script and a server's limit on the stars of a pattern are not modelled; what bracket expressions mean is a parameter.
- `lru-cache`: entries from least to most recently used, each with a lifetime in whole milliseconds, expired from its expiry on; its tracking of sizes and timers is not modelled.
- The packer, JSON, gzip, zstd, lz4, snappy: functions with inverse laws, gzip one per platform; their formats are not modelled, except that what the packer writes passes the validator. Whether both platforms expand a foreign gzip body alike is a hypothesis of Codec.ReadersAgreeIff.
- Regular-expression, floating-point and locale details: ratios such as 0.7, 0.05 and 0.15 are exact fractions, the load average is in hundredths, sizes are integers.
- Generation-versioned storage keys and L1 stores other than the built-in one, whose order of commits is unknown.
- The order of L2 effects: the claims are about L1, stale and negative entries, and about what the server stores under the lock scripts.
- CacheGuards.NoObsoleteEntry: a read that starts while a delete's L2 command is pending may install the old value again; the claim is over observation times, so it admits this.
- WorkerGuards.NoObsoleteEntry: one facade per L1.
- Objects shared by reference (revision records) are named by their position in an arena; that two keys never share a record is then an invariant, not a typing fact.
- CacheLedger.HybridCache.ObserveKey: counts references and bytes only; values and epochs are in CacheGuards.
- CacheLedger.EvictBounded: its clients are caches with stale copies; encoded stores take the same turns with `MemoryStore.MemoryStore.PopOldest`. Clients do not come and go during a sweep.
- MemoryStore.MemoryStore.Record: the hash of a key is a parameter.
- MemoryStore.MemoryStore.SetEncoded: an allocation that fails after the reservation, and the counters of admissions and rejections, are not modelled.
- The expiry checks of `getStale`, `hasNegative` and `hasSeenEvent` are evictions at arbitrary times in CacheGuards and removals of one key in CacheLedger.
- A cache without a memory budget: every cache here has one.
- FencedLease.PublishAfterLastMutation: requires that no token is granted a key's lease twice, as random tokens do.
- FencedLease.RedisStore.DeleteByPattern: the scan sees the keys of one moment; commands between two of its batches are not interleaved in the method, but each delete is a command of a run.
- OperationProtocol.LeasesAreDisjoint: one length per owner; for leases of varying length the exact condition is OperationProtocol.DisjointIff.
- OperationProtocol.DisjointIff: for grants whose retention the clock can still add at their end without leaving the safe integers; past that the script refuses every begin.
- OperationLease.PassingMeansOwning: needs the margin of 999 microseconds, as OperationLease.OverlapIff shows.
- JsonScan.IsSafeJson: on octets that are no RFC 8259 text the contract says only what the bracket scanner does; the JSON parser behind it decides those.
- EventEncoding.EncodeBoundedEvent: getters, proxies, symbols and other exotic objects are one rejected kind of value; numbers come with their printed text.
- Gates.BoundedOperationGate.Run: sizes are integers and the deadline is given; the caller-facing timeout of a started operation settles its promise only and is not modelled.
- ReceivedDelete.EmptyIff: how `Number` prints a text and whether it is finite are parameters; the other callers of `storeGeneration` ask `closed` in the same step and are one step of the runs.
- LocalLease.PassingMeansHolding: clocks are whole milliseconds on both sides, so an overrun below a millisecond, from `Date.now` or from the server's own truncation, is not seen; OperationLease has microseconds.
- Callbacks that re-enter an object in the middle of a step.
