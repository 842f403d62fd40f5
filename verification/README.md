# bit-relay: a verified model of its protocols

This project models the stateful core of the bit-relay repository in Dafny and proves what that core is for.

**The multi-relay cache exchange.** Each relay keeps rooms (bounded lists of envelopes, one per id) and a bounded log of
what it accepted, numbered by a cursor. A worker pulls each peer's log from a cursor of its own and pushes what it got
into its relay. Loop control is spread over a peer filter, an origin check, a hop count, dedupe and cursors.
`CacheExchange`, `RelayService` and `CacheSyncWorker` model the three source files in their own form (pure rules, and
classes with loops); `RelayNetwork` runs any number of relays as a transition system with eviction, denied rooms,
unreachable peers and lost answers. A worker's turn is cut at its awaits: its pull, each entry of its push, and the
answer are steps of their own, and anything may happen in between. Proved: pages of a log miss and repeat nothing; every
record in every reachable network is one its origin published and carries as many hops as it made (`RelayNetwork`);
without new publishes only finitely many turns move a cursor (`Quiescence`), provided no push fails partway (`Restless`
shows why); a full mesh that has caught up holds the same ids everywhere (`Convergence`); pushing a batch sharded by
room means the same as pushing it whole (`ShardedPush`); and exactly which envelopes with one id pass for duplicates
(`Collisions`). `RelayOutcomes` and `SyncOutcomes` say, on requests and on what a relay holds, what the handlers and a
round of the worker answer, count and store.

**Unambiguous printing.** `Json` and `CanonicalJson` model JSON values and the canonical printer; two values print the
same exactly when they are equal up to object key order. `JsonReader` is a reader of JSON text written from RFC 8259
alone; canonical text reads back as the value it was printed from.

**The cache stores and the issue index.** `CacheStore` and `R2CacheStore` model the two stores as classes;
`StoreEquivalence` proves that they answer alike over every run, and `StoreOutcomes` that what a get answers is what was
last put. `IssueProjection`, `IssueIndex`, `IssueSync` and `RelayCacheAdapter` model the event log, the per-issue
snapshots and the room cursors written over the store by a task that may fail at each of its writes and is tried again.
Proved: when the snapshots agree with the log after a task, and when an agreement that was lost returns
(`IssueAgreement`); which envelopes overwrite part of the index (`IssueOverwrite`); when paged reading loses nothing
(`IssueSync`); and what out-of-order delivery does (`IssuePolicies`). `JsonFields` and `IssueFields` say, on the fields
of a payload, under which issue an event is filed and with which action, source and time.

**The git serve rendezvous.** `GitServeSession` cuts the asynchronous handlers into the segments between their awaits
and proves, over every interleaving with timers and clean-up, that requests and polls are settled once, that timers
match what is unsettled, and that no wakeup is lost; and when a closed session holds a request. `GitServeOutcomes` says
what each segment sends, and over runs who may poll and what a poll is handed. `PktLine` models the refs found in a push
and the pkt-lines synthesised for it.

**Guards.** `RateLimit`, `NonceWindow` and `IssueSyncEngine` model the publish limits, replay protection, and the
delivery memory with its dead-letter queue; the last two with their handlers cut at the await between check and
record.

`Ordering`, `Sequences`, `Text`, `Arithmetic` and `Options` hold what the others share: sorting by a strict total order,
parts of sequences, decimal text, cutting and trimming, and the code-unit order of strings.

Each imperative method is proved equal to a specification function on values (`State()`, `Contents()` or `View` give
the value of an object's fields), and the theorems are about those functions.

## What the model takes as given

- The clock is read once per operation; it may not go back where a statement says so.
- What runs between two awaits is atomic. The push handler awaits only the cache write after each accepted entry;
  `RelayNetwork` takes each entry as a step.
- Delivery ids are not empty: both callers of the issue sync engine refuse an empty one (src/memory_handler.ts:2019 and
  2105). `IssueSyncEngine.EmptyIdLeaks` says what would happen otherwise.
- `localeCompare` is the lexicographic order by UTF-16 code unit; the bucket lists keys in that order and resumes after
  the last key returned.
- Signatures, keys, hashes and random ids are inputs. `Date.parse` is a function parameter.
- A JSON number is an unbounded decimal in lowest terms, so the rounding `JSON.parse` does is not modelled, and strings
  hold no lone surrogates.
- Objects of the issue index read back as they were written: their JSON encoding is not modelled.

## What turned out to be false

Each has its exact condition, and an input that shows it.

- A line end inside a sender can let two different envelopes pass for duplicates: exactly when one of the senders is
  the other, a line end, and what can follow a sender in the text compared (`Collisions.MisclassifiedIff`). If both
  senders hold equally many line ends it cannot (`Collisions.DuplicateIffAgree`).
- After a task that finally fails, a snapshot can stay behind its log. `IssueAgreement.AgreementAfterTask` says exactly
  when, `IssueAgreement.FailedTaskDisagrees` gives the case, and `IssueAgreement.AttemptHeals` says when the next event
  of the issue makes it good.
- An envelope stored under its own key can overwrite part of the issue index: exactly those of the room called "issue",
  not about an issue, whose id has the form `events/<room>/<cursor>-<id>`, `snapshots/<room>/<issue>` or
  `cursors/<room>` (`IssueOverwrite.HarmlessIffUnreserved`). `IssueOverwrite.PlainKeepsIff` and the lemmas before it say
  what is lost, `IssueAgreement.SnapshotTaken` gives the case.
- Paged reading can lose an event: exactly when the cursors of the room do not sort as text, which cannot happen below
  cursor 10^12 (`IssueSync.SyncCompleteIff`, `IssueSync.SmallCursorsSorted`, `IssueSync.SyncLosesBeyond`).
- Nonces protect against replays exactly when they live as long as the clock may be off, and as long as no nonce is in
  flight twice (`NonceWindow.ReplaySafeIff`, `NonceWindow.AcceptedTogether`).
- A delivery can be published twice in a row: the check for known ids comes before the await of the publication, and
  the record after it. A delivery is in flight twice exactly when it begins while one of its id is
  (`IssueSyncEngine.RunsSingleIff`); then both can be published (`IssueSyncEngine.PublishedTwice`), and otherwise never
  without as many others between as the memory holds (`IssueSyncEngine.PublishedOnce`).
- A closed git session can come to hold a request: exactly when a body arrives while it is closed
  (`GitServeSession.RunsCleanIff`, `GitServeSession.LateBodyIsQueued`).
- A pushed hop count of zero is taken as it stands, so a foreign record can look like a relay's own. A pushed entry can
  do that to some well-formed relay exactly when it can be read, claims no hop, names a valid topic and a valid room that
  is not denied, and comes from another relay (`RelayService.KeepsEveryNodeIff`); to a given relay, exactly when also its
  id is new to its room (`RelayService.PushEntryKeepsNodeOk`). `RelayService.NoHopsAccepted` gives the case.

One bound is sharper than the code suggests: an address, sender or room is admitted at most 2 * max - 1 times in any
interval of one window's length, not 2 * max, and that is reached (`RateLimit.IntervalBound`,
`RateLimit.IntervalBoundTight`).

## Model

| member | source | states |
|---|---|---|
| CanonicalJson.CanonicalUnambiguous | src/signing.ts:64-91 | two values print the same exactly when they are equal up to the order of object keys |
| CanonicalJson.NumberTextInjective | src/signing.ts:71-74 | two finite numbers print the same only if they are equal, across fixed and exponential notation |
| CanonicalJson.EscapePrefixFree | src/signing.ts:68-70 | an escaped character determines the character and where its escape ends |
| CanonicalJson.QuotedPrefixFree | src/signing.ts:68-70 | a printed string determines the string and where it ends |
| CanonicalJson.PrefixFree | src/signing.ts:64-91 | a printed value followed by anything that can follow it in a document determines the value up to key order, and what follows |
| CanonicalJson.SameText | src/signing.ts:83-88 | values equal up to key order print the same, in any context |
| CanonicalJson.CanonicalThen | src/signing.ts:93-95 | the accumulating form of the printer is the printer followed by the rest |
| CanonicalJson.PrintOneLine | src/signing.ts:64-91 | the text of a value has no line end, whatever its strings hold |
| JsonReader.CanonicalReads | src/signing.ts:64-95 | read as RFC 8259 says, canonical text is consumed to its end and gives an equal value, with the keys of every object in code-unit order |
| JsonReader.PrintReads | src/signing.ts:64-91 | so does the text of a value followed by what can follow it in a document, leaving what follows |
| JsonReader.QuotedReads | src/signing.ts:68-70 | a printed string reads back, by the table of escapes of section 7 of RFC 8259 |
| JsonReader.NumberReads | src/signing.ts:71-74 | a printed number reads back as the same number |
| JsonReader.EscapeForm | src/signing.ts:68-70 | a character is printed as itself, in two characters or in six, with the shortest escape there is |
| JsonReader.NumberForm | src/signing.ts:71-74 | a number has an exponent only from 10^21 on and below 10^-6, then one digit before the point, and no fraction that ends in a zero |
| JsonReader.NegativeForm | src/signing.ts:71-74 | a negative number is a minus sign and the text of its opposite, and zero prints as 0 |
| Collisions.DuplicateIffAgree | src/cache_exchange.ts:95-111 | for senders with equally many line ends, a collision is a duplicate exactly when sender, topic, payload (up to key order) and signature agree |
| Collisions.MisclassifiedIff | src/cache_exchange.ts:95-111 | two senders admit different envelopes that pass for duplicates exactly when one is the other, a line end, and a topic, or a topic and a canonical JSON text, or these and the start of a signature |
| Collisions.SendersExtend | src/cache_exchange.ts:95-111 | a duplicate whose senders differ in length has the longer go on beyond the shorter in one of these ways |
| Collisions.NewlineSenderMisclassified | src/cache_exchange.ts:95-111 | for instance the sender s and the sender s, line end, t |
| CacheExchange.SelectCacheExchangeEntries | src/cache_exchange.ts:113-148 | the selection loop returns the page and the cursor the scan of the log gives |
| CacheExchange.ScanSplits | src/cache_exchange.ts:121-145 | a page holds the first eligible records, and the rest of them lie past its cursor |
| CacheExchange.ScanCursor | src/cache_exchange.ts:119-145 | a page's cursor is the caller's own or that of a record past it |
| CacheExchange.SelectAdvances | src/cache_exchange.ts:117-147 | a page that moves the cursor leaves fewer records past it, so pulling on comes to an end |
| CacheExchange.DrainIsPick | src/cache_exchange.ts:113-148 | pulling on from each returned cursor over a fixed log yields exactly the eligible records, once each, in order |
| CacheExchange.ParseWire | src/cache_exchange.ts:150-192 | an entry as printed by a pull is read back by a push with the same envelope, origin and limits |
| CacheExchange.ParseWireHops | src/cache_exchange.ts:169-176 | whatever the strings of an entry hold, reading it never changes its hop count or its limit |
| CacheExchange.ParsedNames | src/cache_exchange.ts:157-167 | whatever is read has a trimmed, non-empty id, sender and origin, such a signature if any, and a hop limit of at least one |
| RelayOutcomes.ParseIs | src/cache_exchange.ts:150-192 | an entry is read as exactly what its fields give, each trimmed or truncated in its own way, and refused exactly if they give nothing readable |
| RelayOutcomes.PullIs | src/cache_exchange.ts:113-148 | a page holds just the records past the caller's cursor and up to its own that the room filter lets through, that do not originate at the caller and that may hop on, each one hop further, in log order and within the limit; below the limit it has reached the end of the log |
| RelayService.TallyTotals | src/memory_handler.ts:1489-1575 | accepted, duplicate, conflicting and rejected entries add up to the batch, and the rejection counts to the rejected |
| RelayService.PushAllAfterFailure | src/memory_handler.ts:1500-1517 | once a malformed entry or a denied room has ended a push, the entries after it change nothing |
| RelayOutcomes.PushCounts | src/memory_handler.ts:1500-1575 | each entry of a push is counted as a duplicate exactly if it passes all guards and its room holds an envelope with its id that agrees with it, as a conflict exactly if it holds one that does not, as accepted exactly if it holds none, and under a rejection reason exactly if that guard is the first to fail |
| RelayOutcomes.PushUnread | src/memory_handler.ts:1500-1505 | an entry that cannot be read ends the push, uncounted, and changes nothing |
| RelayOutcomes.EntryIs | src/memory_handler.ts:1500-1575 | the outcome of an entry that can be read, and what the relay holds after it |
| RelayOutcomes.PushAnswers | src/memory_handler.ts:1577-1591 | a push that does not fail answers with the relay's name, its counts, and the cursor before it plus what it accepted |
| RelayOutcomes.PushKeepsRooms | src/memory_handler.ts:1500-1575 | whatever its bytes, a push leaves each room within its limit with well-formed envelopes, one per id |
| RelayService.AcceptKeepsNodeOk | src/memory_handler.ts:796-845 | accepting a new id keeps rooms within their limit with one envelope per id, and the log within its limit with rising cursors |
| RelayService.PublishKeepsNodeOk | src/memory_handler.ts:2373-2488 | a publish keeps a relay well formed |
| RelayOutcomes.PublishIs | src/memory_handler.ts:2373-2488 | told on the request: what refuses a publish, when it changes nothing, and which room, id, sender, topic, payload and signature it stores otherwise, at hop zero with the relay's own limit |
| RelayService.AcceptedIffNewForeign | src/memory_handler.ts:1506-1543 | a pushed entry is accepted exactly when it can be read, its room and topic are valid, its room is not denied, it comes from another relay, its hops are not used up, and its id is new to its room |
| RelayService.PushEntryKeepsNodeOk | src/memory_handler.ts:1500-1575 | a pushed entry, whatever its bytes, keeps a relay well formed exactly unless it passes these guards and claims no hop |
| RelayService.KeepsEveryNodeIff | src/memory_handler.ts:1500-1575 | it keeps every well-formed relay well formed exactly unless it can be read, claims no hop, names a valid topic and a valid room that is not denied, and comes from another relay |
| RelayService.NoHopsAccepted | src/memory_handler.ts:1500-1575 | every new, well-formed entry of another relay that claims no hop is accepted, and breaks it |
| RelayService.RelayService.GetOrCreateRoom | src/memory_handler.ts:788-794 | a room is created empty when it is first named |
| RelayService.RelayService.PublishIntoRoom | src/memory_handler.ts:796-845 | an invalid topic or a known id changes nothing; otherwise the envelope joins the room and the oldest give way |
| RelayService.RelayService.FindEnvelopeById | src/memory_handler.ts:862-867 | the first envelope of the room with the id, if any |
| RelayService.RelayService.RecordCacheExchange | src/memory_handler.ts:1198-1220 | the record joins the log at the next cursor and the oldest give way |
| RelayService.RelayService.HandlePublish | src/memory_handler.ts:2373-2488 | a publish through the handler is the specified step, with its reply |
| RelayService.RelayService.HandleCacheExchangePull | src/memory_handler.ts:1429-1467 | a pull returns the selected page of the log and changes nothing |
| RelayService.RelayService.PushOne | src/memory_handler.ts:1500-1575 | one pushed entry is handled with the outcome and the new state the specification gives, case by case |
| RelayService.RelayService.HandleCacheExchangePush | src/memory_handler.ts:1469-1591 | the push loop leaves the state, the tallies and the reply of the specified push |
| CacheSyncWorker.RoundCursors | src/cache_sync_worker.ts:80-109 | a round moves no cursor back, leaves the cursors of failed peers alone, accounts for every peer once, and pushes what it pulls |
| CacheSyncWorker.TurnCursor | src/cache_sync_worker.ts:89-106 | a failed turn leaves its cursor where it was; no turn moves one back |
| SyncOutcomes.TurnIs | src/cache_sync_worker.ts:89-106 | a turn fails exactly if the peer cannot be reached, an entry of its page cannot be pushed, or the answer to a push is lost; otherwise it counts its page and moves its cursor to the page's |
| SyncOutcomes.RoundIs | src/cache_sync_worker.ts:80-109 | a round reports the peers whose turn failed, in order, counts the entries of the other pages as pulled and as pushed, and moves just their cursors |
| CacheSyncWorker.CacheSyncWorker.constructor | src/cache_sync_worker.ts:42-67 | the peers are the trimmed, non-empty names given, each once, in the order of first occurrence; the limit is at least one, and all cursors start at zero |
| CacheSyncWorker.CacheSyncWorker.SyncOnce | src/cache_sync_worker.ts:69-113 | a round while one is in flight is skipped; otherwise it has the specified effect on relay, cursors and summary |
| CacheSyncWorker.CacheSyncWorker.SyncOne | src/cache_sync_worker.ts:89-107 | one peer of a round, including failures, changes relay, cursor and summary as specified |
| CacheSyncWorker.CacheSyncWorker.PullAndPush | src/cache_sync_worker.ts:91-106 | pull, push when there is something to push, and only then move the cursor |
| RelayNetwork.PulledFromLog | src/cache_exchange.ts:121-140 | every pulled entry comes from a record of the log that did not originate at the puller, with one hop more |
| RelayNetwork.PushEntries | src/memory_handler.ts:1500-1575 | after a push every new record comes from one of the pushed entries |
| RelayNetwork.StepsAreTurn | src/cache_sync_worker.ts:89-106 | a pull, a step for every entry, and the answer, with nothing in between, are one turn of the worker, failures included |
| RelayNetwork.EntryKeepsNodeOk | src/memory_handler.ts:1500-1575 | pushing the next entry of a page keeps its relay well formed and logs nothing but that entry |
| RelayNetwork.PublishKeepsProvenance | src/memory_handler.ts:2464-2486 | a publish keeps provenance: what it logs is what it published |
| RelayNetwork.PullKeepsProvenance | src/cache_sync_worker.ts:89-93 | a pull keeps provenance: what it puts in flight is a record of the peer, carried one hop further |
| RelayNetwork.EntryKeepsProvenance | src/memory_handler.ts:1518-1568 | pushing an entry keeps provenance, whatever happened since its pull |
| RelayNetwork.SettleKeepsProvenance | src/cache_sync_worker.ts:101-106 | so does the end of a turn, answered or not |
| RelayNetwork.ReachableProvenance | src/memory_handler.ts:1518-1568 | in every reachable network every logged record is field by field an envelope its origin published, its hop count is the number of pulls that carried it, below its limit, and zero exactly at its origin |
| Quiescence.ScanLowers | src/cache_exchange.ts:121-145 | a page lowers what its peer still has to pull by at least n + 1 times what it carries |
| Quiescence.PushOneRaises | src/memory_handler.ts:1518-1568 | pushing an entry raises what any peer has still to pull by no more than the entry, and by nothing if it is not accepted |
| Quiescence.PullKeepsLoad | src/cache_sync_worker.ts:89-93 | a pull leaves the load of the network as it is: its page owes no more than lay ahead |
| Quiescence.FailsOnlyIfDenied | src/memory_handler.ts:1500-1517 | the push of a pulled entry fails only for a denied room |
| Quiescence.EntryLowersLoad | src/memory_handler.ts:1518-1568 | pushing an entry never raises the load of the network, whatever happened since its pull: the page pays n times what it carries |
| Quiescence.SettleLowersLoad | src/cache_sync_worker.ts:101-106 | the end of a turn never raises the load, and an answer that moves a cursor lowers it |
| Quiescence.MovesBounded | src/cache_sync_worker.ts:89-107 | from any reachable network, however many pulls, entries and answers follow, interleaved in any way, with eviction, the number of turns that move a cursor is bounded by the load at the start, if no turn fails after an entry of its page was accepted |
| Quiescence.OpenMovesBounded | src/cache_sync_worker.ts:89-107 | in particular where no room is denied and every answer arrives |
| Restless.NeverAtRest | src/memory_handler.ts:1509-1517 | with turns that fail partway cursors can be moved any number of times: two relays, from a reachable network |
| Restless.FailedTurn | src/memory_handler.ts:1500-1575 | each failing push accepts the same two messages again, each driving the other out |
| Convergence.PushOneLogged | src/memory_handler.ts:1518-1568 | once an entry that could be relayed has been pushed without failing, its id is logged |
| Convergence.PublishKeepsConverging | src/memory_handler.ts:2464-2486 | a publish keeps the convergence invariant |
| Convergence.PullKeepsConverging | src/cache_sync_worker.ts:89-93 | a pull keeps the invariant: its page holds whatever the puller lacks up to the page's cursor |
| Convergence.EntryKeepsConverging | src/memory_handler.ts:1518-1568 | pushing an entry keeps the invariant: what has been pushed of a page is logged by the puller |
| Convergence.SettleKeepsConverging | src/cache_sync_worker.ts:101-106 | the end of a turn keeps it: what a cursor has passed is logged by the puller |
| Convergence.RunKeepsConverging | src/cache_sync_worker.ts:89-107 | every run keeps the invariant |
| Convergence.FullMeshConverges | src/cache_sync_worker.ts:89-107 | a full mesh with distinct ids and a hop limit of two or more, once caught up and without eviction, holds the same ids in every room, for any interleaving of pulls, entries and answers and any failures |
| Convergence.HopLimitOneNeverSpreads | src/cache_exchange.ts:127 | with a hop limit of one no record ever leaves its relay |
| ShardedPush.ParseCacheExchangeEntriesByRoom | src/cloudflare_worker.ts:329-344 | groups the entries by room in order, or refuses when one is not an object or names no valid room |
| ShardedPush.EntryIsLocal | src/memory_handler.ts:1500-1575 | an entry has the same outcome on any service that agrees on its room, and changes no other room |
| ShardedPush.RoomsAgree | src/cloudflare_worker.ts:405-418 | the whole push leaves a room as the push of its group alone does |
| ShardedPush.SumIsWhole | src/cloudflare_worker.ts:432-450 | the tallies of the groups add up to the tally of the whole |
| ShardedPush.FailsIffAborts | src/memory_handler.ts:1502-1517 | a push fails exactly when some entry is malformed or names a denied room |
| ShardedPush.ShardingPreservesMeaning | src/cloudflare_worker.ts:396-463 | for every batch with valid rooms the sharded push and the whole push succeed together, and then count the same and leave every room with the same messages |
| ShardedPush.EntryRoomIs | src/cloudflare_worker.ts:329-344 | an entry is routed by the room it names, trimmed, if that is valid, and by nothing else |
| ShardedPush.GroupsAnswer | src/cloudflare_worker.ts:396-463 | a sharded push that goes through answers with the relay's name and the greatest cursor of its shards |
| ShardedPush.FailsAtOneGroup | src/cloudflare_worker.ts:405-420 | one that fails answers with the failure of the first group that fails, and leaves the rooms after it as they were |
| ShardedPush.Router.RouteCacheExchangePushByEntryRoom | src/cloudflare_worker.ts:346-464 | the router sends a batch to the default room, to its one room, or group by group, with the specified replies and effects |
| ShardedPush.Router.ForwardGroups | src/cloudflare_worker.ts:396-463 | the loop over the groups stops at the first reply that is not a success and otherwise adds up the tallies |
| CacheStore.StorageKeyRoundTrip | src/cache_store.ts:194-206 | a storage key reads back as its kind and key, so no two records share one |
| CacheStore.EvictExact | src/cache_store.ts:246-266 | eviction removes precisely the shortest prefix of the (updatedAt, key) order that brings the total within the limit, and always reaches it |
| CacheStore.SortedIsOrder | src/cache_store.ts:187-192 | sorting the candidates, however they were listed, gives the eviction order |
| CacheStore.OrderKeys | src/cache_store.ts:187-192 | the eviction order names every record once |
| StoreOutcomes.EvictsOldest | src/cache_store.ts:187-266 | what is evicted was written before whatever stays, or at the same time under a smaller key, and nothing is evicted within the limit |
| CacheStore.MemoryCacheStore.PruneExpiredRecords | src/cache_store.ts:238-244 | exactly the expired records go |
| CacheStore.MemoryCacheStore.EnforceMaxBytesLimit | src/cache_store.ts:246-266 | leaves what the specified eviction leaves |
| CacheStore.MemoryCacheStore.EvictInOrder | src/cache_store.ts:261-265 | deletes in order until the running total is within the limit |
| CacheStore.MemoryCacheStore.Put | src/cache_store.ts:268-287 | prunes, writes and evicts; an empty key is refused |
| CacheStore.MemoryCacheStore.Get | src/cache_store.ts:289-303 | answers the live record, and deletes an expired one |
| CacheStore.MemoryCacheStore.Delete | src/cache_store.ts:305-309 | deletes, and says whether there was a record, expired or not |
| CacheStore.MemoryCacheStore.List | src/cache_store.ts:311-319 | answers the page of the live records that match |
| CacheStore.CatalogGrows | src/cache_store.ts:208-213 | each matching record adds one entry under a name of its own |
| CacheStore.CollectEntries | src/cache_store.ts:313-317 | collects exactly the entries that match |
| CacheStore.PaginateMetadata | src/cache_store.ts:215-232 | the page that starts at the offset in the order of kind and key, and the offset of the next one, if any |
| CacheStore.PagesTile | src/cache_store.ts:224-231 | following the offsets of an unchanging listing yields every entry from the first offset on, once, in order |
| R2CacheStore.R2MetadataRoundTrip | src/cache_store.ts:350-395 | what is written as object metadata is read back as the record the memory store would hold |
| R2CacheStore.ViewWrite | src/cache_store.ts:473-482 | writing an object writes the record of its key |
| R2CacheStore.ViewRemove | src/cache_store.ts:433-445 | deleting an object deletes the record of its key |
| R2CacheStore.SortedIsEvictionOrder | src/cache_store.ts:447-464 | sorting by bucket key under the prefix is sorting by storage key |
| R2CacheStore.NextPage | src/cache_store.ts:407-431 | the listing resumed after the last key returns what is left, whatever was deleted on the way |
| R2CacheStore.SweepOne | src/cache_store.ts:519-536 | one listed object is deleted if expired, and otherwise collected if it matches |
| R2CacheStore.R2CacheStore.ListPolicyEntries | src/cache_store.ts:407-431 | the paging loop lists every object of the store once |
| R2CacheStore.R2CacheStore.PruneExpiredPolicyEntries | src/cache_store.ts:433-445 | exactly the expired objects are deleted, and nothing outside the store is touched |
| R2CacheStore.R2CacheStore.EnforceMaxBytesPolicy | src/cache_store.ts:447-464 | leaves what the specified eviction leaves |
| R2CacheStore.R2CacheStore.Put | src/cache_store.ts:473-482 | writes first and applies the policy after, in terms of the records held |
| R2CacheStore.R2CacheStore.Get | src/cache_store.ts:484-504 | answers the live record, and deletes an expired one |
| R2CacheStore.R2CacheStore.Delete | src/cache_store.ts:506-511 | deletes, and says whether there was a live record |
| R2CacheStore.R2CacheStore.List | src/cache_store.ts:513-541 | deletes expired objects while paging and answers the page of the live records that match |
| StoreEquivalence.ExpiredIsFirst | src/cache_store.ts:187-192 | a record that is expired when written comes first in the eviction order |
| StoreEquivalence.ExpiredPutEvicts | src/cache_store.ts:246-287 | writing an expired record evicts what would be evicted without it |
| StoreEquivalence.PutsAlike | src/cache_store.ts:466-482 | pruning before a write or after it leaves the same live records |
| StoreEquivalence.StepAlike | src/cache_store.ts:268-319 | one request keeps the stores alike with the same answer; a deletion is reported differently exactly when the memory store still held the record although expired |
| StoreEquivalence.StoresAgree | src/cache_store.ts:402-541 | over every run of puts, gets, deletes and lists with a clock that never goes back, both stores give the same answers, reports of deletions apart |
| StoreEquivalence.ReachableFits | src/cache_store.ts:246-287 | no run takes either store over its byte limit |
| StoreOutcomes.GetIs | src/cache_store.ts:268-303 | over every run of either store, a get answers nothing or just what was last put under its kind and key and not deleted since, its bytes, size, time and names, and never once that has expired; if no put went over the limit it answers it until then |
| StoreOutcomes.HoldsLastPut | src/cache_store.ts:473-504 | whatever a store holds under a kind and key is the record of what was put there last |
| StoreOutcomes.LastPutHeld | src/cache_store.ts:473-504 | it does hold it, until it expires, if no put went over the limit |
| StoreOutcomes.ListIs | src/cache_store.ts:311-319 | a list answers the page at its offset of exactly the live records that match its kind, prefix and room, each once, by kind and key |
| IssueProjection.EventKeyRoundTrip | src/issue_projection.ts:119-142 | reading a printed event key gives back its cursor, whatever the id after it |
| IssueProjection.EventKeyOrder | src/issue_projection.ts:119-122 | of two events of a room the one with the smaller cursor is listed first exactly when that cursor is at most the leading digits of the other, as many as it is printed with |
| IssueProjection.InOrderBelow | src/issue_projection.ts:119-122 | below 10^12 that is always so |
| IssueProjection.InOrderEnds | src/issue_projection.ts:119-122 | at 10^12 it is not |
| IssueProjection.EventKeyInjective | src/issue_projection.ts:119-122 | an event key names one room and one cursor |
| IssueProjection.SnapshotKeyInjective | src/issue_projection.ts:124-126 | a snapshot key names one room and one issue |
| IssueProjection.KindsOfKeyDiffer | src/issue_projection.ts:119-130 | event, snapshot and cursor keys never coincide |
| IssueProjection.PlainKeyApart | src/relay_cache_adapter.ts:379-381 | an envelope's own key falls among the keys that start with issue/ exactly in the room called issue |
| IssueFields.IssueIdIs | src/issue_projection.ts:144-163 | an envelope is about the first of issue_id, issueId, issue.id and id that its payload gives as a text that is not blank, trimmed, and about itself exactly if it gives none |
| IssueFields.ActionIs | src/issue_projection.ts:165-180 | the action is what follows "issue." in the topic, else in the payload's kind, else that kind, and "upsert" if there is nothing |
| IssueFields.SourceTimeIs | src/issue_projection.ts:313-330 | the time is source_updated_at_ms if that is a number and not negative, else what issue.updated_at is parsed to, if not negative, else unknown |
| IssueFields.SourceIs | src/relay_cache_adapter.ts:126-133 | the source is told by the payload's source, trimmed and in any case |
| IssueProjection.IssueId | src/issue_projection.ts:144-163 | an envelope always has an issue id, trimmed and not empty |
| IssueProjection.Action | src/issue_projection.ts:165-180 | an envelope always has an action that is not empty |
| IssueIndex.FoldAppend | src/relay_cache_adapter.ts:310-353 | an event above all others is folded in last |
| IssueIndex.ProjectChanges | src/relay_cache_adapter.ts:279-370 | an attempt logs its event above all others of the room and shows it if the policy accepts it, touching no other issue, wherever it stops |
| IssueFields.FiledUnderItsIssue | src/relay_cache_adapter.ts:279-312 | after a task that succeeds, the envelope is in the log of the issue its payload names, or of its own id if it names none, with the action and the time it tells |
| IssueFields.AttemptShows | src/relay_cache_adapter.ts:279-370 | an attempt that succeeds leaves an event of its own time above all cursors of the room; the snapshot of its issue then shows that event, field by field, if the policy accepts it, and otherwise what it showed before |
| IssueFields.TaskStores | src/relay_cache_adapter.ts:372-397 | and it is stored under its own key |
| IssueFields.CurrentIsGreatest | src/relay_cache_adapter.ts:255-267 | the current cursor of a room is the greatest of those in memory and on record |
| IssueFields.NextCursorIsLeast | src/relay_cache_adapter.ts:269-277 | the next cursor is the least above both that is not below the hint |
| IssueOverwrite.HarmlessIffUnreserved | src/relay_cache_adapter.ts:379-390 | storing an envelope takes nothing from any well-formed index exactly when it is about an issue, or not in the room issue, or its id spells no event, snapshot or cursor key |
| IssueOverwrite.ReservedIsReached | src/relay_cache_adapter.ts:379-390 | for every other envelope there is an index, one task from the empty one, of which it overwrites a part |
| IssueOverwrite.PlainKeepsIff | src/relay_cache_adapter.ts:379-390 | storing an envelope leaves all logs and snapshots exactly unless its key holds an event or a snapshot |
| IssueOverwrite.EventOverwritten | src/relay_cache_adapter.ts:379-390 | an event overwritten is gone from its log, and nothing else changes |
| IssueOverwrite.SnapshotOverwritten | src/relay_cache_adapter.ts:379-390 | a snapshot overwritten is gone, and its log stays |
| IssueOverwrite.CursorOverwritten | src/relay_cache_adapter.ts:245-267 | a cursor record overwritten leaves logs and snapshots, but after a restart the cursor starts again from one |
| IssueOverwrite.OverwriteAgreement | src/relay_cache_adapter.ts:379-390 | after an overwrite the index is well formed and agrees with its log exactly if nothing was lost, or an event without which the log folds alike, or a cursor that is also remembered |
| IssueAgreement.RecordsState | src/relay_cache_adapter.ts:301-353 | an attempt that logs the event brings log and snapshot together unless it stops in between |
| IssueAgreement.AgreementAfterTask | src/relay_cache_adapter.ts:372-397 | when every snapshot is the fold of its log after a task, exactly, told from what the task is given. About an issue: some attempt makes no failing write, or unless the policy accepts the envelope and the last attempt to log its event did not show it. Any other envelope: it was not written, or overwrote nothing the agreement rests on |
| IssueAgreement.SuccessAgrees | src/cache_persistence_queue.ts:81-123 | a task about an issue succeeds exactly if some attempt makes no failing write, and then every snapshot is the fold of its log |
| IssueAgreement.SnapshotTaken | src/relay_cache_adapter.ts:379-390 | an envelope whose id spells a snapshot's key takes the snapshot though its task succeeds; the log stays, and the two disagree |
| IssueAgreement.SnapshotTakenOnce | src/relay_cache_adapter.ts:379-390 | for instance the id snapshots/main/bug-1 in the room issue, after bug-1 was reported in the room main |
| IssueAgreement.FailedTaskDisagrees | src/cache_persistence_queue.ts:95-107 | an event logged while the snapshot write fails for good leaves the two apart |
| IssueAgreement.AttemptHeals | src/relay_cache_adapter.ts:301-353 | whether or not snapshot and log of an issue agreed before, they do after the next event is logged exactly if it is shown just when it is folded in, and, if it is neither, they agreed before |
| IssueAgreement.RecordsHeal | src/relay_cache_adapter.ts:310-353 | the same of any attempt that logs an event |
| IssueAgreement.RunsAgree | src/cache_persistence_queue.ts:125-135 | along every run of tasks with unreserved ids that do not end with an accepted event logged but not shown, the snapshots stay the folds of their logs |
| IssueAgreement.RunsFromEmptyAgree | src/cache_persistence_queue.ts:125-135 | in particular from the empty index |
| IssuePolicies.LastWriteKeepsNewest | src/relay_cache_adapter.ts:135-156 | under last_write, with all times known, the snapshot holds the greatest time delivered and the last envelope processed with it |
| IssuePolicies.DeliveryOrderFree | src/relay_cache_adapter.ts:144-166 | with distinct times the final envelope does not depend on the order of delivery |
| IssuePolicies.PreferredStays | src/relay_cache_adapter.ts:158-165 | a snapshot from the preferred source is never replaced by one from another |
| IssuePolicies.PreferredTakesOver | src/relay_cache_adapter.ts:151-165 | a later envelope from the preferred source takes over unless the source dates it before what is shown |
| IssueIndex.RestartKeeps | src/relay_cache_adapter.ts:255-267 | forgetting the cursors in memory is harmless while those on record are current |
| IssueIndex.TaskRecordsCursor | src/relay_cache_adapter.ts:355-369 | a task that succeeds leaves the cursor of its room on record |
| IssueSync.LoadAdvances | src/relay_cache_adapter.ts:399-446 | a page that holds an event leaves fewer pending, so reading on comes to an end |
| IssueSync.PendingHolds | src/relay_cache_adapter.ts:420-434 | the events pending after a cursor are exactly those stored with a later one |
| IssueSync.LoadIsPrefix | src/relay_cache_adapter.ts:399-446 | a page is the first part of what is pending, and the rest is pending after it |
| IssueSync.SyncCompleteIff | src/relay_cache_adapter.ts:399-446 | reading on from each page loses no event of a room, whatever the page size, exactly when the cursors of the room sort as text |
| IssueSync.SyncComplete | src/relay_cache_adapter.ts:491-525 | then it yields every event stored with a later cursor once, in increasing cursor order |
| IssueSync.NeverDrained | src/relay_cache_adapter.ts:399-446 | with pages of one event, an event listed after one of a greater cursor is never read |
| IssueSync.SmallCursorsSorted | src/issue_projection.ts:119-122 | cursors below 10^12 sort as text |
| IssueSync.SyncLosesBeyond | src/relay_cache_adapter.ts:399-446 | at 10^12 a page of one event skips an earlier one for good |
| IssueSync.SnapshotsComplete | src/relay_cache_adapter.ts:448-489 | the snapshots read are the first of the room in the order of their issues, and with a limit that suffices all of them |
| RelayCacheAdapter.DelaysDouble | src/cache_persistence_queue.ts:52-60 | each retry waits twice as long as the one before, up to the greatest delay |
| RelayCacheAdapter.FirstDelay | src/cache_persistence_queue.ts:52-60 | the first retry waits the base delay, up to the greatest |
| RelayCacheAdapter.RelayCacheAdapter.NextIssueCursor | src/relay_cache_adapter.ts:255-277 | one above the greatest of the cursor in memory, the one on record and the hint before it |
| RelayCacheAdapter.RelayCacheAdapter.PersistIssueProjection | src/relay_cache_adapter.ts:279-370 | the writes of one attempt, in order, up to the one that fails |
| RelayCacheAdapter.RelayCacheAdapter.PersistEnvelope | src/cache_persistence_queue.ts:81-123 | the retry loop leaves what the specified task leaves, with one delay per retry |
| RelayCacheAdapter.RelayCacheAdapter.LoadIssueEvents | src/relay_cache_adapter.ts:399-446 | the paging loop over the store returns the specified page |
| RelayCacheAdapter.RelayCacheAdapter.LoadIssueSnapshots | src/relay_cache_adapter.ts:448-489 | the paging loop over the store returns the specified snapshots |
| RelayCacheAdapter.RelayCacheAdapter.SyncIssues | src/relay_cache_adapter.ts:491-515 | normalises cursor and limits, and returns events, snapshots and the current cursor of the room |
| GitServeSession.NextOk | src/git_serve_session.ts:218-495 | every segment and every timer keeps all invariants |
| GitServeSession.EnqueueOk | src/git_serve_session.ts:340-365 | queueing a request and handing it to a waiting poll keeps them |
| GitServeSession.DrainOk | src/git_serve_session.ts:287-296 | handing out what is pending settles one waiting poll and leaves no request unseen |
| GitServeSession.DequeueOk | src/git_serve_session.ts:461-462 | taking a request out settles or loses it, once, and disarms its timer |
| GitServeSession.PollOk | src/git_serve_session.ts:369-400 | a poll answers at once or waits with a timer of its own |
| GitServeSession.PollTimeoutOk | src/git_serve_session.ts:386-392 | a poll that times out is answered once and waits no more |
| GitServeSession.CloseOk | src/git_serve_session.ts:218-236 | clean-up settles every request and every poll and disarms all timers |
| GitServeSession.ReachableSession | src/git_serve_session.ts:298-498 | over every interleaving requests and polls are settled at most once, timers are armed for exactly what is unsettled, a waiting poll leaves no request unseen, and requests queued are pending, answered, timed out or closed, apart from one for each respond that threw |
| GitServeOutcomes.NextDoes | src/git_serve_session.ts:218-495 | what each segment sends, to whom and with what, and what it leaves pending and waiting, each in its order |
| GitServeOutcomes.ActiveIsRegistered | src/git_serve_session.ts:247-273 | over every run a session is active exactly if a token was registered since the last clean-up, with the last of them |
| GitServeOutcomes.PollHandsOut | src/git_serve_session.ts:369-400 | over every run a poll with that token is answered at once with exactly the pending requests, in order, if there are any, and each of them has been handed out ever after |
| GitServeOutcomes.PollTurnedAway | src/git_serve_session.ts:255-273 | any other poll changes nothing |
| GitServeSession.PendingCanSettle | src/git_serve_session.ts:341-349 | a pending request can always time out, and is then settled for good |
| GitServeSession.StaysCleanIff | src/git_serve_session.ts:309-365 | a closed session with nothing pending stays so under every step exactly unless a body arrives while it is closed |
| GitServeSession.RunsCleanIff | src/git_serve_session.ts:309-365 | over every run, a closed session never has a request pending exactly when no body arrived while it was closed |
| GitServeSession.LateStaysIff | src/git_serve_session.ts:341-365 | a request pending in a closed session leaves it exactly by its own timer, a respond to it begun before, or another clean-up |
| GitServeSession.LateBodyIsQueued | src/git_serve_session.ts:309-365 | for instance when the session is closed while a body is awaited |
| GitServeSession.GitServeSession.DrainPendingToPollWaiters | src/git_serve_session.ts:287-296 | the first waiting poll gets all pending requests |
| GitServeSession.GitServeSession.HandleGitRequest | src/git_serve_session.ts:298-311 | up to the await of the body, or to the end without one |
| GitServeSession.GitServeSession.ResumeGitRequest | src/git_serve_session.ts:311-367 | from the body on, without looking at the session again |
| GitServeSession.GitServeSession.HandlePoll | src/git_serve_session.ts:369-400 | a poll is denied, answered at once, or made to wait |
| GitServeSession.GitServeSession.ResumeRespond | src/git_serve_session.ts:427-497 | 400, 404, an answer, or the exception after the request was already taken out |
| GitServeSession.GitServeSession.FireRequestTimer | src/git_serve_session.ts:341-349 | a request times out and leaves the queue |
| GitServeSession.GitServeSession.FirePollTimer | src/git_serve_session.ts:386-392 | the poll is found and spliced out |
| GitServeSession.GitServeSession.CleanupSession | src/git_serve_session.ts:218-236 | the loops settle what is pending and what waits |
| PktLine.ExtractIncomingRefs | src/git_serve_session.ts:79-91 | each matching ref once, in the order of first occurrence |
| PktLine.MatchesAreRefs | src/git_serve_session.ts:45 | every match is the fixed prefix followed by 1 to 255 ref characters, so at most 275 bytes |
| PktLine.NoMatchMissed | src/git_serve_session.ts:45 | nothing is found exactly when the pattern matches nowhere |
| PktLine.MatchesLocated | src/git_serve_session.ts:79-91 | each match is where the pattern first matches after the one before it, as long as it can be |
| PktLine.LengthField | src/git_serve_session.ts:117-120 | a length below 2^16 is printed in four hexadecimal digits and reads back |
| PktLine.LineSplits | src/git_serve_session.ts:117-120 | a pkt-line is read back from the front of any stream |
| PktLine.TooLongRejected | src/git_serve_session.ts:117-120 | a payload beyond the limit of the format makes a line the format rejects |
| PktLine.BuildReceivePackResultBody | src/git_serve_session.ts:136-143 | the loop concatenates the lines in order |
| PktLine.ResultBodySplits | src/git_serve_session.ts:136-143 | for every list of refs a push can mention the body splits into unpack ok, one ok line per ref in order, and a flush |
| PktLine.ResultBodyReads | src/git_serve_session.ts:136-143 | read as pkt-lines the body is "unpack ok", "ok" and the ref for each ref in order, and a flush |
| RateLimit.AdmitCounts | src/memory_handler.ts:2393-2428 | a publish counts a key at most once and is admitted only within its limit |
| RateLimit.AdmitIs | src/memory_handler.ts:2393-2428 | a publish counts its address if known, its sender unless the address denies it, its room unless either does, each once in its running or a new window, and no other key |
| RateLimit.AdmittedIff | src/memory_handler.ts:2393-2428 | a publish is admitted exactly when its address, sender and room all have room for one more; otherwise the first that has none denies it |
| RateLimit.IntervalBound | src/memory_handler.ts:761-772 | in any half-open interval of one window a key is admitted at most 2 * max - 1 times, over every sequence of publishes, denied ones included |
| RateLimit.WindowBound | src/memory_handler.ts:761-772 | from the publish that opens a window, at most max are admitted until it ends |
| RateLimit.IntervalBoundTight | src/memory_handler.ts:761-772 | the interval bound is reached at every level, for every limit that no other level undercuts and every window of at least two milliseconds |
| RateLimit.InstantBound | src/memory_handler.ts:761-772 | with a window of one millisecond at most max are admitted in it |
| RateLimit.PublishLimiter.CheckPublish | src/memory_handler.ts:2393-2428 | address, sender and room are counted in turn until one denies |
| NonceWindow.BeginKeeps | src/memory_handler.ts:1287-1290 | a remembered nonce is not checked again and stays while its timestamp could still be accepted |
| NonceWindow.BeginIs | src/memory_handler.ts:1350-1358 | a request is stale exactly if its timestamp is off by more than the skew either way, a replay exactly if it is not and its nonce is remembered and has not expired, and otherwise its signature is checked |
| NonceWindow.FinishIs | src/memory_handler.ts:1371-1387 | then it is accepted exactly if it is genuine, and only so its nonce is remembered, last, with its timestamp |
| NonceWindow.FinishKeeps | src/memory_handler.ts:1292-1300 | another nonce that is accepted pushes it one place towards the front, though the clock was read before the await |
| NonceWindow.StaysSingleIff | src/memory_handler.ts:1350-1387 | no nonce comes to be in flight twice, or in flight and remembered, exactly unless a check begins while one of the nonce is in flight |
| NonceWindow.AcceptedOnce | src/memory_handler.ts:1350-1387 | while no nonce is in flight twice, a second acceptance needs as many nonces in between as a sender may have, over every interleaving |
| NonceWindow.ReplaySafeIff | src/memory_handler.ts:1269-1300 | while no nonce is in flight twice, no signed publish is accepted twice, short of that many nonces in between, exactly when nonces live as long as the clock may be off |
| NonceWindow.ReplayedTwice | src/memory_handler.ts:1352-1358 | with a shorter life a publish dated ahead is accepted twice, one after the other |
| NonceWindow.AcceptedTogether | src/memory_handler.ts:1357-1385 | whatever the settings, two copies checked at the same time are both accepted with none between |
| NonceWindow.NoFalseReplay | src/memory_handler.ts:1287-1300 | only a nonce the sender has had accepted before is ever called a replay |
| NonceWindow.NonceRegistry.PruneSenderNonces | src/memory_handler.ts:1269-1285 | expired nonces go, then the oldest |
| NonceWindow.NonceRegistry.RememberNonce | src/memory_handler.ts:1292-1300 | a new nonce goes last and the oldest give way |
| NonceWindow.NonceRegistry.VerifyPublish | src/memory_handler.ts:1350-1361 | stale, replayed, or put in flight, for one sender alone |
| NonceWindow.NonceRegistry.ResumeVerify | src/memory_handler.ts:1361-1387 | from the signature check on: forged, or accepted and remembered with the time read before it |
| IssueSyncEngine.RetryBackoff | src/issue_sync_engine.ts:110-113 | each further retry waits twice as long, up to an hour |
| IssueSyncEngine.FirstRetry | src/issue_sync_engine.ts:110-113 | the first try waits the base, up to an hour |
| IssueSyncEngine.EntryIs | src/issue_sync_engine.ts:115-152 | an entry keeps the time of its first failure, counts the retries asked for, and takes everything else from the last failure |
| IssueSyncEngine.BeginIs | src/issue_sync_engine.ts:183-234 | a delivery is refused for the first thing that is wrong with it, and otherwise published |
| IssueSyncEngine.FinishIs | src/issue_sync_engine.ts:234-261 | only a publication with status 200 is remembered, and only an accepted one takes the delivery off the queue |
| IssueSyncEngine.EnqueueKeeps | src/issue_sync_engine.ts:115-152 | a failure joins the end of the queue unless it is queued, the oldest give way, and map and list keep naming the same ids once |
| IssueSyncEngine.RemoveKeeps | src/issue_sync_engine.ts:154-160 | removing an id keeps map and list in step |
| IssueSyncEngine.RememberKeeps | src/issue_sync_engine.ts:98-108 | a new delivery goes last in the memory and the oldest give way |
| IssueSyncEngine.RunKeeps | src/issue_sync_engine.ts:90-160 | over every interleaving map and list agree, in first-failure order, within the limits |
| IssueSyncEngine.EmptyIdLeaks | src/issue_sync_engine.ts:142-149 | why ids must not be empty: with any limit, a queued empty id leaves its entry behind once overflow reaches it |
| IssueSyncEngine.DeliveredOnce | src/issue_sync_engine.ts:199-245 | a delivery that is remembered and not in flight is published again only after as many others as the memory holds, over every interleaving |
| IssueSyncEngine.StaysSingleIff | src/issue_sync_engine.ts:199-245 | no delivery comes to be in flight twice, or in flight and remembered, exactly unless one begins while one of its id is in flight |
| IssueSyncEngine.RunsSingleIff | src/issue_sync_engine.ts:199-245 | along a run no delivery is ever in flight twice exactly when none begins while one of its id is in flight |
| IssueSyncEngine.PublishedOnce | src/issue_sync_engine.ts:234-245 | in a state with no delivery in flight twice, one that is published is published again only after as many others as the memory holds |
| IssueSyncEngine.PublishedTwice | src/issue_sync_engine.ts:199-245 | a delivery that begins while one of its id is in flight can be published right after it |
| IssueSyncEngine.PagesTile | src/issue_sync_engine.ts:166-181 | following the cursors lists the queue once, in order |
| IssueSyncEngine.SnapshotRestores | src/issue_sync_engine.ts:263-346 | restoring a snapshot gives the same list and the same delivery ids with their times, apart from the id a plain object may swallow, and the same entries exactly when no event has white space around it |
| IssueSyncEngine.IssueSyncEngine.RememberDeliveryId | src/issue_sync_engine.ts:98-108 | sets the time of the id and drops the overflow from the front |
| IssueSyncEngine.IssueSyncEngine.EnqueueDlq | src/issue_sync_engine.ts:115-152 | the loop that shifts the overflow leaves what is specified, and returns the entry |
| IssueSyncEngine.IssueSyncEngine.RemoveDlq | src/issue_sync_engine.ts:154-160 | the entry and its one place in the list go |
| IssueSyncEngine.IssueSyncEngine.ListPage | src/issue_sync_engine.ts:166-181 | the entries of the page and where the next starts |
| IssueSyncEngine.IssueSyncEngine.ApplyDelivery | src/issue_sync_engine.ts:183-234 | the checks in order, up to the await of the publication |
| IssueSyncEngine.IssueSyncEngine.ResumeDelivery | src/issue_sync_engine.ts:234-261 | from its answer on; only a publication with status 200 is remembered |
| IssueSyncEngine.IssueSyncEngine.TakeSnapshot | src/issue_sync_engine.ts:263-291 | deliveries by id and entries in the order of the list |
| IssueSyncEngine.IssueSyncEngine.RestoreFrom | src/issue_sync_engine.ts:293-346 | reads back deliveries and entries until the queue is full |

## Left out

- HTTP routing, header and query parsing, WebSocket broadcast and reaping, and response bodies other than the ones above.
- Ed25519, SHA-256 and HMAC, the GitHub back ends, runtime configuration, observability and trigger dispatch.
- JsonReader.ReadValue: white space between tokens, escaped surrogates, and an exponent with a capital E or without a sign are not read; canonical text has none of them.
- StoreOutcomes.GetIs: once a put has gone over the limit a get may answer nothing; which records went is `StoreOutcomes.EvictsOldest` and `CacheStore.EvictExact`.
- Snapshot and restore of a relay's rooms and of its exchange log, acknowledgements, presence and reviews.
- Inbox and poll cursors: they are array indexes and shift when a room overflows.
- CacheSyncWorker.CacheSyncWorker.SyncOnce: nothing else touches the local relay during one round; each peer's log is the one its pull finds. `RelayNetwork` drops both.
- RelayService.RelayService.HandlePublish: rate limits, nonces and signatures are `RateLimit` and `NonceWindow`; the handler does not call them here, and payload checks are not modelled.
- RelayService.RelayService.HandleCacheExchangePush: the loop of one push without its awaits; `RelayService.PushOne` is one entry of it, and `RelayNetwork` interleaves the entries.
- RelayNetwork.ReachableProvenance: relays do not restart, and a worker does not pull from a peer again while an earlier push of its page still runs.
- Restless.NeverAtRest: one network; which failing turns keep a network busy is not characterised.
- Convergence.FullMeshConverges: peers that are not direct neighbours are not covered, since a longer path can win the dedupe.
- ShardedPush.ShardingPreservesMeaning: next_cursor is not claimed equal, since each shard numbers its own log; room tokens are a set of denied rooms.
- CacheStore.MemoryCacheStore.Put: sizes and times are unbounded naturals, and a fractional updatedAt is taken as already truncated.
- IssueAgreement.AgreementAfterTask: reads of the store do not fail and nothing is evicted; a restart in the middle of a task is not covered.
- IssueSync.SyncCompleteIff: the store does not change while it is read.
- RelayCacheAdapter.RelayCacheAdapter.PersistEnvelope: the queue's serial order of tasks is taken as given, and the final error is returned where the source drops it.
- GitServeSession.ReachableSession: what a response contains, the event callback and restoring a persisted session are not modelled.
- PktLine.ExtractIncomingRefs: works on decoded text; the decoding of bytes is not modelled.
- The receive-pack advertisement body and the path tests that choose between the synthesised bodies.
- NonceWindow.ReplaySafeIff: not claimed once a nonce is in flight twice; then `NonceWindow.AcceptedTogether` shows it fails.
- NonceWindow.NonceRegistry.VerifyPublish: key rotations and reviews take the same two parts; the header checks and the key registry are one flag of the request.
- IssueSyncEngine.RunsSingleIff: restoring a snapshot is not a step of a run.
- IssueSyncEngine.SnapshotRestores: the order of delivery ids after a restore follows the object's key order and is not claimed.
