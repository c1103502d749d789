# EventFabric: a Dafny model and its proofs

EventFabric is an event-sourcing framework over one transactional database. This
project models its protocols and proves what they promise over whole runs, for
every interleaving the database admits.

A transaction is modelled as the framework uses it: it works on a copy, or keeps its
writes on top of what is committed, and they are installed on commit or dropped on
rollback (`packages/postgres/src/unitofwork/pg-unit-of-work.ts:23-36`). An SQL statement is
modelled by its effect on rows. Code that changes things step by step is a method or a
class whose contract ties the new state to a function of the old one; the properties
of runs are lemmas about those functions. Where other workers can commit between two
transactions, a method named `Interference` stands for them: its contract, not its
body, is what the surrounding proof relies on.

| file | what it models |
|---|---|
| `CanonicalJson.dfy` | the canonical JSON serializer, as RFC 8785 sections 3.2.2 and 3.2.3 describe it for primitives and key order, and what storing a value in a jsonb column does to it |
| `HashChain.dfy` | UTF-8 bytes, the four kinds of HMAC preimage (HMAC: section 2 of RFC 2104), and their unique readability |
| `JsonReader.dfy`, `HashedText.dfy` | readers for JSON text (RFC 8259) and UTF-8 (RFC 3629), written apart from the serializer, and what they find in the hashed bytes |
| `EventChain.dfy`, `EventStore.dfy` | append with its version gate and hash chain, and the stream verifier |
| `CommandBus.dfy` | middleware composition, idempotency slots, the bus's retry and wait loops |
| `SagaRunner.dfy` | saga transitions with their compare-and-set, any interleaving of transactions, operators and retention |
| `SagaDispatch.dfy` | the saga command queue and any number of dispatchers |
| `AggregateRoot.dfy`, `Repository.dfy` | aggregates, and repositories with snapshots |
| `CatchUp.dfy` | the catch-up projector over one log with many tenants |
| `BankAccount.dfy`, `Transfers.dfy`, `TransferProjections.dfy` | the account ledger and the transfer chain that three projections drive |
| `Outbox.dfy` | the outbox runner in batch mode |
| `Claims.dfy` | the insurance claim and its settlement projection |

Conventions:

- A string is a sequence of Unicode scalar values; the order of keys is proved to be
  the order of their UTF-16 code units.
- A number in a payload is its `JSON.stringify` text; a non-finite number, a bigint and
  a function are separate values that the serializer refuses.
- The hash is a parameter `h`. Soundness requires only that it has no collision among
  the finitely many preimages that occur.
- Money is `real`; the rounding of floating-point numbers is not modelled.
- Clocks, generated ids and handler outcomes are parameters, or are chosen
  arbitrarily.
- Global positions become visible in increasing order, and handlers are deterministic.

Claims that do not hold for the code as it is are stated with their exact condition
and a concrete run where they fail:

- A full page of dismissed events stops a catch-up projection although live events
  follow, because the store filters after its LIMIT (`CatchUp.DrainCompletes`).
- A claim submitted with an empty policy id can be submitted, approved and paid again
  (`Claims.PaidOnceIffPolicyNamed`).
- Opening an account through the aggregate after a deposit overwrites the balance
  (`BankAccount.LedgerAgreement`, `BankAccount.OpenOverwritesDeposit`).
- An unchained append on a stream with a head leaves a stream that no longer verifies,
  and nothing repairs it (`EventChain.AppendKeepsUnbroken`, `EventStore.StoreChainComplete`).
- A middleware outside the idempotency middleware that swallows an error which code
  has thrown commits an in-flight slot; the error of a failed SQL statement commits
  nothing, and the send still reports a success (`CommandBus.InFlightCommitted`).
- Deleting a terminal saga instance is unsafe exactly when a transaction has loaded
  its row and a new instance of the same id can be mistaken for the loaded one at the
  same version (`SagaRunner.CleanupSafeIff`); for a saga that keeps what its first
  event said, that is whenever a transaction has loaded the row, and then some run has
  the effect of no serial order (`SagaRunner.QuietIsExact`, `SagaRunner.RelayCleanupIff`).
  The failing runs are built from the steps of the model (`SagaRunner.StaleCommit`).
- An aggregate that is saved again after its save was rolled back can write a snapshot
  that is not the state of its stream: some run does so exactly when the repository
  takes snapshots and one event leads from two histories to different states
  (`Repository.ReuseSafeIff`, with the run in `Repository.Corrupts`). Reloading or
  dropping the aggregate first is enough (`Repository.SnapshotAgreement`).
- A dead letter that is put back is acknowledged without being handled by a projection
  whose checkpoint has passed it (`Outbox.RequeuedHandledOnlyAhead`).
- A transfer whose destination is closed, or not named, after its withdrawal can never
  be paid in: the deposit projection rolls back every batch that reaches it, and no
  step of anyone unblocks it. Closing such an account goes through. Polling settles
  every transfer exactly when this has not happened (`TransferProjections.ThrowsExactly`,
  `TransferProjections.CloseBlocks`, `TransferProjections.OnceBlocked`,
  `TransferProjections.BankDb.PollUntilQuiet`).
- The tenants that a discovery cuts off at its limit are the same every time, and
  catch-up never moves them (`CatchUp.CatchUpProjector.CatchUpProjection`).
- A claim that is denied before it was submitted can be submitted and go on; with its
  submission first, a denial is final (`Claims.DeniedThenSubmitted`, `Claims.ClosedForGood`).
- Handling the start of a transfer again withdraws again whenever the money is there;
  only the checkpoint prevents it (`Transfers.SecondHandlingWithdraws`).
- An expected version of -1 does not bypass the version check, as a comment in
  `examples/insurance-api/src/projections/claim-settlement-projection.ts:82` says; the
  gate refuses it (`EventStore.NegativeVersionRefused`).

## Model

| member | source | states |
|---|---|---|
| `CanonicalJson.LessTotal` | packages/core/src/integrity/hash-chain.ts:62 | the order of keys used by sort is total: of two different keys exactly one comes first |
| `CanonicalJson.SortKeysSorts` | packages/core/src/integrity/hash-chain.ts:62 | sorting the keys of an object gives an ordered list of the same keys |
| `CanonicalJson.SortedUnique` | packages/core/src/integrity/hash-chain.ts:62 | there is only one ordered list of a set of keys, so insertion order cannot show |
| `CanonicalJson.EscapeReadable` | packages/core/src/integrity/hash-chain.ts:44 | a string's escaped text ends at its closing quote: two escaped strings at the start of one text are equal, with equal rests |
| `CanonicalJson.QuoteReadable` | packages/core/src/integrity/hash-chain.ts:44 | the same for whole string literals |
| `CanonicalJson.SerializeMeaning` | packages/core/src/integrity/hash-chain.ts:41-66 | the serializer succeeds exactly on chainable values and prints the value's logical content: undefined properties gone, undefined items null, keys sorted |
| `CanonicalJson.UniqueReadability` | packages/core/src/integrity/hash-chain.ts:41-66 | canonical text is uniquely readable: two values printed at the start of one text, each followed by a delimiter or a closed value, are the same value with the same rest |
| `CanonicalJson.StoredNormalise` | packages/core/src/integrity/hash-chain.ts:23-27 | storing a chainable value in a jsonb column and reading it back keeps its logical content |
| `CanonicalJson.StoredSerializesAlike` | packages/core/src/integrity/hash-chain.ts:23-27 | write-time and verify-time serializations of a payload are the same text |
| `CanonicalJson.SerializeInjective` | packages/core/src/integrity/hash-chain.ts:37-66 | two chainable values have the same canonical text if and only if they have the same logical content |
| `CanonicalJson.SameLogicalField` | packages/core/src/integrity/hash-chain.ts:60-63 | objects with the same logical content have the same defined keys and the same content under each |
| `JsonReader.StringReadsBack` | packages/core/src/integrity/hash-chain.ts:44 | a string literal of the canonical text, read by the rules of RFC 8259, is the string |
| `JsonReader.EscapeShortest` | packages/core/src/integrity/hash-chain.ts:44 | each character is written in the shortest way JSON has for it, as itself wherever that is allowed, with lower-case hexadecimal digits |
| `JsonReader.DecimalReadsBack` | packages/core/src/integrity/hash-chain.ts:45-53 | a printed version number is a numeral without leading zeros, and denotes the number |
| `JsonReader.ReadsBack` | packages/core/src/integrity/hash-chain.ts:41-66 | a printed value, read by a JSON reader that knows nothing of the serializer, is the value, and the reader stops where the value ends |
| `JsonReader.CanonicalReadsBack` | packages/core/src/integrity/hash-chain.ts:37-66 | the canonical text of a payload is JSON text for its logical content |
| `JsonReader.ContentOf` | packages/core/src/integrity/hash-chain.ts:60-64 | the logical content of an object is its defined properties under ascending keys, each with its own content |
| `JsonReader.ContentOfItems` | packages/core/src/integrity/hash-chain.ts:57-59 | the logical content of an array is its items in order, null where undefined |
| `HashChain.LessIsCodeUnitOrder` | packages/core/src/integrity/hash-chain.ts:62 | the key order of the model is the order of UTF-16 code units that sort uses |
| `HashChain.Utf8Readable` | packages/core/src/integrity/hash-chain.ts:104 | UTF-8 bytes determine the text: of two encodings that begin one byte string, one text is a prefix of the other |
| `HashChain.ObjectBytesReadable` | packages/core/src/integrity/hash-chain.ts:60-64 | canonical object bytes are prefix-free and injective |
| `HashChain.ComputeEventHash` | packages/core/src/integrity/hash-chain.ts:89-106 | an event is hashed exactly when its payload is chainable, and then its digest is that of the previous hash followed by the canonical event |
| `HashChain.ComputeAnchorHash` | packages/core/src/integrity/hash-chain.ts:148-159 | the accumulator loop digests the previous anchor hash followed by every member object and head, in order |
| `HashChain.EventPreimageInjective` | packages/core/src/integrity/hash-chain.ts:89-106 | event preimages are equal if and only if previous hash and every covered field are, payloads up to logical content |
| `HashChain.StreamGenesisInjective` | packages/core/src/integrity/hash-chain.ts:113-123 | a stream genesis preimage determines tenant, aggregate name and id |
| `HashChain.AnchorGenesisInjective` | packages/core/src/integrity/hash-chain.ts:126-131 | an anchor genesis preimage determines the tenant |
| `HashChain.MembersReadableBytes` | packages/core/src/integrity/hash-chain.ts:151-157 | the concatenation of member objects and 32-byte heads decodes uniquely |
| `HashChain.AnchorPreimageInjective` | packages/core/src/integrity/hash-chain.ts:148-159 | an anchor preimage determines the previous anchor hash and the list of members |
| `HashChain.PreimagesDisjoint` | packages/core/src/integrity/hash-chain.ts:89-159 | event, stream-genesis, anchor-genesis and anchor preimages never coincide |
| `HashedText.Utf8Decodes` | packages/core/src/integrity/hash-chain.ts:104 | the encoded bytes, decoded by the rules of RFC 3629, are the text |
| `HashedText.EventPreimageSays` | packages/core/src/integrity/hash-chain.ts:89-106 | the hashed bytes of an event are the previous hash and then the JSON text of exactly ten members: identity, versions as numerals, event id, type, correlation and causation id or null, and the payload |
| `HashedText.StreamGenesisSays` | packages/core/src/integrity/hash-chain.ts:113-123 | the genesis of a stream hashes its tag and the JSON text of tenant, aggregate name and id |
| `HashedText.AnchorGenesisSays` | packages/core/src/integrity/hash-chain.ts:126-131 | the genesis of a tenant's anchors hashes its tag and the JSON text of the tenant |
| `HashedText.AnchorPreimageSays` | packages/core/src/integrity/hash-chain.ts:148-159 | an anchor hashes the previous anchor's hash and then, of each member in order, the JSON text of its identity and version and its head |
| `HashChain.HashesEqualMeans` | packages/core/src/integrity/hash-chain.ts:163-166 | two digests are equal only if both are there |
| `EventChain.WalkMeaning` | packages/postgres/src/pg-event-store.ts:619-652 | the verifier's loop gets to the end exactly on consecutive rows linked by their hashes, and has then recomputed the head |
| `EventChain.VerifiedMeaning` | packages/postgres/src/pg-event-store.ts:609-658 | the verifier accepts exactly when nothing is protected and no head is stored, or the protected rows are consecutive, linked from genesis and end in the stored head |
| `EventChain.BrokenWhy` | packages/postgres/src/pg-event-store.ts:609-658 | what a rejection reports: the first row that has no hash, is not of the next version or is not linked, with the number of rows before it and the first of these reasons; or a head that is not the last row's; or a head without protected rows |
| `EventChain.HeadDeterminesChain` | packages/postgres/src/pg-event-store.ts:619-658 | two chains from one genesis that end in the same hash cover the same events |
| `EventChain.VerifierSound` | packages/postgres/src/pg-event-store.ts:609-658 | with the head that sealed the first k rows, the verifier accepts only rows whose protected suffix is exactly those k, in content and hash |
| `EventChain.FirstBrokenIsFirstAltered` | packages/postgres/src/pg-event-store.ts:645-648 | if only covered content was changed, firstBrokenAt is the version of the first changed row and eventsChecked the number of rows before it |
| `EventChain.AppendKeepsUnbroken` | packages/postgres/src/pg-event-store.ts:254-334 | an append keeps a stream verifiable if and only if it is chained or the stream has no head; otherwise it leaves a hole |
| `EventChain.HoleStays` | packages/postgres/src/pg-event-store.ts:285-334 | no later append closes a hole |
| `EventChain.HoleBreaks` | packages/postgres/src/pg-event-store.ts:625-628 | a stream with a hole does not verify |
| `EventChain.AppendedVersions` | packages/postgres/src/pg-event-store.ts:254-371 | versions stay exactly 1..current through any append |
| `EventChain.ChainComplete` | packages/postgres/src/pg-event-store.ts:254-371 | after any run of appends the versions are 1..current, and the stream verifies with every protected event counted if and only if chaining was never switched off on it |
| `EventStore.StreamFormatReadable` | packages/postgres/src/pg-event-store.ts:192-203 | the bytes the store hashes for a stream's rows are uniquely readable and differ from its genesis |
| `EventStore.FaithfulKeeps` | packages/postgres/src/pg-event-store.ts:345-355 | a row read back from the events table has the covered content that was hashed |
| `EventStore.RowHashLinks` | packages/postgres/src/pg-event-store.ts:633-644 | the hash of a row is the chain's link, where the serializer accepts the row |
| `EventStore.PgEventStore.EnableHashChainFor` | packages/postgres/src/pg-event-store.ts:152-160 | an aggregate name is added to the chained ones and none is removed |
| `EventStore.PgEventStore.ChainBatch` | packages/postgres/src/pg-event-store.ts:177-208 | the hashes of a batch are the heads of its prefixes; an unchainable payload is an error |
| `EventStore.PgEventStore.Append` | packages/postgres/src/pg-event-store.ts:220-390 | append succeeds exactly at the right version with payloads that can be stored, and hashed where the name is chained; then the old rows stay and row i behind them has the version after expected, the id, type, schema version and stored payload of event i, the append's correlation and causation ids, and a hash exactly if chained; an error changes nothing and says which of the two it was; no other stream changes |
| `EventStore.PgEventStore.AppendRows` | packages/postgres/src/pg-event-store.ts:254-371 | the three branches of the version gate and the insert have the effect of the append function on the stream, its chain head included |
| `EventStore.AppendMeans` | packages/postgres/src/pg-event-store.ts:220-390 | the append function, said in the fields of the given events |
| `EventStore.PgEventStore.InsertedRows` | packages/postgres/src/pg-event-store.ts:336-371 | the rows of one insert are the raw rows with stored payloads and their hashes |
| `EventStore.PgEventStore.FindChainStart` | packages/postgres/src/pg-event-store.ts:609-610 | the verifier starts at the first row that has a hash |
| `EventStore.PgEventStore.WalkRows` | packages/postgres/src/pg-event-store.ts:619-652 | the verifier's loop computes the walk over the protected rows from genesis |
| `EventStore.PgEventStore.VerifyStream` | packages/postgres/src/pg-event-store.ts:579-659 | verifyStream returns the verification of the stored rows against the stored head, reason and position included |
| `EventStore.StoreChainComplete` | packages/postgres/src/pg-event-store.ts:177-371 | chain completeness for the store's own format and payloads that went through jsonb |
| `EventStore.StoreVerifierSound` | packages/postgres/src/pg-event-store.ts:609-658 | verifier soundness for rows that a run of appends built, with no collision among the preimages involved |
| `EventStore.NegativeVersionRefused` | packages/postgres/src/pg-event-store.ts:254-334 | a negative expected version is refused on every stream the store can hold |
| `CommandBus.Dispatching.Dispatch` | packages/mediator/src/middleware.ts:26-36 | the captured counter only grows, a second next() at a passed index throws, a middleware that never calls next() stops the chain there, and an error gets out exactly as the middlewares let it: one of their own always, that of next() unless caught |
| `CommandBus.Dispatching.Invoke` | packages/mediator/src/middleware.ts:22-37 | whatever the middlewares call, the terminal handler runs at most once, not at all past a middleware that never calls next(), and exactly once on a normal return of middlewares that pass everything on; through transparent middlewares the outcome is the handler's |
| `CommandBus.TransactedExact` | packages/mediator/src/middleware.ts:91-120 | a deduplicated transaction keeps the slots exact (none in flight; done if and only if the handler has committed once), a success leaves its slot done, a failure or a busy answer changes nothing |
| `CommandBus.OptedOut` | packages/mediator/src/middleware.ts:80-82 | a command type that opts out runs its handler on every send, whatever the slots say; an error changes nothing and is passed on as a conflict or not |
| `CommandBus.SecondSend` | packages/mediator/src/middleware.ts:101-112 | after a success the next send of the key does not run its handler, and returns what the slot has stored of the first result, null for none |
| `CommandBus.InFlightBlocks` | packages/mediator-postgres/src/pg-idempotency-store.ts:92-179 | a slot left in flight makes every send busy until the watchdog marks it, after which the next send runs; the watchdog touches nothing else |
| `CommandBus.InFlightCommitted` | packages/mediator/src/middleware.ts:105-120 | a committed in-flight slot comes from exactly one thing: an outer middleware swallowed an error that code threw after the slot was claimed; after the error of a failed statement the COMMIT changes nothing, and the send reports a success |
| `CommandBus.SuccessesMatchSlot` | packages/mediator-postgres/src/pg-idempotency-store.ts:35-170 | over any sequence of transactions and watchdog resets every success of a key shows the content of that key's done slot |
| `CommandBus.BusDeduplicates` | packages/mediator/src/command-bus.ts:172-192 | with watchdog resets in between, sends of one tenant and key commit at most one handler run, exactly one if any succeeded, no slot is left in flight, and all successes return the same result up to JSON, void being null |
| `CommandBus.CommandBus.Transaction` | packages/mediator/src/middleware.ts:79-121 | claim, handler and completion in one transaction have the effect of the transaction function; an error leaves the database as it was |
| `CommandBus.CommandBus.TryOnce` | packages/mediator/src/command-bus.ts:172-192 | one transaction of a send answers as the transaction function does on what others have committed by then |
| `CommandBus.CommandBus.Send` | packages/mediator/src/command-bus.ts:172-192 | the retry loop inside the wait loop ends; it runs transactions exactly as long as one is due (a conflict with attempts left, a held slot with time left) and answers with the last; a rejection means a last error that was no conflict, or maxAttempts conflicts in a row; a timeout means a held slot and no time left; a normal return means the command is committed exactly once and gives the content of its slot, an error means that no transaction of this call committed anything |
| `SagaRunner.UpcastOnce` | packages/sagas/src/saga-runner.ts:134-150 | what an applied delivery stores needs no further upcast, and its version is the next one |
| `SagaRunner.EventApplied` | packages/sagas/src/saga-runner.ts:134-257 | an active instance takes an event past its last position: the reducer runs on the upcast state if the stored one is older and on the stored one otherwise; state, version, status, schema and position of the result, and the commands |
| `SagaRunner.TimerApplied` | packages/sagas/src/saga-runner.ts:134-257 | a timer likewise, without a timer reducer leaving state and queue; the last event position is kept |
| `SagaRunner.FirstEventApplied` | packages/sagas/src/saga-runner.ts:80-110 | a starting event makes an instance from its initial state, at version 1, on which the reducer has run once |
| `SagaRunner.SkippedExactly` | packages/sagas/src/saga-runner.ts:80-132 | a delivery is skipped for a missing instance, a terminal one or a position that is not new, and for nothing else |
| `SagaRunner.DeliveryWrites` | packages/sagas/src/saga-runner.ts:196-267 | an applied delivery writes its own instance and appends its commands in order, each caused by the event; any other changes nothing |
| `SagaRunner.UncorrelatedSkipped` | packages/sagas/src/saga-runner.ts:80-83 | an event that correlates to no instance changes nothing |
| `SagaRunner.ReactivatedExactly` | packages/sagas-postgres/src/pg-saga-state-store.ts:176-192 | only a failed instance is reactivated; its version goes up and its state stays |
| `SagaRunner.AbortUndoes` | packages/core/src/projections/async-projection-runner.ts:151-243 | an aborted transaction leaves nothing, and the rows it had locked are free |
| `SagaRunner.SagaWorker.Update` | packages/sagas-postgres/src/pg-saga-state-store.ts:93-124 | the compare-and-set succeeds exactly when the row is at the expected version, and then replaces it |
| `SagaRunner.SagaWorker.Deliver` | packages/sagas/src/saga-runner.ts:63-267 | whatever others commit meanwhile, a delivery has exactly its serial effect on what they committed, or none; a skip reads nothing stale and gives its reason; a lost race means the instance did change |
| `SagaRunner.StepSerial` | packages/sagas/src/saga-runner.ts:198-267 | each step of the interleaving (load, compare-and-set, commit, abort, reactivation, deletion of a spared row) keeps the invariant and has the serial effect of what it logs |
| `SagaRunner.CommitSerial` | packages/core/src/projections/async-projection-runner.ts:151-217 | a transaction that has been through any number of deliveries commits their serial effect |
| `SagaRunner.CasReads` | packages/sagas-postgres/src/pg-saga-state-store.ts:93-124 | what passes the compare-and-set does to the row what it would do to the instance that was loaded |
| `SagaRunner.Serializable` | packages/sagas/src/saga-as-async-projection.ts:37-61 | after any interleaving of transactions, each with any number of deliveries, with crashes, operators and deletions of spared rows, instances and command queue are those of applying the committed deliveries one by one in commit order; a transaction that lost a race leaves nothing, its earlier deliveries included |
| `SagaRunner.VersionDeterminesInstance` | packages/sagas-postgres/src/pg-saga-state-store.ts:93-124 | as long as a row is not deleted, an instance seen again at the same version is the same instance |
| `SagaRunner.StaleCommit` | packages/sagas-postgres/src/pg-saga-state-store.ts:137-164 | after the deletion of a row that a transaction has loaded, for which some new instance at that version would react differently, some run does not have the effect of its serial history |
| `SagaRunner.CleanupSafeIff` | packages/sagas-postgres/src/pg-saga-state-store.ts:137-164 | all runs after a deletion have the effect of their serial histories if and only if every transaction that has loaded the row holds an instance that no new one can be mistaken for |
| `SagaRunner.QuietIsExact` | packages/sagas-postgres/src/pg-saga-state-store.ts:137-164 | for sagas whose instances can start again differently, all runs after a deletion are serial if and only if no transaction has loaded the row |
| `SagaRunner.RelayRenews` | packages/sagas-postgres/src/pg-saga-state-store.ts:137-164 | a saga that passes on what its first event said is such a saga |
| `SagaRunner.RelayCleanupIff` | packages/sagas-postgres/src/pg-saga-state-store.ts:137-164 | for that saga, every run after a deletion has the effect of some serial order of what it committed if and only if no transaction had loaded the row |
| `SagaRunner.LastIsGreatest` | packages/sagas/src/saga-runner.ts:115-120 | the last applied position is the greatest position taken so far |
| `SagaRunner.RedeliveryIdempotent` | packages/sagas/src/saga-runner.ts:80-132 | under duplicates and reordering, state, version and commands are those of the pure reducer over the deliveries that exceed every earlier position, with timers in between, cut at the first end |
| `SagaRunner.TerminalStays` | packages/sagas/src/saga-runner.ts:111-113 | a terminal instance never changes again |
| `SagaDispatch.DispatchKeyInjective` | packages/sagas/src/saga-command-dispatcher.ts:248-268 | colons in names and ids cannot make the idempotency keys of two rows coincide |
| `SagaDispatch.StepKeepsInv` | packages/sagas-postgres/src/pg-saga-command-queue.ts:58-273 | every step (enqueue, claim, send, settle, crash, watchdog reset, requeue, purge, other traffic) keeps: an acknowledged row, or one about to be, has its slot done |
| `SagaDispatch.ExactlyOnceDispatch` | packages/sagas/src/saga-command-dispatcher.ts:118-185 | in every run of any number of dispatchers each enqueued command commits its effects at most once, and exactly once if its row was acknowledged |
| `SagaDispatch.DispatchesAreOwn` | packages/sagas/src/saga-command-dispatcher.ts:248-268 | the effects counted for a row come only from sending that row |
| `SagaDispatch.RowTenantWins` | packages/sagas/src/saga-command-dispatcher.ts:248-268 | what the send of a row commits is under the row's own tenant and the key of its saga, instance and id |
| `SagaDispatch.OperatorsOnRow` | packages/sagas-postgres/src/pg-saga-command-queue.ts:181-273 | a reset puts a row in hand back in line with its attempts, a requeue a failed one with none, a purge takes a failed one away; nothing else changes |
| `SagaDispatch.RowsNotLost` | packages/sagas-postgres/src/pg-saga-command-queue.ts:124-232 | a queued row disappears only by an acknowledgement, with its effects committed once, or by the operator's purge of a failed row |
| `SagaDispatch.AttemptsBounded` | packages/sagas/src/saga-command-dispatcher.ts:158-185 | without watchdog resets no row is attempted more than maxAttempts times between requeues, and a row is marked failed exactly when it has used them up |
| `SagaDispatch.ResetExceedsBudget` | packages/sagas-postgres/src/pg-saga-command-queue.ts:245-273 | a watchdog reset keeps the attempt counted but puts a row that has used up its attempts back in line |
| `SagaDispatch.AttemptsAndResets` | packages/sagas-postgres/src/pg-saga-command-queue.ts:245-273 | in any run, watchdog resets included, a row's attempts are at most maxAttempts plus the number of its resets |
| `SagaDispatch.ClaimableExactly` | packages/sagas-postgres/src/pg-saga-command-queue.ts:78-122 | a row can be claimed exactly if it is pending, due and not locked; with fair claiming one row of each tenant at most, its oldest waiting one |
| `SagaDispatch.TallyCounts` | packages/sagas/src/saga-command-dispatcher.ts:118-188 | the counters of a round are the numbers of rows acknowledged, given up and released |
| `SagaDispatch.SagaCommandDispatcher.ClaimBatch` | packages/sagas-postgres/src/pg-saga-command-queue.ts:67-122 | a claim takes exactly the oldest rows that are pending, due and not locked, or the oldest such row of each tenant, up to the batch size, and counts an attempt on each |
| `SagaDispatch.SagaCommandDispatcher.SendHead` | packages/sagas/src/saga-command-dispatcher.ts:144-150 | a send that succeeds leaves the row's slot done, whatever other dispatchers do meanwhile; it fails only if no run of the handler would have completed |
| `SagaDispatch.SagaCommandDispatcher.SettleHead` | packages/sagas/src/saga-command-dispatcher.ts:150-185 | a row is acknowledged exactly after a successful send whose acknowledgement works, and is then gone; otherwise it is given up at maxAttempts and waits again below it, with its attempts; every other row, the bus and every other dispatcher stay as they are |
| `SagaDispatch.SagaCommandDispatcher.RunOnce` | packages/sagas/src/saga-command-dispatcher.ts:118-188 | the rows of the claimed page are settled once each, in order, and counted under what happened to them: dispatched rows are gone with their effects committed exactly once, failed ones are given up, released ones wait again; a row fails only if its acknowledgement does or no run of its handler completes |
| `Aggregates.ReplayConcat` | packages/core/src/aggregates/aggregate-root.ts:33-38 | replaying a history is replaying its first part and then the rest |
| `Aggregates.AggregateRoot.LoadFromHistory` | packages/core/src/aggregates/aggregate-root.ts:33-38 | the state becomes the replay of the history and the version that of its last event; an event without a handler is an error that leaves what was applied before it |
| `Aggregates.AggregateRoot.Raise` | packages/core/src/aggregates/aggregate-root.ts:40-48 | raised events change the state and become pending in order, up to the first one without a handler |
| `Aggregates.AggregateRoot.PullPendingEvents` | packages/core/src/aggregates/aggregate-root.ts:76-80 | pending events are handed over once |
| `Repository.LoadAgrees` | packages/core/src/repository.ts:28-47 | loading through a right snapshot gives the newest version and the state of a full replay |
| `Repository.LoadThroughSnapshot` | packages/postgres/src/snapshots/pg-snapshot-store.ts:36-91 | a snapshot of the current schema is used as it is, an older one goes through its upcaster and without one the load fails; the rest of the stream is replayed on top |
| `Repository.SaveKeepsRight` | packages/core/src/repository.ts:49-101 | a committed save leaves the stream replayable, the snapshot right and the saver up to date |
| `Repository.SnapshotAdvances` | packages/postgres/src/snapshots/pg-snapshot-store.ts:56-78 | a save never replaces a snapshot by an older one, and a due snapshot is of the newest version |
| `Repository.StepKeepsInv` | packages/core/src/repository.ts:28-101 | loads, raises, saves, rejected saves, failures in and after the append keep the snapshot equal to a replay of its prefix, if the saver's last save was not rolled back |
| `Repository.DroppedGone` | packages/core/src/repository.ts:28-101 | dropping an aggregate changes nothing that is stored and no other holder |
| `Repository.SnapshotAgreement` | packages/core/src/repository.ts:28-101 | after any run of many holders and for any snapshot interval, loading through the latest snapshot succeeds and agrees with full replay, if an aggregate is loaded again or dropped after a rolled-back save before it is saved |
| `Repository.Corrupts` | packages/core/src/repository.ts:58-101 | where snapshots are taken and one event leads from two histories to different states, a run of the model's own steps ends in a wrong snapshot |
| `Repository.ReuseSafeIff` | packages/core/src/repository.ts:58-101 | in all runs, with aggregates saved again after rolled-back saves, loading agrees with full replay if and only if the repository takes no snapshots or no two histories can be confused |
| `Repository.Repository.HistoryFrom` | packages/core/src/repository.ts:36-40 | the history read behind a snapshot is the rest of the stream with its versions |
| `Repository.Repository.LoadAggregate` | packages/core/src/repository.ts:28-47 | load returns an aggregate with the version and state of the load function, or its error |
| `Repository.Repository.SaveAggregate` | packages/core/src/repository.ts:49-101 | save has the effect of the save function on stream, snapshot and aggregate; a failure in or after the append rolls stream and snapshot back, keeps the new version if it was set, and drains the pending events |
| `CatchUp.RowsOf` | packages/postgres/src/pg-event-store.ts:503-511 | the rows read for a tenant are that tenant's, in order, and leave none out |
| `CatchUp.PageMeans` | packages/postgres/src/pg-event-store.ts:487-513 | a page is exactly the tenant's live events between the checkpoint and the page's last event |
| `CatchUp.TenantBatch` | packages/core/src/projections/catch-up-projector.ts:114-153 | a batch that works moves the checkpoint forward inside the log |
| `CatchUp.AppendedIsNext` | packages/postgres/src/pg-event-store.ts:487-513 | an appended event is the one row of its tenant behind the old end of the log, and of no other tenant |
| `CatchUp.BatchRefines` | packages/core/src/projections/catch-up-projector.ts:114-153 | a batch extends the handled events by the next live ones, in order and once each, and folds the handler over them |
| `CatchUp.CatchUpRefines` | packages/core/src/projections/catch-up-projector.ts:114-153 | after any run of batches, failures, appends and dismissals each read model is the fold of the handler over its tenant's events up to the checkpoint, in order, once each, less dismissed ones |
| `CatchUp.HandledIsLive` | packages/core/src/projections/catch-up-projector.ts:139-142 | without late dismissals the handled events are exactly the live ones up to the checkpoint |
| `CatchUp.TenantIsolation` | packages/core/src/projections/catch-up-projector.ts:198-225 | the outcome for a tenant depends on that tenant's own events only |
| `CatchUp.DrainCompletes` | packages/postgres/src/pg-event-store.ts:487-513 | a tenant whose handler does not fail is processed to the end if and only if no full page of dismissed rows stands before a live one |
| `CatchUp.NeverBlocked` | packages/core/src/projections/catch-up-projector.ts:139-142 | a projection that includes dismissed events is never stopped that way |
| `CatchUp.CatchUpProjector.ProcessTenantBatch` | packages/core/src/projections/catch-up-projector.ts:114-153 | one batch has the effect of the batch function on its tenant, nothing on the others, and nothing at all if the handler fails |
| `CatchUp.CatchUpProjector.Filtered` | packages/postgres/src/pg-event-store.ts:512 | the filter keeps the live rows in order |
| `CatchUp.CatchUpProjector.HandleAll` | packages/core/src/projections/catch-up-projector.ts:139-142 | the handler loop folds the handler over the page |
| `CatchUp.CatchUpProjector.Discover` | packages/postgres/src/pg-event-store.ts:526-541 | discovery returns the tenants of the log, each once and in order, and of more than 10000 the first 10000 |
| `CatchUp.CatchUpProjector.Pass` | packages/core/src/projections/catch-up-projector.ts:202-224 | a pass gives every pending tenant one batch, drops those that had nothing pending or failed, and leaves less to do |
| `CatchUp.CatchUpProjector.CatchUpProjection` | packages/core/src/projections/catch-up-projector.ts:185-226 | the round-robin loop ends; every discovered tenant has had one batch a pass for as long as its batches worked; tenants are left pending only at the cap on passes, and otherwise each is where draining it alone would end; tenants beyond the limit of the discovery do not move |
| `BankAccount.AccountAggregate.Deposit` | examples/banking-api/src/domain/account.aggregate.ts:72-88 | deposit raises what the decision function says, with the new balance, or throws and changes nothing |
| `BankAccount.AccountAggregate.Withdraw` | examples/banking-api/src/domain/account.aggregate.ts:90-109 | withdraw likewise, refusing closed accounts, amounts that are not positive and missing funds |
| `BankAccount.AccountAggregate.Open` | examples/banking-api/src/domain/account.aggregate.ts:54-70 | open likewise; an empty customer id does not count as opened |
| `BankAccount.AccountAggregate.TransferOut` | examples/banking-api/src/domain/account.aggregate.ts:111-131 | transferOut likewise |
| `BankAccount.AccountAggregate.TransferIn` | examples/banking-api/src/domain/account.aggregate.ts:133-150 | transferIn likewise |
| `BankAccount.AccountAggregate.Close` | examples/banking-api/src/domain/account.aggregate.ts:152-165 | close likewise, only at balance zero |
| `BankAccount.DecidedIsLegal` | examples/banking-api/src/domain/account.aggregate.ts:54-165 | every event a command raises records the balance that the account then has |
| `BankAccount.CommandsAccepted` | examples/banking-api/src/domain/account.aggregate.ts:54-165 | which commands go through, in which order the tests are reported, and that a withdrawal of what was just paid in restores the account |
| `BankAccount.AccountMeans` | examples/banking-api/src/domain/account.aggregate.ts:16-43 | an account is its last opening's customer's, and closed exactly if it was closed |
| `BankAccount.WritersKeepLedger` | packages/postgres/src/pg-event-store.ts:314-334 | any number of concurrent load-decide-append writers keep the ledger, thanks to the version gate |
| `BankAccount.UngatedLosesUpdates` | packages/postgres/src/pg-event-store.ts:314-334 | without the gate two withdrawals of the whole balance both go through |
| `BankAccount.LedgerAgreement` | examples/banking-api/src/domain/account.aggregate.ts:72-165 | every recorded balance is openings plus deposits minus withdrawals so far if and only if no opening overwrites a balance |
| `BankAccount.OpenOverwritesDeposit` | examples/banking-api/src/domain/account.aggregate.ts:54-70 | opening after a deposit goes through and loses the deposit |
| `BankAccount.NeverNegative` | examples/banking-api/src/domain/account.aggregate.ts:90-131 | no balance is ever negative if and only if no opening balance is |
| `BankAccount.ClosedForever` | examples/banking-api/src/domain/account.aggregate.ts:152-165 | a closed account is at zero and its close is its last event |
| `Transfers.TransactionAggregate.Complete` | examples/banking-api/src/domain/transaction.aggregate.ts:101-115 | complete raises a completion from pending or started and throws otherwise |
| `Transfers.TransactionAggregate.Fail` | examples/banking-api/src/domain/transaction.aggregate.ts:117-131 | fail raises a failure from pending or started and throws otherwise |
| `Transfers.TermsStable` | examples/banking-api/src/domain/transaction.aggregate.ts:21-42 | accounts and amount of a transfer are fixed once it is initiated |
| `Transfers.RequestsAccepted` | examples/banking-api/src/app.ts:248-412 | which openings, transfer starts and commands go through, and the account or transfer they lead to |
| `Transfers.StatusAgrees` | examples/banking-api/src/domain/transaction.aggregate.ts:21-42 | in every run a transfer's status is completed or failed exactly if it has the one event that says so, and pending exactly if it was not started |
| `Transfers.ReactionAnswers` | examples/banking-api/src/projections/eventual-transfer-projections.ts:39-195 | each handler writes exactly one answer to the event it is for (a withdrawal leg or a failure; a deposit leg; a completion) and nothing for others |
| `Transfers.SettledWithTerms` | examples/banking-api/src/domain/transaction.aggregate.ts:101-131 | a transfer is completed or failed under its own accounts and amount, and only while it is neither |
| `Transfers.HandlerKeepsInv` | examples/banking-api/src/projections/eventual-transfer-projections.ts:44-193 | a handler that loaded account and transaction from older logs, each its own, keeps the flow of every transfer if the streams it appends to did not change since |
| `Transfers.DepositSeesTerms` | examples/banking-api/src/projections/eventual-transfer-projections.ts:118-126 | the transfer that the deposit handler reads without a gate still has its current accounts and amount |
| `Transfers.BatchKeepsInv` | packages/core/src/projections/catch-up-projector.ts:122-152 | a batch whose handlers, and each load of them, saw whatever was committed at the time, and whose appends pass their gates, acts as if its handlers had run one by one on the current log |
| `Transfers.StepKeepsInv` | examples/banking-api/src/app.ts:384-412 | account openings and commands, transfer starts, and committed or rolled-back batches keep every transfer's flow |
| `Transfers.TransferOnce` | examples/banking-api/src/projections/eventual-transfer-projections.ts:44-193 | in every run a transfer is withdrawn at most once, deposited at most once and only after that, completed at most once, and never both failed and withdrawn |
| `Transfers.LegsFit` | examples/banking-api/src/projections/eventual-transfer-projections.ts:73-159 | both legs of a transfer are on its accounts and over its amount |
| `Transfers.QuiescentTransfers` | examples/banking-api/src/projections/eventual-transfer-projections.ts:44-193 | once every projection has passed the whole log, each started transfer is completed with one withdrawal and one deposit, or failed with neither |
| `Transfers.BalancesAgree` | examples/banking-api/src/domain/account.aggregate.ts:72-165 | in every run of the whole system each balance is its opening plus deposits minus withdrawals so far |
| `Transfers.AccountsHold` | examples/banking-api/src/domain/account.aggregate.ts:72-165 | the sum of all balances is what came in from outside less what the transfer legs hold |
| `Transfers.LegsHold` | examples/banking-api/src/projections/eventual-transfer-projections.ts:73-159 | what the legs hold is the sum over the transfers |
| `Transfers.HeldIsInTransit` | examples/banking-api/src/projections/eventual-transfer-projections.ts:44-193 | what the legs of a transfer hold is its amount while it is withdrawn and not deposited, and nothing otherwise |
| `Transfers.MoneyConserved` | examples/banking-api/src/projections/eventual-transfer-projections.ts:39-195 | after any run the sum of all balances plus all amounts in transit equals openings plus outside deposits minus outside withdrawals |
| `Transfers.SecondHandlingWithdraws` | examples/banking-api/src/projections/eventual-transfer-projections.ts:44-102 | handling a start again withdraws again if and only if the account still has the amount |
| `TransferProjections.BankTx.LoadAccount` | examples/banking-api/src/projections/eventual-transfer-projections.ts:49-53 | loading an account from its stream gives its state and version in what the transaction sees at that moment |
| `TransferProjections.BankTx.LoadTransaction` | examples/banking-api/src/projections/eventual-transfer-projections.ts:57-61 | the same for a transaction |
| `TransferProjections.BankTx.AppendAccount` | packages/postgres/src/pg-event-store.ts:254-334 | an append inside the transaction passes exactly when the expected version is the stream's, and then extends it |
| `TransferProjections.BankTx.AppendLeg` | examples/banking-api/src/projections/eventual-transfer-projections.ts:77-101 | a leg's mark is appended on the version that the first append returned, and passes because the first append has locked the stream |
| `TransferProjections.HandleWithdrawal` | examples/banking-api/src/projections/eventual-transfer-projections.ts:44-102 | whatever others commit between its statements, the withdrawal handler writes what the reaction function gives on what its loads saw, or throws exactly where that is an error or a version gate fails |
| `TransferProjections.HandleDeposit` | examples/banking-api/src/projections/eventual-transfer-projections.ts:114-160 | the deposit handler likewise |
| `TransferProjections.HandleCompletion` | examples/banking-api/src/projections/eventual-transfer-projections.ts:172-193 | the completion handler likewise |
| `TransferProjections.HandlerDrains` | examples/banking-api/src/projections/eventual-transfer-projections.ts:44-193 | what a handler appends brings less work than the handler has done |
| `TransferProjections.ThrowsExactly` | examples/banking-api/src/projections/eventual-transfer-projections.ts:44-193 | on the current log the withdrawal and completion handlers never throw, and the deposit handler throws exactly if the destination is not named or closed |
| `TransferProjections.BatchFailsExactly` | packages/core/src/projections/catch-up-projector.ts:121-152 | a batch with the log to itself fails exactly if its page has such a deposit |
| `TransferProjections.BlockedForever` | examples/banking-api/src/projections/eventual-transfer-projections.ts:114-160 | no step of anyone, a batch on an older log included, unblocks the deposit projection |
| `TransferProjections.OnceBlocked` | examples/banking-api/src/projections/eventual-transfer-projections.ts:114-160 | once it is blocked in a run, it is blocked at the end of the run |
| `TransferProjections.CloseBlocks` | examples/banking-api/src/domain/account.aggregate.ts:152-165 | closing an empty account that a withdrawn amount is on its way to goes through, and blocks |
| `TransferProjections.BatchGrows` | packages/core/src/projections/catch-up-projector.ts:122-152 | what a batch has written stands while others commit, because its streams are locked |
| `TransferProjections.BankDb.ProcessBatch` | packages/core/src/projections/catch-up-projector.ts:121-152 | a batch commits exactly one step of the system on what others have committed meanwhile; it is rolled back only if a handler threw or a gate did not pass on what it had loaded, all handlers before it having succeeded; with the log to itself it is rolled back exactly for a deposit that cannot be paid in |
| `TransferProjections.BankDb.HandlePage` | packages/core/src/projections/catch-up-projector.ts:139-142 | the handler loop writes what the batch function gives, or stops at the first handler that threw or whose gate did not pass |
| `TransferProjections.BankDb.Commit` | packages/core/src/projections/catch-up-projector.ts:144-152 | the commit of a page adds what its handlers wrote and moves the checkpoint, on what others have committed by then |
| `TransferProjections.BankDb.CatchUpProjection` | packages/core/src/projections/catch-up-projector.ts:198-225 | catching one projection up ends although its handler appends to the log it reads, at the end of the log unless a batch failed; it fails exactly for the deposit projection with a deposit ahead that cannot be paid in |
| `TransferProjections.BankDb.CatchUpAll` | packages/core/src/projections/catch-up-projector.ts:229-233 | a pass with no failure that leaves the log unchanged has every projection at the end of the log; it fails exactly if the deposit projection is blocked |
| `TransferProjections.BankDb.PollUntilQuiet` | examples/banking-api/src/app.ts:154-173 | with no new transfers the polling loop comes to rest, with every started transfer settled, exactly unless the deposit projection is blocked |
| `Outbox.TopicFilters` | packages/core/src/projections/topic-filter.ts:17-23 | an event is taken by exactly one of the including and the excluding filter on a set of topics, and no topic counts as the empty one |
| `Outbox.EventHandledExactly` | packages/core/src/projections/async-projection-runner.ts:196-209 | an event runs exactly the projections that take its topic and whose checkpoint is behind it, once each, and moves those checkpoints to it |
| `Outbox.RowsHandledExactly` | packages/core/src/projections/async-projection-runner.ts:178-216 | wherever the checkpoints are, a batch runs for each event it shows exactly the projections that take its topic and were behind it, once each |
| `Outbox.RowsHandledOnce` | packages/core/src/projections/async-projection-runner.ts:178-216 | a batch ahead of every checkpoint runs every handler that takes its live events exactly once |
| `Outbox.RoundKeepsInv` | packages/core/src/projections/async-projection-runner.ts:151-243 | successful rounds, failed rounds and worker stops keep the queue ahead of every checkpoint and each row in exactly one place |
| `Outbox.OutboxDelivers` | packages/core/src/projections/async-projection-runner.ts:151-243 | after any run every row is queued, left locked, dead-lettered or acknowledged, exclusively; nothing is committed for it unless it is acknowledged, and then exactly the projections that take its topic ran, once each, if it is not dismissed |
| `Outbox.DismissedNotRun` | packages/core/src/projections/async-projection-runner.ts:182-186 | a dismissal marks one event, and from then on no round runs a handler on it unless the runner includes dismissed events |
| `Outbox.RoundHandlesExactly` | packages/core/src/projections/async-projection-runner.ts:151-217 | a successful round on any queue, in whatever order its rows stand, acknowledges the rows it handles and runs on them exactly the projections that are behind |
| `Outbox.RequeuedOnce` | packages/postgres/src/outbox/pg-dlq-service.ts:82-105 | a requeue takes the dead letter away and leaves one row for its position, new ones with no attempts; every row stays in one place |
| `Outbox.RequeuedHandledOnlyAhead` | packages/postgres/src/outbox/pg-dlq-service.ts:82-105 | a dead letter put back behind any queue is acknowledged by the round that handles it, and a projection runs on it exactly when it takes the topic and has not passed the position |
| `Outbox.FailureSpends` | packages/core/src/projections/async-projection-runner.ts:154-170 | a failed round uses up attempts of the places it claims, although its dead-letter moves are rolled back |
| `Outbox.HeadWaits` | packages/core/src/projections/async-projection-runner.ts:218-241 | while the head stays, every round has failed and spent some of the budget |
| `Outbox.BoundedBlocking` | packages/core/src/projections/async-projection-runner.ts:154-241 | the head of the outbox is settled after at most batchSize times maxAttempts failing rounds |
| `Outbox.BoundReached` | packages/core/src/projections/async-projection-runner.ts:154-241 | for every batch size and every maximum that bound is reached, by a run in which row after row joins the batch of the exhausted ones |
| `Outbox.AsyncProjectionRunner.ClaimBatch` | packages/postgres/src/outbox/pg-outbox-store.ts:34-67 | a claim takes the first unlocked rows up to the batch size and counts an attempt on each |
| `Outbox.AsyncProjectionRunner.HandleOne` | packages/core/src/projections/async-projection-runner.ts:196-209 | the projection loop of one event computes the handling function |
| `Outbox.AsyncProjectionRunner.Remaining` | packages/core/src/projections/async-projection-runner.ts:156-169 | a claim is split into rows within their attempts and rows to be dead-lettered |
| `Outbox.AsyncProjectionRunner.HandleAll` | packages/core/src/projections/async-projection-runner.ts:178-216 | the event loop of a batch computes the batch function and acknowledges every row |
| `Outbox.AsyncProjectionRunner.ProcessBatch` | packages/core/src/projections/async-projection-runner.ts:151-217 | dead letters, handler effects, checkpoints and acknowledgements are committed together, or not at all |
| `Outbox.AsyncProjectionRunner.RunRound` | packages/core/src/projections/async-projection-runner.ts:108-147 | claim, batch and release together are one round of the run |
| `Claims.ClaimAggregate.Submit` | examples/insurance-api/src/domain/claim.aggregate.ts:56-83 | submit raises what the decision function says or throws and changes nothing |
| `Claims.ClaimAggregate.Approve` | examples/insurance-api/src/domain/claim.aggregate.ts:98-116 | approve likewise, within the requested amount |
| `Claims.ClaimAggregate.MarkPaid` | examples/insurance-api/src/domain/claim.aggregate.ts:132-147 | markPaid likewise, with the approved amount |
| `Claims.AttemptsLawful` | examples/insurance-api/src/projections/claim-settlement-projection.ts:27-58 | concurrent commands and settlements, run any number of times, keep the claim's status machine |
| `Claims.PaidPerSubmission` | examples/insurance-api/src/domain/claim.aggregate.ts:56-147 | payments never outnumber submissions, and an approved amount is within the requested one |
| `Claims.PaidOnce` | examples/insurance-api/src/projections/claim-settlement-projection.ts:27-58 | a claim whose submission names a policy is paid at most once, under any rewinds and concurrent projectors |
| `Claims.ClosedForGood` | examples/insurance-api/src/domain/claim.aggregate.ts:85-147 | a claim that starts with its submission and names its policy is closed by its denial or payment |
| `Claims.DeniedThenSubmitted` | examples/insurance-api/src/domain/claim.aggregate.ts:85-130 | a claim assigned and denied before its submission can still be submitted |
| `Claims.SubmissionsAccepted` | examples/insurance-api/src/domain/claim.aggregate.ts:56-83 | a submission goes through exactly for a claim without a policy, over a positive amount and with an incident that is not in the future |
| `Claims.AmountsStand` | examples/insurance-api/src/domain/claim.aggregate.ts:25-49 | policy and amounts of a claim are those of its last submission and approval |
| `Claims.PaysWhatIsApproved` | examples/insurance-api/src/projections/claim-settlement-projection.ts:27-58 | a claim taken through start, assignment, approval and settlement has exactly one payment, of the approved amount |
| `Claims.PaidAsApproved` | examples/insurance-api/src/domain/claim.aggregate.ts:98-147 | every payment is of the approved amount and never exceeds the requested amount |
| `Claims.BlankPolicyPaysTwice` | examples/insurance-api/src/domain/claim.aggregate.ts:63-65 | with an empty policy id, for any amount, a claim is paid twice |
| `Claims.PaidOnceIffPolicyNamed` | examples/insurance-api/src/domain/claim.aggregate.ts:63-65 | all runs of a claim pay at most once if and only if its policy id is not empty |
| `Claims.ClaimTx.HandleApproved` | examples/insurance-api/src/projections/claim-settlement-projection.ts:33-56 | the settlement handler appends exactly what settling the current stream would, or fails because the stream grew |

## Left out

- White space and escaped surrogate pairs in the JSON reader: canonical text has neither.
- Lone surrogates in strings: JSON text in a jsonb column cannot hold them, so they are not part of this model.
- Rounding of floating-point amounts, and the text form of numbers: a number is the text that `JSON.stringify` gives it.
- The Postgres client, HTTP routes, observers, logging, backoff delays, graceful shutdown and abort signals: they change no modelled state; a delayed retry is a claim that takes other rows.
- Payloads that are not plain JSON data, such as a Date or an object with a toJSON method: their write-time and verify-time serializations differ, so a chain over them would not verify.
- Tenant resolution and the bus's tenant checks before a transaction opens: every key and stream carries its tenant.
- The race of two idempotency claims on the same key is one atomic claim, or a claim that reports the slot as held.
- Retention of idempotency slots: a deleted slot lets its command run again, so runs are without it.
- The anchor sealer; only the anchor hash is modelled.
- Saga timers' own store: a timer is one more delivery, and its scheduling and cancelling are not modelled.
- The funds-transfer saga of the saga example; transfers are proved for the catch-up chain.
- The open-with-stream endpoint, which records an opening balance and a deposit with the same running balance.
- Two live catch-up batches of one projection and tenant at a time: a run has one.
- Dismissed events in aggregate streams; a catch-up log may have them.
- A claim filter on topics, per-row mode and several workers of the outbox runner: there a row can be acknowledged unhandled.
- Sessions and their snapshots, upcasting of events, the migration of tables and the query builder.
- The deposit audit projection and the marks of the transaction aggregate that no projection uses.
- A store without a hash secret: it never chains, and it refuses to verify or to enable chaining.
- The correlation and causation ids that the dispatcher copies onto a command.
- A saga command queue without failure marks, which the dispatcher releases to instead.
- Outbox.BoundedBlocking: assumes that the worker always gets to release its rows; rows of a worker that stops stay locked and do not block the others.
- Outbox.OutboxDelivers: runs are without requeued dead letters, whose positions are behind the checkpoints; what any round does with them is Outbox.RoundHandlesExactly.
- SagaRunner.SagaWorker.Deliver: assumes that no row is deleted while the delivery is under way; the runs with deletions are those of the interleaving model.
- SagaRunner.CleanupSafeIff: compares with the commit order, since of a saga in general another order may happen to have the same effect; that no order has it is stated for the saga of SagaRunner.RelayCleanupIff.
- TransferProjections.BankDb.CatchUpProjection: assumes no other writers, whose events could keep the loop busy; ProcessBatch is stated with them.
- TransferProjections.BankDb.CatchUpAll: assumes no other writers, as CatchUpProjection does.
- TransferProjections.BankDb.PollUntilQuiet: assumes no other writers, since new transfers would keep the loop busy. It stops at a failed pass, where the program polls on; nothing unblocks the deposit projection then (TransferProjections.OnceBlocked).
- Transfers.TransferOnce: covers transfers started through the endpoint, whose two first events are written together.
