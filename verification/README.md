# Account command side, in Dafny

This project models the command side of the account context of an
event-sourced CQRS service. The model covers these parts:

- **The aggregate.** `AccountAggregate` folds `AccountEvent`s, takes a snapshot once 10 events have been applied, and handles `AccountCommand`s through a small state machine.
- **The state machine.** `New → Created` carries a guard on the command's name. The `New` state's `exit` hook hashes the password. On success it records an `AccountCreated` event; otherwise it records an error.
- **`create_account`.** This service checks that the email is not already used. It then handles the command, folds the events, wraps them in envelopes, stores them, and stores a snapshot when one is due. A parameter chooses whether the events are stored by `store_events` as written or by a corrected store that commits each envelope's two rows together.
- **The SQLite repository, over in-memory tables.** The event log, outbox and snapshot log are sequences of rows. Every SQL statement and bus call may fail; a *fault plan* (`Errors.FaultPlan`, a predicate over statements) decides which ones do.
  - `store_events` inserts each envelope into the log and the outbox.
  - `send_and_delete_outbox_event` publishes, then deletes the outbox rows.
  - There are also retrieve and lookup queries.
- **The outbox service.** It relays the outbox to the event bus.
- **The DTOs.** These are the storage, NATS and GraphQL forms of the event and the aggregate.

Oracles and parameters stand in for what the model cannot see:

- Password hashing is an oracle, `NewState.Hasher`, called with the services handle. Every call is recorded as a `HashCall`.
- ULIDs and clock readings are parameters: `NewState.Fresh`, the per-envelope `clock`, and the snapshot id and time.
- The library's `Machine::decide` is not part of this model. Its behaviour is an explicit assumption, stated in `Machine.Decide`:
  - when the current state is registered, its `exit` hook runs once;
  - then the first transition whose guard holds fires;
  - the target's `entry` hook runs if the target is registered;
  - an unregistered current state does nothing.

Three facts the model makes visible:

- The service tags its envelopes `"account"`, while `aggregate_type()` says `"Account"` (`AccountService.StoredTagDiffersFromAggregateType`).
- A fresh aggregate folds exactly one event, so `create_account` never reaches `store_snapshot` (`AccountService.CreateNeverSnapshots`).
- As written, `create_account` can report a failure and still leave a committed event row that is never queued for publishing (`AccountService.AsWrittenFailureLeavesLoggedEvent`).

SQL text comparison is modelled as the lexicographic order of code points (module `TextOrder`). This is SQLite's BINARY collation on UTF-8 text.

## Model

Paths are relative to the repository root.

| member | source | states |
|---|---|---|
| Event.EventType | contexts/account/src/command/domain/account/entity/event.rs:17-21 | the type name is "AccountCreated" exactly for the `AccountCreated` variant, i.e. for every event |
| Event.EventVersion | contexts/account/src/command/domain/account/entity/event.rs:23-27 | the version is the event's own `event_version` field |
| Event.EventId | contexts/account/src/command/domain/account/entity/event.rs:29-33 | the id is the event's own `event_id` field |
| Event.EqualityIsStructural | contexts/account/src/command/domain/account/entity/event.rs:4-13 | two events are equal iff all six fields are equal |
| Command.ToString | contexts/account/src/command/domain/account/entity/command.rs:8-14 | the name is "CreateAccount" exactly for the `CreateAccount` variant, i.e. for every command |
| Command.FromCreate | contexts/account/src/command/domain/account/entity/command.rs:22-26 | the conversion yields `CreateAccount` with the same email and password, and that command is named "CreateAccount" |
| Command.FromCreateInjective | contexts/account/src/command/domain/account/entity/command.rs:16-26 | distinct payloads give distinct commands, and the payload reads back unchanged |
| Context.NewContext | contexts/account/src/command/domain/account/machine/context.rs:15-26 | command, event and error start empty; the current state and services are the given ones |
| Context.SetEvent | contexts/account/src/command/domain/account/machine/context.rs:30-32 | the event slot then holds the event, and no other slot changes |
| Context.SetCommand | contexts/account/src/command/domain/account/machine/context.rs:36-38 | the command slot then holds the command, and no other slot changes |
| Context.SetError | contexts/account/src/command/domain/account/machine/context.rs:45-47 | the error slot then holds the error; the event slot is neither set nor cleared |
| Context.SlotsIndependent | contexts/account/src/command/domain/account/machine/context.rs:27-50 | setting the error and setting the event commute; a later event overwrites an earlier one; each setter leaves the other slot alone |
| Machine.CreateAccountMachine | contexts/account/src/command/domain/account/machine/mod.rs:13-26 | the machine starts in the given state; only `New` is registered, with exactly one transition, to `Created`, guarded by the command name and with no pre-actions |
| Machine.FirstEnabled | contexts/account/src/command/domain/account/machine/mod.rs:16-22 | the transition chosen is the first whose guard holds; none is chosen iff no guard holds |
| Machine.Decide | contexts/account/src/command/domain/account/entity/aggregate.rs:70 | under the assumed library semantics: an unregistered state changes nothing and hashes nothing; a registered one runs its exit hook once; the command slot and the state table are kept |
| Machine.CreateGuardIffCommand | contexts/account/src/command/domain/account/machine/mod.rs:18-21 | the guard holds iff a command is present |
| Machine.GuardReadsOnlyCommand | contexts/account/src/command/domain/account/machine/mod.rs:18-21 | the guard ignores the event and error slots, so a failed hash does not by itself block the transition |
| Machine.CreatedIsFinal | contexts/account/src/command/domain/account/machine/mod.rs:14-24 | deciding in `Created` changes nothing and calls no service |
| Machine.DecideFromNew | contexts/account/src/command/domain/account/machine/mod.rs:13-26 | from `New` with a command, the machine moves to `Created` after exactly one hash call; it holds the created event iff hashing succeeded, and the hash-failure error otherwise |
| NewState.Entry | contexts/account/src/command/domain/account/machine/states/new.rs:18-26 | `entry` leaves the context unchanged |
| NewState.Update | contexts/account/src/command/domain/account/machine/states/new.rs:58 | `update` leaves the context unchanged |
| NewState.Exit | contexts/account/src/command/domain/account/machine/states/new.rs:28-56 | `exit` needs a command; it hashes that command's password exactly once; on success it sets the event and keeps the error; on failure it sets the error "Failed to hash password" and keeps the event; command, state and services are kept |
| NewState.ExitEventFields | contexts/account/src/command/domain/account/machine/states/new.rs:41-50 | the recorded event carries the command's email, the hash, version "0.0.1", and the drawn id, event id and time |
| Aggregate.Default | contexts/account/src/command/domain/account/entity/aggregate.rs:123-134 | every optional field is `None` and no event has been applied |
| Aggregate.AggregateType | contexts/account/src/command/domain/account/entity/aggregate.rs:40-42 | the aggregate type is "Account" |
| Aggregate.AggregateId | contexts/account/src/command/domain/account/entity/aggregate.rs:44-46 | the id is present exactly when `id` is set, and equals it |
| Aggregate.Apply | contexts/account/src/command/domain/account/entity/aggregate.rs:78-95 | the counter goes up by one; id, email, hash, creation time and last event come from the event; status is unchanged; consistency is preserved |
| Aggregate.ApplySnapshot | contexts/account/src/command/domain/account/entity/aggregate.rs:97-105 | every field but the counter is the payload's; the counter is kept |
| Aggregate.Snapshot | contexts/account/src/command/domain/account/entity/aggregate.rs:107-120 | there is a snapshot iff at least 10 events were applied; it then carries the id, type "Account", the last event's id as last sequence, a copy of the aggregate, and the drawn id and time |
| Aggregate.FoldCount | contexts/account/src/command/domain/account/entity/aggregate.rs:78-79 | folding n events raises the counter by exactly n |
| Aggregate.FoldConsistent | contexts/account/src/command/domain/account/entity/aggregate.rs:79-93 | once an event is applied, the id, email, hash, creation time and last event are set and agree with the last event, after any fold |
| Aggregate.FoldStatus | contexts/account/src/command/domain/account/entity/aggregate.rs:80-93 | no fold touches `status` |
| Aggregate.FoldLast | contexts/account/src/command/domain/account/entity/aggregate.rs:88-92 | after a non-empty fold, the last event and the id are the final event's |
| Aggregate.FoldFromDefaultReady | contexts/account/src/command/domain/account/entity/aggregate.rs:110-113 | from the default aggregate, the two `unwrap`s in `snapshot` never fail |
| Aggregate.SnapshotAfterThreshold | contexts/account/src/command/domain/account/entity/aggregate.rs:107-108 | from the default aggregate, a snapshot exists iff at least 10 events were folded |
| Aggregate.FoldConcat | contexts/account/src/command/domain/account/entity/aggregate.rs:78-95 | folding a concatenation is folding the parts in order |
| Aggregate.FoldIgnoresCounter | contexts/account/src/command/domain/account/entity/aggregate.rs:78-95 | the starting counter influences only the final counter |
| Aggregate.ReplayFromSnapshot | contexts/account/src/command/domain/account/entity/aggregate.rs:97-120 | replay from a snapshot taken after k events matches the full replay in every field but the counter, which then counts only the events after the snapshot |
| AggregateHandle.StartState | contexts/account/src/command/domain/account/entity/aggregate.rs:61-66 | the machine starts in `New` iff no event was applied, and in `Created` iff the last event is `AccountCreated` |
| AggregateHandle.SeedContext | contexts/account/src/command/domain/account/entity/aggregate.rs:56-59 | the context carries the aggregate only when an event was applied; its slots start empty |
| AggregateHandle.Handle | contexts/account/src/command/domain/account/entity/aggregate.rs:48-76 | Ok carries exactly one event; an error is `StateMachineTransitionFail` with the original command; a created aggregate fails without hashing; a new one hashes once and succeeds iff hashing did, with the created event |
| AggregateHandle.CreatedRejectsCommands | contexts/account/src/command/domain/account/entity/aggregate.rs:61-64 | an aggregate that already has an event rejects every command |
| AggregateHandle.HandleThenApply | contexts/account/src/command/domain/account/entity/aggregate.rs:48-95 | handling then folding on a fresh aggregate sets the drawn id, the email and the hash, with one applied event and no status |
| SqlDto.DefaultEvent | contexts/account/src/command/infrastructure/dtos/storage/sql.rs:21-32 | the default event has empty id, email and hash, version "0.0.0", and the drawn id and time |
| SqlDto.ToEvent | contexts/account/src/command/infrastructure/dtos/storage/sql.rs:78-98 | every field is copied to the same-named field |
| SqlDto.FromEvent | contexts/account/src/command/infrastructure/dtos/storage/sql.rs:56-76 | converting back yields the original event |
| SqlDto.ToOptionEvent | contexts/account/src/command/infrastructure/dtos/storage/sql.rs:34-54 | always `Some`, holding the same event `ToEvent` gives |
| SqlDto.EventRoundTrips | contexts/account/src/command/infrastructure/dtos/storage/sql.rs:56-98 | the two event conversions are inverse in both directions |
| SqlDto.FromAggregate | contexts/account/src/command/infrastructure/dtos/storage/sql.rs:123-133 | id, email, hash and creation time are copied; the last event is converted |
| SqlDto.ToAggregate | contexts/account/src/command/infrastructure/dtos/storage/sql.rs:110-121 | the stored fields are copied back; status and counter take the defaults |
| SqlDto.AggregateRoundTrip | contexts/account/src/command/infrastructure/dtos/storage/sql.rs:100-133 | storing and loading keeps id, email, hash, creation time and last event, and resets status to `None` and the counter to 0 |
| SqlDto.StoredAggregateRoundTrip | contexts/account/src/command/infrastructure/dtos/storage/sql.rs:110-133 | the storage form survives a load and a store unchanged |
| SqlDto.StatusIsLost | contexts/account/src/command/infrastructure/dtos/storage/sql.rs:100-108 | an aggregate with a status never survives the round trip |
| NatsDto.DefaultEvent | contexts/account/src/command/infrastructure/dtos/transport/nats.rs:21-32 | the default event has empty id, email and hash, version "0.0.0", and the drawn id and time |
| NatsDto.ToEvent | contexts/account/src/command/infrastructure/dtos/transport/nats.rs:78-98 | every field is copied to the same-named field |
| NatsDto.FromEvent | contexts/account/src/command/infrastructure/dtos/transport/nats.rs:56-76 | converting back yields the original event |
| NatsDto.ToOptionEvent | contexts/account/src/command/infrastructure/dtos/transport/nats.rs:34-54 | always `Some`, holding the same event `ToEvent` gives |
| NatsDto.EventRoundTrips | contexts/account/src/command/infrastructure/dtos/transport/nats.rs:56-98 | the two event conversions are inverse in both directions |
| NatsDto.FromAggregate | contexts/account/src/command/infrastructure/dtos/transport/nats.rs:123-133 | id, email, hash and creation time are copied; the last event is converted |
| NatsDto.ToAggregate | contexts/account/src/command/infrastructure/dtos/transport/nats.rs:110-121 | the transported fields are copied back; status and counter take the defaults |
| NatsDto.AggregateRoundTrip | contexts/account/src/command/infrastructure/dtos/transport/nats.rs:100-133 | sending and receiving keeps id, email, hash, creation time and last event, and resets status and counter |
| NatsDto.WireAggregateRoundTrip | contexts/account/src/command/infrastructure/dtos/transport/nats.rs:110-133 | the wire form survives a receive and a send unchanged |
| NatsDto.StatusIsLost | contexts/account/src/command/infrastructure/dtos/transport/nats.rs:100-108 | an aggregate with a status never survives the round trip |
| GraphQLDto.FromAggregate | contexts/account/src/command/infrastructure/dtos/transport/graphql.rs:15-23 | id, email and creation time are copied unchanged |
| GraphQLDto.FromAggregateHidesSecrets | contexts/account/src/command/infrastructure/dtos/transport/graphql.rs:9-23 | two aggregates give the same view iff they agree on id, email and creation time; hash, status, last event and counter never show |
| GraphQLDto.NewInput | contexts/account/src/command/infrastructure/dtos/transport/graphql.rs:33-37 | email and password are stored unchanged |
| TextOrder.AtMostTotalOrder | contexts/account/src/command/infrastructure/adapters/outbound/sqlite.rs:228 | the TEXT comparison used for sequences and snapshot ids is a total order |
| SqlSelect.SortBySequence | contexts/account/src/command/infrastructure/adapters/outbound/sqlite.rs:228 | `ORDER BY sequence ASC` yields a permutation of the rows sorted by sequence |
| SqlSelect.ArgMax | contexts/account/src/command/infrastructure/adapters/outbound/sqlite.rs:307 | `ORDER BY ... DESC LIMIT 1` picks a row whose key no other row exceeds |
| Sqlite.ToRow | contexts/account/src/command/infrastructure/adapters/outbound/sqlite.rs:157-166 | the bound tuple carries the event's type and version, and reads back as the envelope |
| Sqlite.EnvelopesOfRows | contexts/account/src/command/infrastructure/adapters/outbound/sqlite.rs:157-183 | reading stored rows back gives the stored envelopes |
| Sqlite.FirstHalt | contexts/account/src/command/infrastructure/adapters/outbound/sqlite.rs:148-149 | the envelope where a failed `begin` or `commit` stops the loop; no earlier envelope stops it |
| Sqlite.StoreFrom | contexts/account/src/command/infrastructure/adapters/outbound/sqlite.rs:147-203 | up to the first halt, each table gains exactly the rows whose insert it kept; a halt reports the failing statement; otherwise any failed insert gives `UnknownError` |
| Sqlite.StoreVerdict | contexts/account/src/command/infrastructure/adapters/outbound/sqlite.rs:187-203 | the run succeeds iff every statement of every envelope succeeds, and then both tables gain every row in order |
| Sqlite.StoreEvents | contexts/account/src/command/infrastructure/adapters/outbound/sqlite.rs:110-204 | as written: success iff no statement fails, both tables gaining every row; otherwise the error and the rows each table kept |
| Sqlite.OutboxFailureLeavesLoggedEvent | contexts/account/src/command/infrastructure/adapters/outbound/sqlite.rs:187-190 | as written, a failed outbox insert still commits the event-log row: the event is logged but never queued |
| Sqlite.EventLogFailureLeavesQueuedEvent | contexts/account/src/command/infrastructure/adapters/outbound/sqlite.rs:158-190 | as written, a failed log insert still commits the outbox row: the event is queued but not logged |
| Sqlite.StoreEventsAtomic | contexts/account/src/command/infrastructure/adapters/outbound/sqlite.rs:148-203 | corrected: the same verdict, and the log and the outbox always gain the same rows |
| Sqlite.KeptAtomicAgree | contexts/account/src/command/infrastructure/adapters/outbound/sqlite.rs:148-191 | with atomic commits, both tables keep the same envelopes |
| Sqlite.AtomicStoreLeavesNoOrphan | contexts/account/src/command/infrastructure/adapters/outbound/sqlite.rs:158-190 | with atomic commits, a failed insert leaves neither row |
| Sqlite.AtomicSingleFailureWritesNothing | contexts/account/src/command/infrastructure/adapters/outbound/sqlite.rs:148-203 | with atomic commits, a failed run over one envelope leaves the tables unchanged |
| Sqlite.StopAtHalt | contexts/account/src/command/infrastructure/adapters/outbound/sqlite.rs:148-190 | a failing `begin` or `commit` keeps the earlier envelopes' rows and touches no later envelope |
| Sqlite.OfAggregate | contexts/account/src/command/infrastructure/adapters/outbound/sqlite.rs:223 | keeps every row of the aggregate as often as stored, and no other |
| Sqlite.After | contexts/account/src/command/infrastructure/adapters/outbound/sqlite.rs:228 | keeps every row whose sequence sorts after the bound, and no other |
| Sqlite.RetrieveEvents | contexts/account/src/command/infrastructure/adapters/outbound/sqlite.rs:206-249 | fails iff the query fails; returns every stored envelope of the aggregate after the bound, as often as stored; with a bound, in ascending sequence order |
| Sqlite.RetrieveOutboxEvents | contexts/account/src/command/infrastructure/adapters/outbound/sqlite.rs:351-377 | fails iff the query fails; otherwise one envelope per outbox row, in table order (one of the orders the query may return) |
| Sqlite.StoredEventsAreQueued | contexts/account/src/command/infrastructure/adapters/outbound/sqlite.rs:141-186 | after a successful store, the outbox hands out the earlier queue followed by the stored envelopes |
| Sqlite.CountEmail | contexts/account/src/command/infrastructure/adapters/outbound/sqlite.rs:50-53 | the count is positive iff some row carries the email |
| Sqlite.EmailExists | contexts/account/src/command/infrastructure/adapters/outbound/sqlite.rs:42-70 | fails iff the query fails; otherwise true iff some event row's payload carries the email |
| Sqlite.WithEmail | contexts/account/src/command/infrastructure/adapters/outbound/sqlite.rs:76 | exactly the event rows whose payload carries the email |
| Sqlite.RetrieveAggregateIdForEmail | contexts/account/src/command/infrastructure/adapters/outbound/sqlite.rs:71-89 | a failed query is reported; no row found iff no row carries the email; otherwise the aggregate of a matching row with the greatest sequence |
| Sqlite.SnapshotsOf | contexts/account/src/command/infrastructure/adapters/outbound/sqlite.rs:307 | exactly the snapshot rows of the aggregate |
| Sqlite.StoreSnapshot | contexts/account/src/command/infrastructure/adapters/outbound/sqlite.rs:251-292 | success iff the insert succeeds, appending one row and keeping earlier snapshots; failure is `UnknownError` with nothing changed |
| Sqlite.RetrieveLatestSnapshot | contexts/account/src/command/infrastructure/adapters/outbound/sqlite.rs:294-322 | fails iff the query fails; none iff the aggregate has no snapshot; otherwise a snapshot of the aggregate whose id no other one exceeds |
| Sqlite.StoredSnapshotIsLatest | contexts/account/src/command/infrastructure/adapters/outbound/sqlite.rs:251-322 | a stored snapshot with the newest id is the one read back, with status and counter reset by the storage form |
| Sqlite.WithoutSequence | contexts/account/src/command/infrastructure/adapters/outbound/sqlite.rs:333 | removes every row with the sequence and keeps every other row as often as stored |
| Sqlite.SendAndDeleteOutboxEvent | contexts/account/src/command/infrastructure/adapters/outbound/sqlite.rs:324-349 | the outbox changes only after a publish; a failed `begin` or publish changes nothing; success iff no statement fails, with the rows of that sequence deleted; every failure leaves the tables unchanged |
| Sqlite.RetryAfterFailedDeleteDuplicates | contexts/account/src/command/infrastructure/adapters/outbound/sqlite.rs:337-343 | a failed delete followed by a clean retry publishes the envelope twice: delivery is at least once |
| Sqlite.RetryAfterFailedPublish | contexts/account/src/command/infrastructure/adapters/outbound/sqlite.rs:336-337 | a failed publish keeps the row, and the clean retry publishes it once and deletes it |
| Sqlite.DeliveredLeavesNoRow | contexts/account/src/command/infrastructure/adapters/outbound/sqlite.rs:333-347 | after a successful delivery no outbox row carries the sequence |
| AccountService.Wrap | contexts/account/src/command/application/account/service/account.rs:69-80 | one envelope per event in order, with the aggregate's id, type "account", the event id as sequence, no metadata and the i-th clock reading |
| AccountService.WrapKeepsEvents | contexts/account/src/command/application/account/service/account.rs:69-80 | the envelopes carry exactly the events, in order |
| AccountService.ExpectedEvent | contexts/account/src/command/domain/account/machine/states/new.rs:41-50 | the created event carries the command's email, the hash and the drawn ids |
| AccountService.StoreCreated | contexts/account/src/command/application/account/service/account.rs:69-86 | the folded events are wrapped and stored in one call; a store error is returned with its tables; below 10 applied events the conversion of the aggregate is returned without a snapshot; from 10 on the aggregate's snapshot is stored next and its verdict decides the result |
| AccountService.HandleAndStore | contexts/account/src/command/application/account/service/account.rs:62-86 | the password is hashed exactly once; a failed hash is a state-machine error with nothing written; otherwise the one created event, folded into an aggregate with the drawn id and one applied event, is what gets stored |
| AccountService.CreateAccount | contexts/account/src/command/application/account/service/account.rs:45-87 | the email lookup comes first; a failed lookup returns its error and a taken email returns `AccountExists`, both with nothing hashed or written; a free email goes on to handling and storing; `atomic` chooses between `store_events` as written and the corrected store |
| AccountService.CreateNeverSnapshots | contexts/account/src/command/application/account/service/account.rs:57-85 | a fresh aggregate reaches one applied event, so `store_snapshot` is never called |
| AccountService.CreateFailureWritesNothing | contexts/account/src/command/application/account/service/account.rs:58-85 | with per-envelope atomic commits (the corrected store), every failure of `create_account` leaves the tables unchanged |
| AccountService.AsWrittenFailureLeavesLoggedEvent | contexts/account/src/command/application/account/service/account.rs:58-86 | with `store_events` as written, a failed outbox insert makes `create_account` return `UnknownError` while the new event row stays committed and no outbox row exists; the corrected store fails with the tables unchanged |
| AccountService.CreateSucceeds | contexts/account/src/command/application/account/service/account.rs:46-87 | success iff the email is free, hashing succeeds and the envelope is stored; then one log row and one outbox row are added and the converted one-event aggregate is returned; this holds for both stores |
| AccountService.CreatedAccountHasIdentity | contexts/account/src/command/application/account/service/account.rs:62-86 | the account returned to GraphQL always carries the drawn id and the command's email |
| AccountService.StoredTagDiffersFromAggregateType | contexts/account/src/command/application/account/service/account.rs:74 | stored rows are tagged "account", not the aggregate type "Account" |
| OutboxService.NewOutboxService | contexts/account/src/command/application/account/service/outbox.rs:28-48 | the service holds the given repository and bus unchanged |
| OutboxService.GetEvents | contexts/account/src/command/application/account/service/outbox.rs:52-55 | exactly what `retrieve_outbox_events` returns, value or error |
| OutboxService.SendEvent | contexts/account/src/command/application/account/service/outbox.rs:59-66 | the repository's verdict for the same envelope on the service's own bus; success publishes it and leaves no row of its sequence |
| OutboxService.RelayEffect | contexts/account/src/command/application/account/service/outbox.rs:52-66 | a fault-free pass publishes the envelopes in order and removes exactly the outbox rows with their sequences |
| OutboxService.RelayDrainsOutbox | contexts/account/src/command/application/account/service/outbox.rs:52-66 | relaying everything `get_events` returned empties the outbox and publishes each envelope once |
| Scenarios.CreateOnEmptyTables | contexts/account/src/command/application/account/service/account.rs:46-87 | a clean creation on empty tables leaves one log row and an identical outbox row, keyed by the event id, and both email lookups find the account |
| Scenarios.DuplicateEmailRejected | contexts/account/src/command/application/account/service/account.rs:58-62 | a second creation with the same email fails with `AccountExists`, writes nothing and hashes nothing |
| Scenarios.CreateThenRelay | contexts/account/src/command/application/account/service/outbox.rs:52-66 | relaying after a creation publishes exactly the created envelope and empties the outbox, while the log keeps the event |

## Left out

- Process start-up, the connection pool, migrations (`migrate`), tracing spans, `println!`, async execution and concurrency. Every call is sequential.
- The HTTP and GraphQL server, and its `validate()` email check.
- The Argon2 hasher. Hashing is an oracle that may fail.
- SQL text, JSON encoding and `json_extract`. The `ts_seconds` truncation of timestamps to whole seconds is also not modelled: `DateTime` values are only compared and copied exactly.
- Schema constraints such as unique keys. Inserts fail only where the fault plan says so.
- The internals of the state-machine library. `Machine.Decide` is an assumed semantics. It does not run pre-actions; the only transition has none.
- Aggregate.Apply: the `i32` counter's overflow after 2^31 - 1 events is not modelled; the counter is an unbounded integer.
- Aggregate.Snapshot: the panic of the two `unwrap`s is excluded by `SnapshotReady` instead of being modelled. A fold from `Default` never reaches it (`Aggregate.FoldFromDefaultReady`); only applying a foreign snapshot payload without an id or last event to an aggregate with at least 10 applied events could.
- Sqlite.RetrieveOutboxEvents: the query sets no order; the model returns table order, which is one of the orders the database may return. `Sqlite.StoredEventsAreQueued`, `OutboxService.GetEvents` and `OutboxService.RelayDrainsOutbox` rely on that order. Draining the outbox does not depend on it, but publishing "in outbox order" does.
- Sqlite.RetrieveEvents: without a bound the query sets no order; the model returns table order, which is one of the orders the database may return.
- AccountService.CreateAccount: the `_fields` argument is unused in the source and omitted. The `atomic` parameter picks the store; `false` is the program as written (see Findings).
- AccountService.CreateFailureWritesNothing: holds only for the corrected store (`atomic` true). As written, the failure path can leave a committed event row without its outbox row; `AccountService.AsWrittenFailureLeavesLoggedEvent` shows the input.
- AccountService.CreateAccount: the `O: From<AccountAggregate>` conversion is a function parameter `into`.
- OutboxService.RelayEffect: the relay loop that drives `get_events` and `send_event` is not part of this model; `OutboxService.Relay` is a plain fault-free pass used to state the draining property.
- The bus is reduced to the sequence of envelopes it accepted. Publishing fails only where the fault plan says so.
- `AccountRepository` is not modelled as a trait. The repository is the concrete in-memory table model.

## Findings

| source | as written | input that shows it | evidently intended | confidence | as-written member | corrected member |
|---|---|---|---|---|---|---|
| contexts/account/src/command/infrastructure/adapters/outbound/sqlite.rs:187-190 | after both inserts, each envelope's transaction is committed whatever their outcome; a failed insert is only remembered for the final `UnknownError` | one envelope whose outbox insert fails: the event-log row is committed and no outbox row exists, so the event is never published | the per-envelope transaction keeps both rows or neither | not executed; follows from the code as written | Sqlite.StoreEvents, Sqlite.OutboxFailureLeavesLoggedEvent, AccountService.AsWrittenFailureLeavesLoggedEvent | Sqlite.StoreEventsAtomic, Sqlite.AtomicStoreLeavesNoOrphan, AccountService.CreateFailureWritesNothing |
