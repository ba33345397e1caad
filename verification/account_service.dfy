/** `AccountService::create_account` (service/account.rs): the command
    service that checks the email, runs the aggregate, wraps and stores the
    events, and stores a snapshot when one is due. The repository is the
    in-memory table model of the SQLite adapter. */
module AccountService {
  import opened Wrappers
  import opened Command
  import opened Event
  import opened Errors
  import opened Aggregate
  import opened Context
  import opened NewState
  import opened AggregateHandle
  import opened Sqlite
  import GraphQLDto

  /** The steps `create_account` takes, in order: the repository calls and
      the aggregate's `handle`. */
  datatype Call =
    | EmailExistsCall(email: string)
    | HandleCall(command: AccountCommand)
    | StoreEventsCall(envelopes: seq<EventEnvelope>)
    | StoreSnapshotCall(snapshot: AggregateSnapshot)

  /** The outcome of one `create_account`: the result, the tables afterwards,
      the calls made and the hash calls made while handling. */
  datatype Created<O> = Created(result: Result<O, AppError>, tables: Tables, calls: seq<Call>, hashCalls: seq<HashCall>)

  /** The `aggregate_type` the service writes into every envelope. */
  const EnvelopeTypeName := "account"

  /** One envelope per event, in order, stamped with the aggregate's identity,
      the event's id as sequence, no metadata, and the `i`-th clock reading. */
  function Wrap(id: string, events: seq<AccountEvent>, clock: nat -> DateTime): (r: seq<EventEnvelope>)
    ensures |r| == |events|
    ensures forall i :: 0 <= i < |r| ==>
              && r[i].aggregate_id == id
              && r[i].aggregate_type == EnvelopeTypeName
              && r[i].sequence == EventId(events[i])
              && r[i].payload == events[i]
              && r[i].metadata == map[]
              && r[i].timestamp == clock(i)
  {
    seq(|events|, i requires 0 <= i < |events| =>
      EventEnvelope(id, EnvelopeTypeName, EventId(events[i]), events[i], map[], clock(i)))
  }

  /** The events carried by some envelopes. */
  function Payloads(envs: seq<EventEnvelope>): (r: seq<AccountEvent>)
    ensures |r| == |envs| && forall i :: 0 <= i < |envs| ==> r[i] == envs[i].payload
  {
    seq(|envs|, i requires 0 <= i < |envs| => envs[i].payload)
  }

  /** Wrapping loses nothing: the envelopes carry exactly the events. */
  lemma WrapKeepsEvents(id: string, events: seq<AccountEvent>, clock: nat -> DateTime)
    ensures Payloads(Wrap(id, events, clock)) == events
  {
  }

  /** The event `handle` produces for `command` on a fresh aggregate, once
      hashing succeeded. */
  function ExpectedEvent(command: CreateAccountCommand, services: Services, hasher: Hasher, draw: Fresh): (e: AccountEvent)
    requires hasher(services, command.password).Ok?
    ensures e.email == command.email && e.id == draw.accountId && e.event_id == draw.eventId
    ensures e.password_hash == hasher(services, command.password).value
  {
    CreatedEvent(command, hasher(services, command.password).value, draw)
  }

  /** The tail of `create_account`, once `events` are folded into `a` and
      `a` has an identity: wrap the events, store them, and store a snapshot
      when one is due. Each store's error is returned as is. */
  function StoreCreated<O>(db: Tables, a: AccountAggregate, events: seq<AccountEvent>, clock: nat -> DateTime,
                           snapshotId: string, snapshotTime: DateTime, fault: FaultPlan, atomic: bool,
                           into: AccountAggregate -> O): (r: Created<O>)
    requires a.id.Some? && SnapshotReady(a)
    ensures var envs := Wrap(a.id.value, events, clock);
            var stored := StoreEventsWith(db, envs, fault, atomic);
            && 1 <= |r.calls| <= 2
            && r.calls[0] == StoreEventsCall(envs)
            && r.hashCalls == []
            && (r.result.Ok? ==> r.result.value == into(a))
            && (stored.result.Err? ==> && |r.calls| == 1
                                       && r.result == Err(stored.result.error)
                                       && r.tables == stored.tables)
            && (stored.result.Ok? && a.applied_events < SnapshotThreshold ==>
                  && |r.calls| == 1
                  && r.result == Ok(into(a))
                  && r.tables == stored.tables)
            && (stored.result.Ok? && a.applied_events >= SnapshotThreshold ==>
                  var snap := Snapshot(a, snapshotId, snapshotTime).value;
                  var kept := StoreSnapshot(stored.tables, snap, fault);
                  && r.calls == [StoreEventsCall(envs), StoreSnapshotCall(snap)]
                  && r.tables == kept.tables
                  && (r.result.Ok? <==> kept.result.Ok?)
                  && (r.result.Err? ==> r.result.error == kept.result.error))
  {
    var envs := Wrap(a.id.value, events, clock);
    var stored := StoreEventsWith(db, envs, fault, atomic);
    var asked := [StoreEventsCall(envs)];
    match stored.result
    case Err(err) => Created(Err(err), stored.tables, asked, [])
    case Ok(_) =>
      match Snapshot(a, snapshotId, snapshotTime)
      case None => Created(Ok(into(a)), stored.tables, asked, [])
      case Some(snap) =>
        var kept := StoreSnapshot(stored.tables, snap, fault);
        match kept.result
        case Err(err) => Created(Err(err), kept.tables, asked + [StoreSnapshotCall(snap)], [])
        case Ok(_) => Created(Ok(into(a)), kept.tables, asked + [StoreSnapshotCall(snap)], [])
  }

  /** The middle of `create_account`, once the email is known to be free:
      handle the command on a fresh aggregate, fold the events, check the
      identity, then store. A failed hash ends here with nothing written. */
  function HandleAndStore<O>(db: Tables, command: CreateAccountCommand, services: Services, hasher: Hasher, draw: Fresh,
                             clock: nat -> DateTime, snapshotId: string, snapshotTime: DateTime,
                             fault: FaultPlan, atomic: bool, into: AccountAggregate -> O): (r: Created<O>)
    ensures r.hashCalls == [HashCall(services, command.password)]
    ensures |r.calls| >= 1 && r.calls[0] == HandleCall(FromCreate(command))
    ensures hasher(services, command.password).Err? ==>
              && r.calls == [HandleCall(FromCreate(command))]
              && r.result == Err(Account(StateMachineTransitionFail(FromCreate(command))))
              && r.tables == db
    ensures hasher(services, command.password).Ok? ==>
              var e := ExpectedEvent(command, services, hasher, draw);
              var a := Fold(Default(), [e]);
              && a.id == Some(draw.accountId) && a.applied_events == 1
              && var stored := StoreCreated(db, a, [e], clock, snapshotId, snapshotTime, fault, atomic, into);
                 && r.calls == [HandleCall(FromCreate(command))] + stored.calls
                 && r.result == stored.result
                 && r.tables == stored.tables
  {
    var handled := Handle(Default(), FromCreate(command), services, hasher, draw);
    var asked := [HandleCall(FromCreate(command))];
    match handled.result
    case Err(err) => Created(Err(Account(err)), db, asked, handled.hashCalls)
    case Ok(events) =>
      var a := Fold(Default(), events);
      FoldLast(Default(), events);
      FoldFromDefaultReady(events);
      if AggregateId(a).None? then
        Created(Err(Account(UnknownError)), db, asked, handled.hashCalls)
      else
        var stored := StoreCreated(db, a, events, clock, snapshotId, snapshotTime, fault, atomic, into);
        Created(stored.result, stored.tables, asked + stored.calls, handled.hashCalls)
  }

  /** `create_account`. `clock(i)` is the `Utc::now()` read for the `i`-th
      envelope; `snapshotId` and `snapshotTime` are what `snapshot` would
      draw. `atomic` picks the store: `false` is `store_events` as written,
      `true` the corrected per-envelope atomic commit. A failed
      or positive email lookup ends the call before the aggregate is
      touched. */
  function CreateAccount<O>(db: Tables, command: CreateAccountCommand, services: Services, hasher: Hasher, draw: Fresh,
                            clock: nat -> DateTime, snapshotId: string, snapshotTime: DateTime,
                            fault: FaultPlan, atomic: bool, into: AccountAggregate -> O): (r: Created<O>)
    ensures |r.calls| >= 1 && r.calls[0] == EmailExistsCall(command.email)
    ensures EmailExists(db, command.email, fault).Err? ==>
              r == Created(Err(Infra(EmailQuery)), db, [EmailExistsCall(command.email)], [])
    ensures EmailExists(db, command.email, fault) == Ok(true) ==>
              r == Created(Err(Account(AccountExists(command.email))), db, [EmailExistsCall(command.email)], [])
    ensures EmailExists(db, command.email, fault) == Ok(false) ==>
              var rest := HandleAndStore(db, command, services, hasher, draw, clock, snapshotId, snapshotTime, fault, atomic, into);
              && r.calls == [EmailExistsCall(command.email)] + rest.calls
              && r.hashCalls == rest.hashCalls
              && r.result == rest.result
              && r.tables == rest.tables
  {
    var email := command.email;
    var asked := [EmailExistsCall(email)];
    match EmailExists(db, email, fault)
    case Err(err) => Created(Err(err), db, asked, [])
    case Ok(true) => Created(Err(Account(AccountExists(email))), db, asked, [])
    case Ok(false) =>
      var rest := HandleAndStore(db, command, services, hasher, draw, clock, snapshotId, snapshotTime, fault, atomic, into);
      Created(rest.result, rest.tables, asked + rest.calls, rest.hashCalls)
  }

  /** A fresh aggregate folds one event, below the snapshot threshold: the
      create path never reaches `store_snapshot`. */
  lemma CreateNeverSnapshots<O>(db: Tables, command: CreateAccountCommand, services: Services, hasher: Hasher, draw: Fresh,
                                clock: nat -> DateTime, snapshotId: string, snapshotTime: DateTime,
                                fault: FaultPlan, atomic: bool, into: AccountAggregate -> O)
    ensures var r := CreateAccount(db, command, services, hasher, draw, clock, snapshotId, snapshotTime, fault, atomic, into);
            forall c :: c in r.calls ==> !c.StoreSnapshotCall?
  {
    var handled := Handle(Default(), FromCreate(command), services, hasher, draw);
    if handled.result.Ok? {
      FoldFromDefaultReady(handled.result.value);
    }
  }

  /** With per-envelope atomic commits, no failure of `create_account`
      leaves anything in the tables. */
  lemma CreateFailureWritesNothing<O>(db: Tables, command: CreateAccountCommand, services: Services, hasher: Hasher, draw: Fresh,
                                      clock: nat -> DateTime, snapshotId: string, snapshotTime: DateTime,
                                      fault: FaultPlan, into: AccountAggregate -> O)
    requires CreateAccount(db, command, services, hasher, draw, clock, snapshotId, snapshotTime, fault, true, into).result.Err?
    ensures CreateAccount(db, command, services, hasher, draw, clock, snapshotId, snapshotTime, fault, true, into).tables == db
  {
    var r := CreateAccount(db, command, services, hasher, draw, clock, snapshotId, snapshotTime, fault, true, into);
    CreateNeverSnapshots(db, command, services, hasher, draw, clock, snapshotId, snapshotTime, fault, true, into);
    if |r.calls| == 3 {
      var envs := r.calls[2].envelopes;
      assert envs == [envs[0]];
      AtomicSingleFailureWritesNothing(db, envs[0], fault);
    }
  }

  /** With `store_events` as written, a failed outbox insert makes
      `create_account` report `UnknownError` although the event row was
      committed: the failure path writes an event that is never queued. The
      corrected store leaves the tables as they were. */
  lemma AsWrittenFailureLeavesLoggedEvent<O>(db: Tables, command: CreateAccountCommand, services: Services, hasher: Hasher,
                                             draw: Fresh, clock: nat -> DateTime, snapshotId: string, snapshotTime: DateTime,
                                             into: AccountAggregate -> O)
    requires EmailExists(db, command.email, OutboxInsertFails) == Ok(false)
    requires hasher(services, command.password).Ok?
    ensures var r := CreateAccount(db, command, services, hasher, draw, clock, snapshotId, snapshotTime, OutboxInsertFails, false, into);
            var envs := Wrap(draw.accountId, [ExpectedEvent(command, services, hasher, draw)], clock);
            && r.result == Err(Account(UnknownError))
            && r.tables.events == db.events + Rows(envs)
            && r.tables.outbox == db.outbox
    ensures CreateAccount(db, command, services, hasher, draw, clock, snapshotId, snapshotTime, OutboxInsertFails, true, into).result.Err?
    ensures CreateAccount(db, command, services, hasher, draw, clock, snapshotId, snapshotTime, OutboxInsertFails, true, into).tables == db
  {
    var e := ExpectedEvent(command, services, hasher, draw);
    var envs := Wrap(draw.accountId, [e], clock);
    FoldLast(Default(), [e]);
    OutboxFailureLeavesLoggedEvent(db, envs[0]);
    assert envs == [envs[0]];
    assert Rows(envs) == [ToRow(envs[0])];
    CreateSucceeds(db, command, services, hasher, draw, clock, snapshotId, snapshotTime, OutboxInsertFails, true, into);
    CreateFailureWritesNothing(db, command, services, hasher, draw, clock, snapshotId, snapshotTime, OutboxInsertFails, into);
  }

  /** `create_account` succeeds exactly when the email is free, hashing
      succeeds and the single envelope is stored; it then stores one event
      row and one outbox row for the created event and returns the converted
      aggregate of that event. */
  lemma CreateSucceeds<O>(db: Tables, command: CreateAccountCommand, services: Services, hasher: Hasher, draw: Fresh,
                          clock: nat -> DateTime, snapshotId: string, snapshotTime: DateTime,
                          fault: FaultPlan, atomic: bool, into: AccountAggregate -> O)
    ensures var r := CreateAccount(db, command, services, hasher, draw, clock, snapshotId, snapshotTime, fault, atomic, into);
            r.result.Ok? <==> && EmailExists(db, command.email, fault) == Ok(false)
                              && hasher(services, command.password).Ok?
                              && InsertsSucceed(fault, 0) && !Halts(fault, 0, atomic)
    ensures var r := CreateAccount(db, command, services, hasher, draw, clock, snapshotId, snapshotTime, fault, atomic, into);
            r.result.Ok? ==>
              var e := ExpectedEvent(command, services, hasher, draw);
              var envs := Wrap(draw.accountId, [e], clock);
              && r.calls == [EmailExistsCall(command.email), HandleCall(FromCreate(command)), StoreEventsCall(envs)]
              && r.tables == db.(events := db.events + Rows(envs), outbox := db.outbox + Rows(envs))
              && r.result.value == into(Fold(Default(), [e]))
  {
    var r := CreateAccount(db, command, services, hasher, draw, clock, snapshotId, snapshotTime, fault, atomic, into);
    CreateNeverSnapshots(db, command, services, hasher, draw, clock, snapshotId, snapshotTime, fault, atomic, into);
    if EmailExists(db, command.email, fault) == Ok(false) && hasher(services, command.password).Ok? {
      var e := ExpectedEvent(command, services, hasher, draw);
      FoldLast(Default(), [e]);
      var envs := Wrap(draw.accountId, [e], clock);
      assert r.calls[2] == StoreEventsCall(envs);
      WrapKeepsEvents(draw.accountId, [e], clock);
    }
  }

  /** The account a successful creation returns to GraphQL always carries
      the drawn identity and the command's email. */
  lemma CreatedAccountHasIdentity(db: Tables, command: CreateAccountCommand, services: Services, hasher: Hasher, draw: Fresh,
                                  clock: nat -> DateTime, snapshotId: string, snapshotTime: DateTime, fault: FaultPlan, atomic: bool)
    ensures var r := CreateAccount(db, command, services, hasher, draw, clock, snapshotId, snapshotTime, fault, atomic, GraphQLDto.FromAggregate);
            r.result.Ok? ==> r.result.value.id == Some(draw.accountId) && r.result.value.email == Some(command.email)
  {
    CreateSucceeds(db, command, services, hasher, draw, clock, snapshotId, snapshotTime, fault, atomic, GraphQLDto.FromAggregate);
    if hasher(services, command.password).Ok? {
      FoldLast(Default(), [ExpectedEvent(command, services, hasher, draw)]);
    }
  }

  /** The rows a successful creation stores are tagged `"account"`, which is
      not the aggregate's own type name `"Account"` used by snapshots. */
  lemma StoredTagDiffersFromAggregateType<O>(db: Tables, command: CreateAccountCommand, services: Services, hasher: Hasher, draw: Fresh,
                                             clock: nat -> DateTime, snapshotId: string, snapshotTime: DateTime,
                                             fault: FaultPlan, atomic: bool, into: AccountAggregate -> O)
    requires CreateAccount(db, command, services, hasher, draw, clock, snapshotId, snapshotTime, fault, atomic, into).result.Ok?
    ensures var t := CreateAccount(db, command, services, hasher, draw, clock, snapshotId, snapshotTime, fault, atomic, into).tables;
            && |t.events| == |db.events| + 1
            && t.events[|db.events|].aggregate_type == EnvelopeTypeName
            && t.events[|db.events|].aggregate_type != AggregateType()
  {
    CreateSucceeds(db, command, services, hasher, draw, clock, snapshotId, snapshotTime, fault, atomic, into);
    assert EnvelopeTypeName[0] != AggregateTypeName[0];
  }
}
