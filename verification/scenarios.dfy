/** End-to-end runs over the whole command side: an account is created on
    empty tables, read back, rejected a second time, and relayed. With no
    failure the as-written and the corrected store agree, so each run holds
    for both. */
module Scenarios {
  import opened Wrappers
  import opened Command
  import opened Event
  import opened Errors
  import opened Aggregate
  import opened Context
  import opened NewState
  import opened Sqlite
  import opened AccountService
  import opened OutboxService

  /** A clean creation leaves exactly one event row and one outbox row, both
      keyed by the drawn event id; the log then answers the email lookups
      with the new account. */
  lemma CreateOnEmptyTables<O>(command: CreateAccountCommand, services: Services, hasher: Hasher, draw: Fresh,
                               clock: nat -> DateTime, snapshotId: string, snapshotTime: DateTime, atomic: bool, into: AccountAggregate -> O)
    requires hasher(services, command.password).Ok?
    ensures var r := AccountService.CreateAccount(EmptyTables, command, services, hasher, draw, clock, snapshotId, snapshotTime, NoFaults, atomic, into);
            && r.result.Ok?
            && |r.tables.events| == 1 && |r.tables.outbox| == 1 && r.tables.snapshots == []
            && r.tables.events[0].sequence == draw.eventId
            && r.tables.outbox[0] == r.tables.events[0]
            && EmailExists(r.tables, command.email, NoFaults) == Ok(true)
            && RetrieveAggregateIdForEmail(r.tables, command.email, NoFaults) == Ok(draw.accountId)
  {
    var r := AccountService.CreateAccount(EmptyTables, command, services, hasher, draw, clock, snapshotId, snapshotTime, NoFaults, atomic, into);
    assert EmailExists(EmptyTables, command.email, NoFaults) == Ok(false);
    CreateSucceeds(EmptyTables, command, services, hasher, draw, clock, snapshotId, snapshotTime, NoFaults, atomic, into);
    var row := r.tables.events[0];
    assert row in r.tables.events;
    assert row.payload.email == command.email;
  }

  /** Creating a second account with an email already in the log fails with
      `AccountExists` and leaves the tables as they were. */
  lemma DuplicateEmailRejected<O>(command: CreateAccountCommand, again: CreateAccountCommand, services: Services, hasher: Hasher,
                                  draw: Fresh, draw2: Fresh, clock: nat -> DateTime, snapshotId: string, snapshotTime: DateTime,
                                  atomic: bool, into: AccountAggregate -> O)
    requires hasher(services, command.password).Ok?
    requires again.email == command.email
    ensures var first := AccountService.CreateAccount(EmptyTables, command, services, hasher, draw, clock, snapshotId, snapshotTime, NoFaults, atomic, into);
            var second := AccountService.CreateAccount(first.tables, again, services, hasher, draw2, clock, snapshotId, snapshotTime, NoFaults, atomic, into);
            && second.result == Err(Account(AccountExists(command.email)))
            && second.tables == first.tables
            && second.hashCalls == []
  {
    CreateOnEmptyTables(command, services, hasher, draw, clock, snapshotId, snapshotTime, atomic, into);
  }

  /** The relay drains what the creation queued: the bus receives exactly the
      created envelope, the outbox ends empty and the event log keeps it. */
  lemma CreateThenRelay<O>(command: CreateAccountCommand, services: Services, hasher: Hasher, draw: Fresh,
                           clock: nat -> DateTime, snapshotId: string, snapshotTime: DateTime, atomic: bool, into: AccountAggregate -> O)
    requires hasher(services, command.password).Ok?
    ensures var r := AccountService.CreateAccount(EmptyTables, command, services, hasher, draw, clock, snapshotId, snapshotTime, NoFaults, atomic, into);
            var svc := NewOutboxService(r.tables, Bus([]));
            && GetEvents(svc, NoFaults).Ok?
            && var relayed := Relay(svc, GetEvents(svc, NoFaults).value);
               && relayed.repository.outbox == []
               && relayed.bus.published == Wrap(draw.accountId, [ExpectedEvent(command, services, hasher, draw)], clock)
               && relayed.repository.events == r.tables.events
  {
    var r := AccountService.CreateAccount(EmptyTables, command, services, hasher, draw, clock, snapshotId, snapshotTime, NoFaults, atomic, into);
    CreateOnEmptyTables(command, services, hasher, draw, clock, snapshotId, snapshotTime, atomic, into);
    CreateSucceeds(EmptyTables, command, services, hasher, draw, clock, snapshotId, snapshotTime, NoFaults, atomic, into);
    var svc := NewOutboxService(r.tables, Bus([]));
    var envs := Wrap(draw.accountId, [ExpectedEvent(command, services, hasher, draw)], clock);
    assert r.tables.outbox == Rows(envs);
    EnvelopesOfRows(envs);
    RelayDrainsOutbox(svc);
    RelayEffect(svc, GetEvents(svc, NoFaults).value);
  }
}
