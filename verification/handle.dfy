/** `AccountAggregate::handle` (entity/aggregate.rs): seed a context, place
    the machine in the state recovered from the last applied event, decide,
    and read the event slot. Kept apart from `Aggregate` because the machine
    context itself holds an aggregate. */
module AggregateHandle {
  import opened Wrappers
  import opened Command
  import opened Event
  import opened Errors
  import opened Aggregate
  import opened Context
  import opened NewState
  import opened Machine

  /** The result of `handle`, with the hash calls made while deciding. */
  datatype Handled = Handled(result: Result<seq<AccountEvent>, AccountError>, hashCalls: seq<HashCall>)

  /** The machine state recovered from the last applied event: one case per
      event variant, and `New` when nothing was applied. */
  function StartState(a: AccountAggregate): (r: States)
    ensures r == New <==> a.last_event.None?
    ensures r == Created <==> (a.last_event.Some? && a.last_event.value.AccountCreated?)
  {
    match a.last_event
    case None => New
    case Some(AccountCreated(_, _, _, _, _, _)) => Created
  }

  /** The context `handle` builds: the aggregate is handed to the machine
      only when an event has been applied to it. */
  function SeedContext(a: AccountAggregate, services: Services): (r: AccountContext)
    ensures GetCurrentState(r) == (if a.last_event.Some? then Some(a) else None)
    ensures GetServices(r) == services
    ensures GetCommand(r).None? && GetEvent(r).None? && GetError(r).None?
  {
    match a.last_event
    case Some(_) => NewContext(services, Some(a))
    case None => NewContext(services, None)
  }

  /** `Aggregate::handle`. Exactly the event the machine left in the context
      is returned; with none, the command comes back inside
      `StateMachineTransitionFail`. */
  function Handle(a: AccountAggregate, command: AccountCommand, services: Services, hasher: Hasher, draw: Fresh): (r: Handled)
    ensures r.result.Ok? ==> |r.result.value| == 1
    ensures r.result.Err? ==> r.result.error == StateMachineTransitionFail(command)
    ensures a.last_event.Some? ==> r.result.Err? && r.hashCalls == []
    ensures a.last_event.None? ==>
              var h := hasher(services, command.create.password);
              && r.hashCalls == [HashCall(services, command.create.password)]
              && (r.result.Ok? <==> h.Ok?)
              && (r.result.Ok? ==> r.result.value == [CreatedEvent(command.create, h.value, draw)])
  {
    var context := SeedContext(a, services);
    var machine := CreateAccountMachine(StartState(a));
    var context := SetCommand(context, command);
    DecideFromNew(context, hasher, draw);
    var decided := Decide(machine, context, hasher, draw);
    match GetEvent(decided.context)
    case Some(e) => Handled(Ok([e]), decided.hashCalls)
    case None => Handled(Err(StateMachineTransitionFail(command)), decided.hashCalls)
  }

  /** An aggregate already created rejects every command: only `New` has an
      outgoing transition. */
  lemma CreatedRejectsCommands(a: AccountAggregate, command: AccountCommand, services: Services, hasher: Hasher, draw: Fresh)
    requires a.last_event.Some?
    ensures Handle(a, command, services, hasher, draw).result == Err(StateMachineTransitionFail(command))
  {
  }

  /** Creating from scratch folds to an aggregate whose identity, email and
      hash are the ones `handle` produced, with exactly one applied event. */
  lemma HandleThenApply(command: CreateAccountCommand, services: Services, hasher: Hasher, draw: Fresh)
    requires hasher(services, command.password).Ok?
    ensures var r := Handle(Default(), FromCreate(command), services, hasher, draw).result;
            && r.Ok?
            && var a := Fold(Default(), r.value);
               && a.id == Some(draw.accountId)
               && a.email == Some(command.email)
               && a.password_hash == Some(hasher(services, command.password).value)
               && a.applied_events == 1
               && a.status.None?
  {
    var r := Handle(Default(), FromCreate(command), services, hasher, draw).result;
    FoldLast(Default(), r.value);
    FoldCount(Default(), r.value);
  }
}
