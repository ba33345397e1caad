/** The state machine's scratch record (machine/context.rs): command in,
    event or error out, plus the folded aggregate and the services handle. */
module Context {
  import opened Wrappers
  import opened Command
  import opened Event
  import opened Aggregate

  /** The shared `Arc<dyn AccountServices>` handle. Its one operation,
      `hash_password`, is supplied to the hooks as an oracle. */
  datatype Services = Services(handle: nat)

  /** The `anyhow::Error` a hook records. */
  datatype ContextError = ContextError(message: string)

  datatype AccountContext = AccountContext(
    command: Option<AccountCommand>,
    event: Option<AccountEvent>,
    error: Option<ContextError>,
    current_state: Option<AccountAggregate>,
    services: Services)

  function GetEvent(c: AccountContext): Option<AccountEvent> { c.event }
  function GetCommand(c: AccountContext): Option<AccountCommand> { c.command }
  function GetError(c: AccountContext): Option<ContextError> { c.error }
  function GetCurrentState(c: AccountContext): Option<AccountAggregate> { c.current_state }
  function GetServices(c: AccountContext): Services { c.services }

  /** `AccountContext::new`: empty slots, the given state and services. */
  function NewContext(services: Services, currentState: Option<AccountAggregate>): (r: AccountContext)
    ensures GetCommand(r).None? && GetEvent(r).None? && GetError(r).None?
    ensures GetCurrentState(r) == currentState
    ensures GetServices(r) == services
  {
    AccountContext(None, None, None, currentState, services)
  }

  /** `set_event`: the event slot holds `e`; every other slot is as before. */
  function SetEvent(c: AccountContext, e: AccountEvent): (r: AccountContext)
    ensures GetEvent(r) == Some(e)
    ensures GetCommand(r) == GetCommand(c) && GetError(r) == GetError(c)
    ensures GetCurrentState(r) == GetCurrentState(c) && GetServices(r) == GetServices(c)
  {
    c.(event := Some(e))
  }

  /** `set_command`: the command slot holds `cmd`; every other slot is as before. */
  function SetCommand(c: AccountContext, cmd: AccountCommand): (r: AccountContext)
    ensures GetCommand(r) == Some(cmd)
    ensures GetEvent(r) == GetEvent(c) && GetError(r) == GetError(c)
    ensures GetCurrentState(r) == GetCurrentState(c) && GetServices(r) == GetServices(c)
  {
    c.(command := Some(cmd))
  }

  /** `set_error`: the error slot holds `err`; the event slot in particular
      is neither set nor cleared. */
  function SetError(c: AccountContext, err: ContextError): (r: AccountContext)
    ensures GetError(r) == Some(err)
    ensures GetEvent(r) == GetEvent(c) && GetCommand(r) == GetCommand(c)
    ensures GetCurrentState(r) == GetCurrentState(c) && GetServices(r) == GetServices(c)
  {
    c.(error := Some(err))
  }

  /** Error and event are independent slots: recording one never disturbs
      the other, the two writes commute, and a later event overwrites an
      earlier one. */
  lemma SlotsIndependent(c: AccountContext, e: AccountEvent, e': AccountEvent, err: ContextError)
    ensures SetError(SetEvent(c, e), err) == SetEvent(SetError(c, err), e)
    ensures SetEvent(SetEvent(c, e), e') == SetEvent(c, e')
    ensures GetEvent(SetError(c, err)) == GetEvent(c)
    ensures GetError(SetEvent(c, e)) == GetError(c)
  {
  }
}
