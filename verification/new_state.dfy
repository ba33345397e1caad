/** The hooks of the `New` state (machine/states/new.rs). `exit` is the only
    place that calls a domain service while a command is decided. */
module NewState {
  import opened Wrappers
  import opened Command
  import opened Event
  import opened Errors
  import opened Context

  /** The fresh values `exit` draws: two ULIDs and one clock reading. */
  datatype Fresh = Fresh(accountId: string, eventId: string, createdAt: DateTime)

  /** `hash_password` as dispatched through a services handle. Hashing salts
      with OS randomness, so the model leaves it uninterpreted. */
  type Hasher = (Services, string) -> Result<string, HashError>

  /** One call of `hash_password`: which services handle, which password. */
  datatype HashCall = HashCall(services: Services, password: string)

  /** A context after a hook, with the hash calls the hook made. */
  datatype Hooked = Hooked(context: AccountContext, hashCalls: seq<HashCall>)

  const CreatedEventVersion := "0.0.1"
  const HashFailureMessage := "Failed to hash password"

  /** The event `exit` records for a successful hash. */
  function CreatedEvent(c: CreateAccountCommand, hash: string, draw: Fresh): AccountEvent {
    AccountCreated(draw.accountId, c.email, hash, draw.createdAt, CreatedEventVersion, draw.eventId)
  }

  /** `New::entry` only opens a tracing span. */
  function Entry(c: AccountContext): (r: AccountContext)
    ensures r == c
  {
    c
  }

  /** `New::update` does nothing. */
  function Update(c: AccountContext): (r: AccountContext)
    ensures r == c
  {
    c
  }

  /** `New::exit`. The command must be present (the source unwraps it). The
      password is hashed exactly once through the context's services; on
      success the event slot receives a new `AccountCreated`, on failure only
      the error slot is written. */
  function Exit(c: AccountContext, hasher: Hasher, draw: Fresh): (r: Hooked)
    requires GetCommand(c).Some?
    ensures r.hashCalls == [HashCall(GetServices(c), GetCommand(c).value.create.password)]
    ensures GetCommand(r.context) == GetCommand(c)
    ensures GetCurrentState(r.context) == GetCurrentState(c) && GetServices(r.context) == GetServices(c)
    ensures var h := hasher(GetServices(c), GetCommand(c).value.create.password);
            && (h.Ok? ==> && GetEvent(r.context) == Some(CreatedEvent(GetCommand(c).value.create, h.value, draw))
                          && GetError(r.context) == GetError(c))
            && (h.Err? ==> && GetEvent(r.context) == GetEvent(c)
                           && GetError(r.context) == Some(ContextError(HashFailureMessage)))
  {
    match GetCommand(c).value
    case CreateAccount(create) =>
      var services := GetServices(c);
      var calls := [HashCall(services, create.password)];
      match hasher(services, create.password)
      case Ok(hash) => Hooked(SetEvent(c, CreatedEvent(create, hash, draw)), calls)
      case Err(_) => Hooked(SetError(c, ContextError(HashFailureMessage)), calls)
  }

  /** The recorded event carries the command's email, the hash, version
      "0.0.1" and the two draw identifiers. */
  lemma ExitEventFields(c: AccountContext, hasher: Hasher, draw: Fresh)
    requires GetCommand(c).Some?
    requires hasher(GetServices(c), GetCommand(c).value.create.password).Ok?
    ensures var e := GetEvent(Exit(c, hasher, draw).context).value;
            && e.email == GetCommand(c).value.create.email
            && e.password_hash == hasher(GetServices(c), GetCommand(c).value.create.password).value
            && e.event_version == CreatedEventVersion
            && e.id == draw.accountId && e.event_id == draw.eventId
            && e.created_at == draw.createdAt
  {
  }
}
