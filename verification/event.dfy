/** The account domain event (entity/event.rs). */
module Event {

  /** A `chrono::DateTime<Utc>` as a count of microseconds. The model never
      does arithmetic on instants: they are only compared and copied. */
  datatype DateTime = DateTime(micros: int)

  /** The single event variant. Field order follows the Rust declaration. */
  datatype AccountEvent = AccountCreated(
    id: string,
    email: string,
    password_hash: string,
    created_at: DateTime,
    event_version: string,
    event_id: string)

  const AccountCreatedType := "AccountCreated"

  /** `DomainEvent::event_type`: the name of the variant. */
  function EventType(e: AccountEvent): (r: string)
    ensures r == AccountCreatedType <==> e.AccountCreated?
  {
    match e
    case AccountCreated(_, _, _, _, _, _) => AccountCreatedType
  }

  /** `DomainEvent::event_version`: the event's own version string. */
  function EventVersion(e: AccountEvent): (r: string)
    ensures e.AccountCreated? ==> r == e.event_version
  {
    match e
    case AccountCreated(_, _, _, _, version, _) => version
  }

  /** `DomainEvent::event_id`: the event's own identifier, used as the
      envelope sequence and as a snapshot's `last_sequence`. */
  function EventId(e: AccountEvent): (r: string)
    ensures e.AccountCreated? ==> r == e.event_id
  {
    match e
    case AccountCreated(_, _, _, _, _, eventId) => eventId
  }

  /** The derived `PartialEq` compares all six fields. */
  lemma EqualityIsStructural(a: AccountEvent, b: AccountEvent)
    ensures a == b <==>
      && a.id == b.id && a.email == b.email && a.password_hash == b.password_hash
      && a.created_at == b.created_at && a.event_version == b.event_version
      && a.event_id == b.event_id
  {
  }
}
