/** Message-bus representations of the account event and aggregate
    (dtos/transport/nats.rs). JSON encoding and the whole-second truncation of
    timestamps by the serializer are not part of the model. */
module NatsDto {
  import opened Wrappers
  import opened Event
  import opened Aggregate

  /** `NATSAccountEvent`, tagged by `event_type` when serialized. */
  datatype NATSAccountEvent = AccountCreated(
    id: string,
    event_id: string,
    event_version: string,
    email: string,
    password_hash: string,
    created_at: DateTime)

  /** `NATSAccountAggregate`: no `status`, no counter. */
  datatype NATSAccountAggregate = NATSAccountAggregate(
    id: Option<string>,
    email: Option<string>,
    password_hash: Option<string>,
    created_at: Option<DateTime>,
    last_event: Option<NATSAccountEvent>)

  const DefaultEventVersion := "0.0.0"

  /** `Default for NATSAccountEvent`; the ULID and clock are supplied. */
  function DefaultEvent(eventId: string, now: DateTime): (r: NATSAccountEvent)
    ensures r.id == "" && r.email == "" && r.password_hash == ""
    ensures r.event_version == DefaultEventVersion
    ensures r.event_id == eventId && r.created_at == now
  {
    NATSAccountEvent.AccountCreated("", eventId, DefaultEventVersion, "", "", now)
  }

  /** `Into<AccountEvent> for NATSAccountEvent`: field by field. */
  function ToEvent(s: NATSAccountEvent): (r: AccountEvent)
    ensures r.id == s.id && r.event_id == s.event_id && r.event_version == s.event_version
    ensures r.email == s.email && r.password_hash == s.password_hash && r.created_at == s.created_at
  {
    match s
    case AccountCreated(id, eventId, version, email, hash, createdAt) =>
      Event.AccountCreated(id, email, hash, createdAt, version, eventId)
  }

  /** `From<AccountEvent> for NATSAccountEvent`: nothing is lost. */
  function FromEvent(e: AccountEvent): (r: NATSAccountEvent)
    ensures ToEvent(r) == e
  {
    match e
    case AccountCreated(id, email, hash, createdAt, version, eventId) =>
      NATSAccountEvent.AccountCreated(id, eventId, version, email, hash, createdAt)
  }

  /** `Into<Option<AccountEvent>> for NATSAccountEvent`: always present. */
  function ToOptionEvent(s: NATSAccountEvent): (r: Option<AccountEvent>)
    ensures r == Some(ToEvent(s))
  {
    match s
    case AccountCreated(id, eventId, version, email, hash, createdAt) =>
      Some(Event.AccountCreated(id, email, hash, createdAt, version, eventId))
  }

  /** Both event conversions are mutually inverse. */
  lemma EventRoundTrips(e: AccountEvent, s: NATSAccountEvent)
    ensures ToEvent(FromEvent(e)) == e
    ensures FromEvent(ToEvent(s)) == s
  {
  }

  /** `From<AccountAggregate> for NATSAccountAggregate`. */
  function FromAggregate(a: AccountAggregate): (r: NATSAccountAggregate)
    ensures r.id == a.id && r.email == a.email
    ensures r.password_hash == a.password_hash && r.created_at == a.created_at
    ensures r.last_event == a.last_event.Map(FromEvent)
  {
    NATSAccountAggregate(a.id, a.email, a.password_hash, a.created_at, a.last_event.Map(FromEvent))
  }

  /** `Into<AccountAggregate> for NATSAccountAggregate`; the fields the
      wire form lacks take their defaults. */
  function ToAggregate(s: NATSAccountAggregate): (r: AccountAggregate)
    ensures r.id == s.id && r.email == s.email
    ensures r.password_hash == s.password_hash && r.created_at == s.created_at
    ensures r.last_event == s.last_event.Map(ToEvent)
    ensures r.status == Default().status && r.applied_events == Default().applied_events
  {
    Default().(id := s.id, email := s.email, password_hash := s.password_hash,
               created_at := s.created_at, last_event := s.last_event.Map(ToEvent))
  }

  /** Sending and receiving an aggregate keeps identity, email, hash, creation
      time and last event, and resets `status` and `applied_events`. */
  lemma AggregateRoundTrip(a: AccountAggregate)
    ensures ToAggregate(FromAggregate(a)) == a.(status := None, applied_events := 0)
  {
    EventRoundTrips(Event.AccountCreated("", "", "", DateTime(0), "", ""), DefaultEvent("", DateTime(0)));
    if a.last_event.Some? {
      assert ToEvent(FromEvent(a.last_event.value)) == a.last_event.value;
    }
  }

  /** The wire form itself survives a receive and a send unchanged. */
  lemma WireAggregateRoundTrip(s: NATSAccountAggregate)
    ensures FromAggregate(ToAggregate(s)) == s
  {
    if s.last_event.Some? {
      EventRoundTrips(ToEvent(s.last_event.value), s.last_event.value);
    }
  }

  /** The loss is real: an aggregate with a status does not come back. */
  lemma StatusIsLost(a: AccountAggregate)
    requires a.status.Some?
    ensures ToAggregate(FromAggregate(a)) != a
  {
    AggregateRoundTrip(a);
  }
}
