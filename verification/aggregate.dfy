/** The account aggregate's folded state, its event fold and its snapshot
    policy (entity/aggregate.rs), together with the envelope types of the
    event-sourcing engine instantiated for this aggregate. */
module Aggregate {
  import opened Wrappers
  import opened Event

  /** `AccountAggregate`. `applied_events` is an `i32` in the source. */
  datatype AccountAggregate = AccountAggregate(
    id: Option<string>,
    email: Option<string>,
    status: Option<string>,
    password_hash: Option<string>,
    created_at: Option<DateTime>,
    last_event: Option<AccountEvent>,
    applied_events: int)

  /** `EventEnvelope<AccountAggregate>`: one stored or published event. */
  datatype EventEnvelope = EventEnvelope(
    aggregate_id: string,
    aggregate_type: string,
    sequence: string,
    payload: AccountEvent,
    metadata: map<string, string>,
    timestamp: DateTime)

  /** `AggregateSnapshot<AccountAggregate>`. */
  datatype AggregateSnapshot = AggregateSnapshot(
    aggregate_id: string,
    aggregate_type: string,
    payload: AccountAggregate,
    last_sequence: string,
    snapshot_id: string,
    timestamp: DateTime)

  /** Number of applied events from which `snapshot` produces a snapshot. */
  const SnapshotThreshold := 10

  const AggregateTypeName := "Account"

  /** `Default for AccountAggregate`: nothing known, nothing applied. */
  function Default(): (r: AccountAggregate)
    ensures r.id.None? && r.email.None? && r.status.None?
    ensures r.password_hash.None? && r.created_at.None? && r.last_event.None?
    ensures r.applied_events == 0
    ensures Consistent(r)
  {
    AccountAggregate(None, None, None, None, None, None, 0)
  }

  /** `Aggregate::aggregate_type`. */
  function AggregateType(): (r: string)
    ensures r == AggregateTypeName
  {
    AggregateTypeName
  }

  /** `Aggregate::aggregate_id`: the identity once an event assigned it. */
  function AggregateId(a: AccountAggregate): (r: Option<string>)
    ensures r.Some? <==> a.id.Some?
    ensures r.Some? ==> r.value == a.id.value
  {
    a.id
  }

  /** Every fold-produced aggregate satisfies this: the counter is never
      negative, and once an event was applied, `last_event` is present and
      the identity, email, hash and creation time are the ones it carries. */
  predicate Consistent(a: AccountAggregate) {
    && a.applied_events >= 0
    && (a.applied_events > 0 ==>
          && a.last_event.Some?
          && a.id == Some(a.last_event.value.id)
          && a.email == Some(a.last_event.value.email)
          && a.password_hash == Some(a.last_event.value.password_hash)
          && a.created_at == Some(a.last_event.value.created_at))
  }

  /** `Aggregate::apply`: fold one event. Counts every call, copies the
      creating event's fields, records the event, leaves `status` alone. */
  function Apply(a: AccountAggregate, e: AccountEvent): (r: AccountAggregate)
    ensures r.applied_events == a.applied_events + 1
    ensures r.id == Some(e.id) && r.email == Some(e.email)
    ensures r.password_hash == Some(e.password_hash) && r.created_at == Some(e.created_at)
    ensures r.last_event == Some(e)
    ensures r.status == a.status
    ensures Consistent(a) ==> Consistent(r)
  {
    match e
    case AccountCreated(id, email, passwordHash, createdAt, _, _) =>
      a.(applied_events := a.applied_events + 1,
         id := Some(id),
         email := Some(email),
         password_hash := Some(passwordHash),
         created_at := Some(createdAt),
         last_event := Some(e))
  }

  /** Apply `es` in order, as the service's `for_each` does. */
  function Fold(a: AccountAggregate, es: seq<AccountEvent>): (r: AccountAggregate)
    decreases |es|
  {
    if |es| == 0 then a else Apply(Fold(a, es[..|es| - 1]), es[|es| - 1])
  }

  /** `Aggregate::apply_snapshot`: every folded field is replaced by the
      payload's, the counter is kept. */
  function ApplySnapshot(a: AccountAggregate, s: AggregateSnapshot): (r: AccountAggregate)
    ensures r.(applied_events := 0) == s.payload.(applied_events := 0)
    ensures r.applied_events == a.applied_events
  {
    var p := s.payload;
    a.(id := p.id,
       email := p.email,
       password_hash := p.password_hash,
       created_at := p.created_at,
       last_event := p.last_event,
       status := p.status)
  }

  /** What `snapshot` needs so that its two `unwrap`s succeed. */
  predicate SnapshotReady(a: AccountAggregate) {
    a.applied_events >= SnapshotThreshold ==> a.id.Some? && a.last_event.Some?
  }

  /** `Aggregate::snapshot`. The ULID and the clock reading are supplied by
      the caller. */
  function Snapshot(a: AccountAggregate, snapshotId: string, now: DateTime): (r: Option<AggregateSnapshot>)
    requires SnapshotReady(a)
    ensures r.Some? <==> a.applied_events >= SnapshotThreshold
    ensures r.Some? ==> && r.value.aggregate_id == a.id.value
                        && r.value.aggregate_type == AggregateType()
                        && r.value.last_sequence == EventId(a.last_event.value)
                        && r.value.payload == a
                        && r.value.snapshot_id == snapshotId
                        && r.value.timestamp == now
  {
    if a.applied_events >= SnapshotThreshold then
      Some(AggregateSnapshot(
        AggregateId(a).value, AggregateType(), a, EventId(a.last_event.value), snapshotId, now))
    else
      None
  }

  // ---------------------------------------------------------------------
  // Properties of the fold

  /** Each event bumps the counter by exactly one. */
  lemma {:induction false} FoldCount(a: AccountAggregate, es: seq<AccountEvent>)
    ensures Fold(a, es).applied_events == a.applied_events + |es|
    decreases |es|
  {
    if |es| > 0 {
      FoldCount(a, es[..|es| - 1]);
    }
  }

  /** The fold keeps the consistency invariant. */
  lemma {:induction false} FoldConsistent(a: AccountAggregate, es: seq<AccountEvent>)
    requires Consistent(a)
    ensures Consistent(Fold(a, es))
    decreases |es|
  {
    if |es| > 0 {
      FoldConsistent(a, es[..|es| - 1]);
    }
  }

  /** `status` is never touched by the fold. */
  lemma {:induction false} FoldStatus(a: AccountAggregate, es: seq<AccountEvent>)
    ensures Fold(a, es).status == a.status
    decreases |es|
  {
    if |es| > 0 {
      FoldStatus(a, es[..|es| - 1]);
    }
  }

  /** After a non-empty fold the state is the last event's, and `status` is
      still the starting one. */
  lemma FoldLast(a: AccountAggregate, es: seq<AccountEvent>)
    requires |es| > 0
    ensures Fold(a, es).last_event == Some(es[|es| - 1])
    ensures Fold(a, es).id == Some(es[|es| - 1].id)
    ensures Fold(a, es).status == a.status
  {
    FoldStatus(a, es);
  }

  /** From the default aggregate, any fold that applied an event has an
      identity and a last event, so `snapshot`'s `unwrap`s cannot fail. */
  lemma FoldFromDefaultReady(es: seq<AccountEvent>)
    ensures Fold(Default(), es).applied_events == |es|
    ensures |es| > 0 ==> Fold(Default(), es).id.Some? && Fold(Default(), es).last_event.Some?
    ensures SnapshotReady(Fold(Default(), es))
  {
    FoldCount(Default(), es);
    FoldConsistent(Default(), es);
  }

  /** A snapshot exists after exactly `SnapshotThreshold` or more events in
      one lifetime: 10 events give one, 9 do not. */
  lemma SnapshotAfterThreshold(es: seq<AccountEvent>, snapshotId: string, now: DateTime)
    ensures SnapshotReady(Fold(Default(), es))
    ensures Snapshot(Fold(Default(), es), snapshotId, now).Some? <==> |es| >= SnapshotThreshold
  {
    FoldFromDefaultReady(es);
  }

  /** Folding a concatenation is folding the parts one after the other. */
  lemma {:induction false} FoldConcat(a: AccountAggregate, p: seq<AccountEvent>, q: seq<AccountEvent>)
    ensures Fold(a, p + q) == Fold(Fold(a, p), q)
    decreases |q|
  {
    if |q| == 0 {
      assert p + q == p;
    } else {
      assert (p + q)[..|p + q| - 1] == p + q[..|q| - 1];
      FoldConcat(a, p, q[..|q| - 1]);
    }
  }

  /** The counter does not influence the other fields. */
  lemma {:induction false} FoldIgnoresCounter(a: AccountAggregate, n: int, es: seq<AccountEvent>)
    ensures Fold(a.(applied_events := n), es) == Fold(a, es).(applied_events := n + |es|)
    decreases |es|
  {
    if |es| > 0 {
      FoldIgnoresCounter(a, n, es[..|es| - 1]);
      FoldCount(a, es[..|es| - 1]);
    }
  }

  /** Replay from a snapshot taken after the first `k` events reaches the
      state of the full replay in every field but the counter, which counts
      only the events folded after the snapshot (`apply_snapshot` does not
      restore it). */
  lemma ReplayFromSnapshot(es: seq<AccountEvent>, k: nat, snapshotId: string, now: DateTime)
    requires SnapshotThreshold <= k <= |es|
    ensures SnapshotReady(Fold(Default(), es[..k]))
    ensures var s := Snapshot(Fold(Default(), es[..k]), snapshotId, now);
            && s.Some?
            && var replayed := Fold(ApplySnapshot(Default(), s.value), es[k..]);
               && replayed.(applied_events := 0) == Fold(Default(), es).(applied_events := 0)
               && replayed.applied_events == |es| - k
  {
    var prefix := Fold(Default(), es[..k]);
    FoldFromDefaultReady(es[..k]);
    FoldFromDefaultReady(es);
    var s := Snapshot(prefix, snapshotId, now).value;
    var base := ApplySnapshot(Default(), s);
    assert base == prefix.(applied_events := 0);
    FoldIgnoresCounter(prefix, 0, es[k..]);
    FoldCount(prefix, es[k..]);
    assert es[..k] + es[k..] == es;
    FoldConcat(Default(), es[..k], es[k..]);
  }
}
