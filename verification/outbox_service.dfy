/** `AccountOutboxService` (service/outbox.rs): the relay side of the
    outbox, delegating to the repository and the bus it was built with. */
module OutboxService {
  import opened Wrappers
  import opened Errors
  import opened Aggregate
  import opened Sqlite

  /** The service holds the repository's tables and the bus, nothing else. */
  datatype AccountOutboxService = AccountOutboxService(repository: Tables, bus: Bus)

  /** The outcome of `send_event` and the service's state afterwards. */
  datatype Sent = Sent(result: Result<Unit, AppError>, service: AccountOutboxService)

  /** `AccountOutboxService::new`. */
  function NewOutboxService(repository: Tables, bus: Bus): (r: AccountOutboxService)
    ensures r.repository == repository && r.bus == bus
  {
    AccountOutboxService(repository, bus)
  }

  /** `get_events`: every envelope still in the outbox, or the query's error. */
  function GetEvents(svc: AccountOutboxService, fault: FaultPlan): (r: Result<seq<EventEnvelope>, AppError>)
    ensures r == RetrieveOutboxEvents(svc.repository, fault)
    ensures r.Err? <==> fault(OutboxQuery)
    ensures r.Ok? ==> |r.value| == |svc.repository.outbox|
    ensures r.Ok? ==> forall i :: 0 <= i < |r.value| ==> r.value[i].sequence == svc.repository.outbox[i].sequence
  {
    RetrieveOutboxEvents(svc.repository, fault)
  }

  /** `send_event`: publish on the service's own bus, then delete from the
      outbox; the repository's verdict is returned unchanged. */
  function SendEvent(svc: AccountOutboxService, env: EventEnvelope, fault: FaultPlan): (r: Sent)
    ensures r.result == SendAndDeleteOutboxEvent(svc.repository, env, svc.bus, fault).result
    ensures r.service.repository.events == svc.repository.events
    ensures r.service.repository.snapshots == svc.repository.snapshots
    ensures r.result.Ok? <==> !fault(BeginDelete) && !fault(Publish) && !fault(DeleteOutbox) && !fault(CommitDelete)
    ensures r.result.Err? ==> r.service.repository == svc.repository
    ensures r.result.Ok? ==> && r.service.bus.published == svc.bus.published + [env]
                             && forall row :: row in r.service.repository.outbox ==> row.sequence != env.sequence
    ensures r.service.repository.outbox != svc.repository.outbox ==> r.service.bus.published == svc.bus.published + [env]
  {
    var d := SendAndDeleteOutboxEvent(svc.repository, env, svc.bus, fault);
    if d.result.Ok? then DeliveredLeavesNoRow(svc.repository, env, svc.bus, fault); Sent(d.result, AccountOutboxService(d.tables, d.bus))
    else Sent(d.result, AccountOutboxService(d.tables, d.bus))
  }

  /** A run in which no statement fails. */
  const NoFaults: FaultPlan := (s: Stmt) => false

  /** A relay pass: send each envelope in turn. */
  function Relay(svc: AccountOutboxService, envs: seq<EventEnvelope>): AccountOutboxService
    decreases |envs|
  {
    if |envs| == 0 then svc
    else Relay(SendEvent(svc, envs[0], NoFaults).service, envs[1..])
  }

  /** Whether some envelope of `envs` has sequence `s`. */
  predicate HasSequence(envs: seq<EventEnvelope>, s: string) {
    exists i :: 0 <= i < |envs| && envs[i].sequence == s
  }

  /** An envelope list holds a sequence iff its head or its tail does. */
  lemma HasSequenceSplit(envs: seq<EventEnvelope>, s: string)
    requires |envs| > 0
    ensures HasSequence(envs, s) <==> envs[0].sequence == s || HasSequence(envs[1..], s)
  {
    if HasSequence(envs[1..], s) {
      var i :| 0 <= i < |envs[1..]| && envs[1..][i].sequence == s;
      assert envs[i + 1].sequence == s;
    }
  }

  /** Deleting the head's sequence and then the tail's deletes the whole
      list's. */
  lemma RemoveThenRelay(orig: seq<EventRow>, mid: seq<EventRow>, out: seq<EventRow>, envs: seq<EventEnvelope>)
    requires |envs| > 0
    requires mid == WithoutSequence(orig, envs[0].sequence)
    requires forall row :: multiset(out)[row] == if HasSequence(envs[1..], row.sequence) then 0 else multiset(mid)[row]
    ensures forall row :: multiset(out)[row] == if HasSequence(envs, row.sequence) then 0 else multiset(orig)[row]
  {
    forall row
      ensures multiset(out)[row] == if HasSequence(envs, row.sequence) then 0 else multiset(orig)[row]
    {
      HasSequenceSplit(envs, row.sequence);
    }
  }

  /** A fault-free relay pass publishes the envelopes in order and removes
      from the outbox every row whose sequence one of them carries. */
  lemma {:induction false} RelayEffect(svc: AccountOutboxService, envs: seq<EventEnvelope>)
    ensures Relay(svc, envs).bus.published == svc.bus.published + envs
    ensures Relay(svc, envs).repository.events == svc.repository.events
    ensures forall row :: multiset(Relay(svc, envs).repository.outbox)[row] ==
              if HasSequence(envs, row.sequence) then 0 else multiset(svc.repository.outbox)[row]
    decreases |envs|
  {
    if |envs| > 0 {
      var sent := SendEvent(svc, envs[0], NoFaults);
      var next := sent.service;
      assert sent.result.Ok?;
      RelayEffect(next, envs[1..]);
      assert Relay(svc, envs) == Relay(next, envs[1..]);
      assert svc.bus.published + [envs[0]] + envs[1..] == svc.bus.published + envs;
      RemoveThenRelay(svc.repository.outbox, next.repository.outbox, Relay(next, envs[1..]).repository.outbox, envs);
    }
  }

  /** Relaying everything `get_events` returned, with no failure, empties
      the outbox and publishes each envelope exactly once, in outbox order. */
  lemma RelayDrainsOutbox(svc: AccountOutboxService)
    ensures GetEvents(svc, NoFaults).Ok?
    ensures var envs := GetEvents(svc, NoFaults).value;
            && Relay(svc, envs).repository.outbox == []
            && Relay(svc, envs).bus.published == svc.bus.published + envs
  {
    var envs := GetEvents(svc, NoFaults).value;
    RelayEffect(svc, envs);
    var out := Relay(svc, envs).repository.outbox;
    forall row
      ensures multiset(out)[row] == 0
    {
      if row in svc.repository.outbox {
        var i :| 0 <= i < |svc.repository.outbox| && svc.repository.outbox[i] == row;
        assert envs[i].sequence == row.sequence;
      }
    }
    assert multiset(out) == multiset{};
  }
}
