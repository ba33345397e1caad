/** The SQLite repository (adapters/outbound/sqlite.rs) over in-memory
    tables. The event log, the outbox and the snapshot log are sequences of
    rows in insertion order; every statement, transaction step and bus call
    consults a `FaultPlan` to decide whether it fails. A transaction is a
    working copy of the tables that a successful commit installs and that
    any other ending discards. */
module Sqlite {
  import opened Wrappers
  import opened Event
  import opened Errors
  import opened Aggregate
  import opened SqlDto
  import opened TextOrder
  import opened SqlSelect

  /** The eight columns written to `account_events` and to
      `account_outbox_events`. The payload column holds the storage form of
      the event. */
  datatype EventRow = EventRow(
    aggregate_type: string,
    aggregate_id: string,
    sequence: string,
    event_type: string,
    event_version: string,
    payload: SQLAccountEvent,
    metadata: map<string, string>,
    timestamp: DateTime)

  /** The six columns of `account_snapshots`. */
  datatype SnapshotRow = SnapshotRow(
    aggregate_type: string,
    aggregate_id: string,
    payload: SQLAccountAggregate,
    last_sequence: string,
    snapshot_id: string,
    timestamp: DateTime)

  datatype Tables = Tables(events: seq<EventRow>, outbox: seq<EventRow>, snapshots: seq<SnapshotRow>)

  /** The event bus, reduced to the envelopes it accepted, in order. */
  datatype Bus = Bus(published: seq<EventEnvelope>)

  /** The outcome of a writing operation and the tables afterwards. */
  datatype Stored = Stored(result: Result<Unit, AppError>, tables: Tables)

  /** The outcome of `send_and_delete_outbox_event`: tables and bus afterwards. */
  datatype Delivered = Delivered(result: Result<Unit, AppError>, tables: Tables, bus: Bus)

  const EmptyTables := Tables([], [], [])

  // ---------------------------------------------------------------------
  // Row conversions

  /** Read a stored row back as an envelope: the payload column is decoded,
      the `event_type` and `event_version` columns are not consulted. */
  function RowToEnvelope(row: EventRow): EventEnvelope {
    EventEnvelope(row.aggregate_id, row.aggregate_type, row.sequence, ToEvent(row.payload), row.metadata, row.timestamp)
  }

  /** The tuple `store_events` binds for one envelope. Reading it back gives
      the envelope again. */
  function ToRow(env: EventEnvelope): (r: EventRow)
    ensures r.event_type == EventType(env.payload) && r.event_version == EventVersion(env.payload)
    ensures RowToEnvelope(r) == env
  {
    EventRow(env.aggregate_type, env.aggregate_id, env.sequence, EventType(env.payload),
             EventVersion(env.payload), FromEvent(env.payload), env.metadata, env.timestamp)
  }

  function Rows(envs: seq<EventEnvelope>): (r: seq<EventRow>)
    ensures |r| == |envs| && forall i :: 0 <= i < |envs| ==> r[i] == ToRow(envs[i])
  {
    seq(|envs|, i requires 0 <= i < |envs| => ToRow(envs[i]))
  }

  function Envelopes(rows: seq<EventRow>): (r: seq<EventEnvelope>)
    ensures |r| == |rows| && forall i :: 0 <= i < |rows| ==> r[i] == RowToEnvelope(rows[i])
  {
    seq(|rows|, i requires 0 <= i < |rows| => RowToEnvelope(rows[i]))
  }

  /** Storing rows and reading them back returns the envelopes stored. */
  lemma EnvelopesOfRows(envs: seq<EventEnvelope>)
    ensures Envelopes(Rows(envs)) == envs
  {
  }

  /** A snapshot row read back; the payload goes through the storage form of
      the aggregate. */
  function RowToSnapshot(row: SnapshotRow): AggregateSnapshot {
    AggregateSnapshot(row.aggregate_id, row.aggregate_type, ToAggregate(row.payload),
                      row.last_sequence, row.snapshot_id, row.timestamp)
  }

  function ToSnapshotRow(s: AggregateSnapshot): SnapshotRow {
    SnapshotRow(s.aggregate_type, s.aggregate_id, FromAggregate(s.payload), s.last_sequence, s.snapshot_id, s.timestamp)
  }

  // ---------------------------------------------------------------------
  // store_events

  /** The two inserts an envelope needs. */
  datatype Table = EventLog | Outbox

  function InsertStmt(t: Table, i: nat): Stmt {
    match t
    case EventLog => InsertEvent(i)
    case Outbox => InsertOutbox(i)
  }

  predicate InsertsSucceed(fault: FaultPlan, i: nat) {
    !fault(InsertEvent(i)) && !fault(InsertOutbox(i))
  }

  predicate AllInsertsSucceed(fault: FaultPlan, lo: nat, hi: nat) {
    forall j :: lo <= j < hi ==> InsertsSucceed(fault, j)
  }

  /** Whether envelope `i` ends up in table `t`. As written, each insert
      stands on its own; with `atomic`, an envelope is kept in both tables
      or in neither. */
  predicate KeepsRow(fault: FaultPlan, i: nat, t: Table, atomic: bool) {
    if atomic then InsertsSucceed(fault, i) else !fault(InsertStmt(t, i))
  }

  /** Whether processing stops at envelope `i`: its `begin` fails, or its
      `commit` fails. With `atomic`, an envelope whose insert failed is not
      committed, so only its `begin` can stop the loop. */
  predicate Halts(fault: FaultPlan, i: nat, atomic: bool) {
    || fault(BeginStore(i))
    || ((!atomic || InsertsSucceed(fault, i)) && fault(CommitStore(i)))
  }

  /** The error the halting statement reports. */
  function HaltError(fault: FaultPlan, i: nat): AppError {
    if fault(BeginStore(i)) then Infra(BeginStore(i)) else Infra(CommitStore(i))
  }

  /** The first envelope at or after `lo` where processing stops, or `n`. */
  function FirstHalt(n: nat, lo: nat, fault: FaultPlan, atomic: bool): (r: nat)
    requires lo <= n
    ensures lo <= r <= n
    ensures forall j :: lo <= j < r ==> !Halts(fault, j, atomic)
    ensures r < n ==> Halts(fault, r, atomic)
    decreases n - lo
  {
    if lo == n then n else if Halts(fault, lo, atomic) then lo else FirstHalt(n, lo + 1, fault, atomic)
  }

  /** The rows of `envs[lo..hi]` that table `t` keeps, in order. */
  function Kept(envs: seq<EventEnvelope>, lo: nat, hi: nat, fault: FaultPlan, t: Table, atomic: bool): seq<EventRow>
    requires lo <= hi <= |envs|
    decreases hi - lo
  {
    if lo == hi then []
    else (if KeepsRow(fault, lo, t, atomic) then [ToRow(envs[lo])] else []) + Kept(envs, lo + 1, hi, fault, t, atomic)
  }

  /** An envelope whose two inserts succeed is kept by both tables. */
  lemma SucceedingInsertsKeep(fault: FaultPlan, lo: nat, hi: nat, t: Table, atomic: bool)
    requires AllInsertsSucceed(fault, lo, hi)
    ensures forall j :: lo <= j < hi ==> KeepsRow(fault, j, t, atomic)
  {
    forall j | lo <= j < hi
      ensures KeepsRow(fault, j, t, atomic)
    {
      assert InsertsSucceed(fault, j);
      match t
      case EventLog =>
      case Outbox =>
    }
  }

  /** When every envelope is kept, the kept rows are all the rows. */
  lemma {:induction false} KeptAll(envs: seq<EventEnvelope>, lo: nat, hi: nat, fault: FaultPlan, t: Table, atomic: bool)
    requires lo <= hi <= |envs|
    requires forall j :: lo <= j < hi ==> KeepsRow(fault, j, t, atomic)
    ensures Kept(envs, lo, hi, fault, t, atomic) == Rows(envs[lo..hi])
    decreases hi - lo
  {
    if lo < hi {
      KeptAll(envs, lo + 1, hi, fault, t, atomic);
      assert Rows(envs[lo..hi]) == [ToRow(envs[lo])] + Rows(envs[lo + 1..hi]);
    }
  }

  lemma AppendAssoc<T>(a: seq<T>, b: seq<T>, c: seq<T>)
    ensures (a + b) + c == a + (b + c)
  {
  }

  /** Processing passes envelope `i`: the first halt, the kept rows and the
      insert verdict of `i..` are those of `i + 1..` with envelope `i` added. */
  lemma PassStep(envs: seq<EventEnvelope>, i: nat, fault: FaultPlan, atomic: bool)
    requires i < |envs| && !Halts(fault, i, atomic)
    ensures var n := FirstHalt(|envs|, i, fault, atomic);
            && n == FirstHalt(|envs|, i + 1, fault, atomic)
            && Kept(envs, i, n, fault, EventLog, atomic)
               == (if KeepsRow(fault, i, EventLog, atomic) then [ToRow(envs[i])] else []) + Kept(envs, i + 1, n, fault, EventLog, atomic)
            && Kept(envs, i, n, fault, Outbox, atomic)
               == (if KeepsRow(fault, i, Outbox, atomic) then [ToRow(envs[i])] else []) + Kept(envs, i + 1, n, fault, Outbox, atomic)
            && (AllInsertsSucceed(fault, i, n) <==> InsertsSucceed(fault, i) && AllInsertsSucceed(fault, i + 1, n))
  {
  }

  /** Processing stops at envelope `i` (or `i` is the end): nothing from
      `i..` is kept. */
  lemma StopStep(envs: seq<EventEnvelope>, i: nat, fault: FaultPlan, atomic: bool)
    requires i <= |envs| && (i == |envs| || Halts(fault, i, atomic))
    ensures FirstHalt(|envs|, i, fault, atomic) == i
    ensures Kept(envs, i, i, fault, EventLog, atomic) == [] && Kept(envs, i, i, fault, Outbox, atomic) == []
    ensures AllInsertsSucceed(fault, i, i)
  {
  }

  /** Envelopes `i..` of one `store_events` call. `failed` records whether
      an earlier insert failed. Each envelope gets its own transaction: a
      failing `begin` or `commit` returns at once with that error, leaving
      earlier envelopes committed; otherwise the inserts' failures are
      collected and reported as `UnknownError` at the end. */
  function StoreFrom(db: Tables, envs: seq<EventEnvelope>, i: nat, failed: bool, fault: FaultPlan, atomic: bool): (r: Stored)
    requires i <= |envs|
    ensures var n := FirstHalt(|envs|, i, fault, atomic);
            && r.tables.events == db.events + Kept(envs, i, n, fault, EventLog, atomic)
            && r.tables.outbox == db.outbox + Kept(envs, i, n, fault, Outbox, atomic)
            && r.tables.snapshots == db.snapshots
            && (n < |envs| ==> r.result == Err(HaltError(fault, n)))
            && (n == |envs| ==>
                  r.result == (if failed || !AllInsertsSucceed(fault, i, n) then Err(Account(UnknownError)) else Ok(Unit)))
    decreases |envs| - i
  {
    if i == |envs| then
      StopStep(envs, i, fault, atomic);
      Stored(if failed then Err(Account(UnknownError)) else Ok(Unit), db)
    else if fault(BeginStore(i)) then
      StopStep(envs, i, fault, atomic);
      Stored(Err(Infra(BeginStore(i))), db)
    else
      var ok := InsertsSucceed(fault, i);
      if atomic && !ok then
        // the transaction is dropped without commit: both inserts roll back
        PassStep(envs, i, fault, atomic);
        StoreFrom(db, envs, i + 1, true, fault, atomic)
      else
        // each insert adds its row unless it fails
        var logged := if fault(InsertEvent(i)) then [] else [ToRow(envs[i])];
        var queued := if fault(InsertOutbox(i)) then [] else [ToRow(envs[i])];
        var inTx := db.(events := db.events + logged, outbox := db.outbox + queued);
        if fault(CommitStore(i)) then
          StopStep(envs, i, fault, atomic);
          Stored(Err(Infra(CommitStore(i))), db)
        else
          PassStep(envs, i, fault, atomic);
          assert logged == if KeepsRow(fault, i, EventLog, atomic) then [ToRow(envs[i])] else [];
          assert queued == if KeepsRow(fault, i, Outbox, atomic) then [ToRow(envs[i])] else [];
          var rest := StoreFrom(inTx, envs, i + 1, failed || !ok, fault, atomic);
          var n := FirstHalt(|envs|, i + 1, fault, atomic);
          AppendAssoc(db.events, logged, Kept(envs, i + 1, n, fault, EventLog, atomic));
          AppendAssoc(db.outbox, queued, Kept(envs, i + 1, n, fault, Outbox, atomic));
          rest
  }

  /** The overall verdict of a run: success exactly when every statement of
      every envelope succeeds, and then both tables gain every row, in order. */
  lemma StoreVerdict(db: Tables, envs: seq<EventEnvelope>, fault: FaultPlan, atomic: bool)
    ensures var r := StoreFrom(db, envs, 0, false, fault, atomic);
            && (r.result.Ok? <==> forall j :: 0 <= j < |envs| ==> InsertsSucceed(fault, j) && !Halts(fault, j, atomic))
            && (r.result.Ok? ==> r.tables == db.(events := db.events + Rows(envs), outbox := db.outbox + Rows(envs)))
  {
    var n := FirstHalt(|envs|, 0, fault, atomic);
    var r := StoreFrom(db, envs, 0, false, fault, atomic);
    if forall j :: 0 <= j < |envs| ==> InsertsSucceed(fault, j) && !Halts(fault, j, atomic) {
      assert n == |envs|;
      assert r.result.Ok?;
    }
    if r.result.Ok? {
      assert n == |envs|;
      assert AllInsertsSucceed(fault, 0, n);
      SucceedingInsertsKeep(fault, 0, n, EventLog, atomic);
      SucceedingInsertsKeep(fault, 0, n, Outbox, atomic);
      KeptAll(envs, 0, n, fault, EventLog, atomic);
      KeptAll(envs, 0, n, fault, Outbox, atomic);
      assert envs[0..n] == envs;
    }
  }

  /** `store_events` as written: each envelope's two inserts run in one
      transaction that is committed whatever the inserts' outcome. */
  function StoreEvents(db: Tables, envs: seq<EventEnvelope>, fault: FaultPlan): (r: Stored)
    ensures r.result.Ok? <==> forall j :: 0 <= j < |envs| ==> InsertsSucceed(fault, j) && !Halts(fault, j, false)
    ensures r.result.Ok? ==> r.tables == db.(events := db.events + Rows(envs), outbox := db.outbox + Rows(envs))
    ensures r.result.Err? ==> r.result.error == Account(UnknownError) || r.result.error.Infra?
    ensures r.tables.snapshots == db.snapshots
    ensures var n := FirstHalt(|envs|, 0, fault, false);
            && r.tables.events == db.events + Kept(envs, 0, n, fault, EventLog, false)
            && r.tables.outbox == db.outbox + Kept(envs, 0, n, fault, Outbox, false)
  {
    StoreVerdict(db, envs, fault, false);
    StoreFrom(db, envs, 0, false, fault, false)
  }

  /** `store_events` with per-envelope atomicity: a transaction whose insert
      failed is dropped instead of committed. */
  function StoreEventsAtomic(db: Tables, envs: seq<EventEnvelope>, fault: FaultPlan): (r: Stored)
    ensures r.result.Ok? <==> forall j :: 0 <= j < |envs| ==> InsertsSucceed(fault, j) && !Halts(fault, j, true)
    ensures r.result.Ok? ==> r.tables == db.(events := db.events + Rows(envs), outbox := db.outbox + Rows(envs))
    ensures r.result.Err? ==> r.result.error == Account(UnknownError) || r.result.error.Infra?
    ensures r.tables.snapshots == db.snapshots
    ensures exists added :: r.tables.events == db.events + added && r.tables.outbox == db.outbox + added
  {
    StoreVerdict(db, envs, fault, true);
    var r := StoreFrom(db, envs, 0, false, fault, true);
    var n := FirstHalt(|envs|, 0, fault, true);
    KeptAtomicAgree(envs, 0, n, fault);
    r
  }

  /** The store a caller of `store_events` gets: the program as written, or
      the corrected per-envelope atomic commit. */
  function StoreEventsWith(db: Tables, envs: seq<EventEnvelope>, fault: FaultPlan, atomic: bool): (r: Stored)
    ensures r.result.Ok? <==> forall j :: 0 <= j < |envs| ==> InsertsSucceed(fault, j) && !Halts(fault, j, atomic)
    ensures r.result.Ok? ==> r.tables == db.(events := db.events + Rows(envs), outbox := db.outbox + Rows(envs))
    ensures r.result.Err? ==> r.result.error == Account(UnknownError) || r.result.error.Infra?
    ensures r.tables.snapshots == db.snapshots
    ensures atomic ==> r == StoreEventsAtomic(db, envs, fault)
    ensures !atomic ==> r == StoreEvents(db, envs, fault)
  {
    if atomic then StoreEventsAtomic(db, envs, fault) else StoreEvents(db, envs, fault)
  }

  /** A run in which only the outbox insert of the first envelope fails. */
  const OutboxInsertFails: FaultPlan := (s: Stmt) => s == InsertOutbox(0)

  /** Under atomic commits both tables keep the same envelopes. */
  lemma {:induction false} KeptAtomicAgree(envs: seq<EventEnvelope>, lo: nat, hi: nat, fault: FaultPlan)
    requires lo <= hi <= |envs|
    ensures Kept(envs, lo, hi, fault, EventLog, true) == Kept(envs, lo, hi, fault, Outbox, true)
    decreases hi - lo
  {
    if lo < hi {
      KeptAtomicAgree(envs, lo + 1, hi, fault);
    }
  }

  /** As written, a failed outbox insert does not undo the event-log insert
      of the same envelope: the event is logged but never queued. */
  lemma OutboxFailureLeavesLoggedEvent(db: Tables, env: EventEnvelope)
    ensures var r := StoreEvents(db, [env], OutboxInsertFails);
            && r.result == Err(Account(UnknownError))
            && r.tables.events == db.events + [ToRow(env)]
            && r.tables.outbox == db.outbox
  {
    var fault := OutboxInsertFails;
    assert FirstHalt(1, 0, fault, false) == 1;
    assert FirstHalt(1, 1, fault, false) == 1;
  }

  /** As written, a failed event-log insert still commits the outbox row:
      the event is queued for delivery but absent from the log. */
  lemma EventLogFailureLeavesQueuedEvent(db: Tables, env: EventEnvelope)
    ensures var fault := (s: Stmt) => s == InsertEvent(0);
            var r := StoreEvents(db, [env], fault);
            && r.result == Err(Account(UnknownError))
            && r.tables.events == db.events
            && r.tables.outbox == db.outbox + [ToRow(env)]
  {
    var fault := (s: Stmt) => s == InsertEvent(0);
    assert FirstHalt(1, 0, fault, false) == 1;
    assert FirstHalt(1, 1, fault, false) == 1;
  }

  /** With atomic commits the same fault leaves neither row behind. */
  lemma AtomicStoreLeavesNoOrphan(db: Tables, env: EventEnvelope, failing: Stmt)
    requires failing == InsertEvent(0) || failing == InsertOutbox(0)
    ensures var fault := (s: Stmt) => s == failing;
            var r := StoreEventsAtomic(db, [env], fault);
            && r.result == Err(Account(UnknownError))
            && r.tables == db
  {
    var fault := (s: Stmt) => s == failing;
    assert FirstHalt(1, 0, fault, true) == 1;
    assert FirstHalt(1, 1, fault, true) == 1;
  }

  /** With atomic commits a failed run of one envelope leaves the tables as
      they were. */
  lemma AtomicSingleFailureWritesNothing(db: Tables, env: EventEnvelope, fault: FaultPlan)
    requires StoreEventsAtomic(db, [env], fault).result.Err?
    ensures StoreEventsAtomic(db, [env], fault).tables == db
  {
    var n := FirstHalt(1, 0, fault, true);
    var r := StoreFrom(db, [env], 0, false, fault, true);
    if n == 1 {
      assert !InsertsSucceed(fault, 0);
      assert Kept([env], 1, 1, fault, EventLog, true) == [];
      assert Kept([env], 1, 1, fault, Outbox, true) == [];
    }
  }

  /** A failing `begin` or `commit` on envelope `k` stops the run: earlier
      envelopes stay stored and no later one is touched. */
  lemma StopAtHalt(db: Tables, envs: seq<EventEnvelope>, fault: FaultPlan, k: nat)
    requires k < |envs|
    requires forall j :: 0 <= j < |envs| ==> InsertsSucceed(fault, j)
    requires forall j :: 0 <= j < k ==> !Halts(fault, j, false)
    requires Halts(fault, k, false)
    ensures var r := StoreEvents(db, envs, fault);
            && r.result == Err(HaltError(fault, k))
            && r.tables.events == db.events + Rows(envs[..k])
            && r.tables.outbox == db.outbox + Rows(envs[..k])
  {
    var n := FirstHalt(|envs|, 0, fault, false);
    assert n == k;
    assert AllInsertsSucceed(fault, 0, k);
    SucceedingInsertsKeep(fault, 0, k, EventLog, false);
    SucceedingInsertsKeep(fault, 0, k, Outbox, false);
    KeptAll(envs, 0, k, fault, EventLog, false);
    KeptAll(envs, 0, k, fault, Outbox, false);
    assert envs[0..k] == envs[..k];
  }

  // ---------------------------------------------------------------------
  // Reading the event log and the outbox

  /** `WHERE aggregate_id = ?`, keeping table order. */
  function OfAggregate(envs: seq<EventEnvelope>, id: string): (r: seq<EventEnvelope>)
    ensures forall e :: multiset(r)[e] == if e.aggregate_id == id then multiset(envs)[e] else 0
    decreases |envs|
  {
    if |envs| == 0 then []
    else
      assert envs == [envs[0]] + envs[1..];
      (if envs[0].aggregate_id == id then [envs[0]] else []) + OfAggregate(envs[1..], id)
  }

  /** `WHERE sequence > ?`, keeping table order. */
  function After(envs: seq<EventEnvelope>, s: string): (r: seq<EventEnvelope>)
    ensures forall e :: multiset(r)[e] == if Below(s, e.sequence) then multiset(envs)[e] else 0
    decreases |envs|
  {
    if |envs| == 0 then []
    else
      assert envs == [envs[0]] + envs[1..];
      (if Below(s, envs[0].sequence) then [envs[0]] else []) + After(envs[1..], s)
  }

  /** Whether `retrieve_events` returns envelope `e` for these arguments. */
  predicate Selected(e: EventEnvelope, id: string, after: Option<string>) {
    e.aggregate_id == id && (after.None? || Below(after.value, e.sequence))
  }

  /** `retrieve_events`: the stored envelopes of `id`, each as often as it is
      stored; with `after`, only those whose sequence sorts after it, in
      ascending sequence order. Without `after` the query sets no order;
      the model returns table order. */
  function RetrieveEvents(db: Tables, id: string, after: Option<string>, fault: FaultPlan): (r: Result<seq<EventEnvelope>, AppError>)
    ensures r.Err? <==> fault(EventsQuery)
    ensures r.Err? ==> r.error == Infra(EventsQuery)
    ensures r.Ok? ==> forall e :: multiset(r.value)[e] ==
                        if Selected(e, id, after) then multiset(Envelopes(db.events))[e] else 0
    ensures r.Ok? && after.Some? ==> SortedBySequence(r.value)
  {
    if fault(EventsQuery) then Err(Infra(EventsQuery))
    else
      var mine := OfAggregate(Envelopes(db.events), id);
      match after
      case None => Ok(mine)
      case Some(s) => Ok(SortBySequence(After(mine, s)))
  }

  /** `retrieve_outbox_events`: every undelivered envelope, in table order. */
  function RetrieveOutboxEvents(db: Tables, fault: FaultPlan): (r: Result<seq<EventEnvelope>, AppError>)
    ensures r.Err? <==> fault(OutboxQuery)
    ensures r.Err? ==> r.error == Infra(OutboxQuery)
    ensures r.Ok? ==> |r.value| == |db.outbox|
    ensures r.Ok? ==> forall i :: 0 <= i < |db.outbox| ==> r.value[i] == RowToEnvelope(db.outbox[i])
  {
    if fault(OutboxQuery) then Err(Infra(OutboxQuery)) else Ok(Envelopes(db.outbox))
  }

  /** What `store_events` queues is what the outbox hands out. */
  lemma StoredEventsAreQueued(db: Tables, envs: seq<EventEnvelope>, fault: FaultPlan)
    requires StoreEvents(db, envs, fault).result.Ok? || StoreEventsAtomic(db, envs, fault).result.Ok?
    requires !fault(OutboxQuery)
    ensures StoreEvents(db, envs, fault).result.Ok? ==>
              RetrieveOutboxEvents(StoreEvents(db, envs, fault).tables, fault) == Ok(Envelopes(db.outbox) + envs)
    ensures StoreEventsAtomic(db, envs, fault).result.Ok? ==>
              RetrieveOutboxEvents(StoreEventsAtomic(db, envs, fault).tables, fault) == Ok(Envelopes(db.outbox) + envs)
  {
    assert Envelopes(db.outbox + Rows(envs)) == Envelopes(db.outbox) + envs;
  }

  // ---------------------------------------------------------------------
  // The account lookups

  /** How many event rows carry `email` in their payload. */
  function CountEmail(rows: seq<EventRow>, email: string): (n: nat)
    ensures n <= |rows|
    ensures n > 0 <==> exists i :: 0 <= i < |rows| && rows[i].payload.email == email
    decreases |rows|
  {
    if |rows| == 0 then 0
    else
      var rest := CountEmail(rows[1..], email);
      assert forall i :: 1 <= i < |rows| ==> rows[i] == rows[1..][i - 1];
      (if rows[0].payload.email == email then 1 else 0) + rest
  }

  /** `email_exists`: whether some stored event's payload carries `email`. */
  function EmailExists(db: Tables, email: string, fault: FaultPlan): (r: Result<bool, AppError>)
    ensures r.Err? <==> fault(EmailQuery)
    ensures r.Err? ==> r.error == Infra(EmailQuery)
    ensures r.Ok? ==> (r.value <==> exists row :: row in db.events && row.payload.email == email)
  {
    if fault(EmailQuery) then Err(Infra(EmailQuery))
    else
      var count := CountEmail(db.events, email);
      Ok(count > 0)
  }

  /** `WHERE json_extract(payload, '$.email') = ?`. */
  function WithEmail(rows: seq<EventRow>, email: string): (r: seq<EventRow>)
    ensures forall row :: row in r <==> row in rows && row.payload.email == email
    decreases |rows|
  {
    if |rows| == 0 then []
    else
      assert forall row :: row in rows <==> row == rows[0] || row in rows[1..];
      (if rows[0].payload.email == email then [rows[0]] else []) + WithEmail(rows[1..], email)
  }

  /** `retrieve_aggregate_id_for_email`: the aggregate of the row with the
      greatest sequence among those carrying `email`; `fetch_one` fails when
      there is none. */
  function RetrieveAggregateIdForEmail(db: Tables, email: string, fault: FaultPlan): (r: Result<string, AppError>)
    ensures fault(AggregateIdQuery) ==> r == Err(Infra(AggregateIdQuery))
    ensures !fault(AggregateIdQuery) ==>
              (r == Err(RowNotFound) <==> forall row :: row in db.events ==> row.payload.email != email)
    ensures r.Ok? ==> exists row :: && row in db.events && row.payload.email == email && row.aggregate_id == r.value
                                   && forall other :: other in db.events && other.payload.email == email ==>
                                                       AtMost(other.sequence, row.sequence)
  {
    if fault(AggregateIdQuery) then Err(Infra(AggregateIdQuery))
    else
      var rows := WithEmail(db.events, email);
      if |rows| == 0 then Err(RowNotFound)
      else
        var i := ArgMax(rows, (row: EventRow) => row.sequence);
        assert forall other :: other in rows ==> AtMost(other.sequence, rows[i].sequence);
        Ok(rows[i].aggregate_id)
  }

  // ---------------------------------------------------------------------
  // Snapshots

  /** `WHERE aggregate_id = ?` on the snapshot log. */
  function SnapshotsOf(rows: seq<SnapshotRow>, id: string): (r: seq<SnapshotRow>)
    ensures forall row :: row in r <==> row in rows && row.aggregate_id == id
    decreases |rows|
  {
    if |rows| == 0 then []
    else
      assert forall row :: row in rows <==> row == rows[0] || row in rows[1..];
      (if rows[0].aggregate_id == id then [rows[0]] else []) + SnapshotsOf(rows[1..], id)
  }

  /** `store_snapshot`: append one row; earlier snapshots are kept. A failed
      insert is reported as `UnknownError`. */
  function StoreSnapshot(db: Tables, s: AggregateSnapshot, fault: FaultPlan): (r: Stored)
    ensures r.result.Ok? <==> !fault(InsertSnapshot)
    ensures r.result.Err? ==> r.result.error == Account(UnknownError) && r.tables == db
    ensures r.result.Ok? ==> r.tables == db.(snapshots := db.snapshots + [ToSnapshotRow(s)])
  {
    if fault(InsertSnapshot) then Stored(Err(Account(UnknownError)), db)
    else Stored(Ok(Unit), db.(snapshots := db.snapshots + [ToSnapshotRow(s)]))
  }

  /** `retrieve_latest_snapshot`: the snapshot of `id` with the greatest
      `snapshot_id`, or none when `id` has no snapshot. */
  function RetrieveLatestSnapshot(db: Tables, id: string, fault: FaultPlan): (r: Result<Option<AggregateSnapshot>, AppError>)
    ensures r.Err? <==> fault(SnapshotQuery)
    ensures r.Err? ==> r.error == Infra(SnapshotQuery)
    ensures r.Ok? ==> (r.value.None? <==> forall row :: row in db.snapshots ==> row.aggregate_id != id)
    ensures r.Ok? && r.value.Some? ==>
              exists row :: && row in db.snapshots && row.aggregate_id == id && r.value.value == RowToSnapshot(row)
                            && forall other :: other in db.snapshots && other.aggregate_id == id ==>
                                                AtMost(other.snapshot_id, row.snapshot_id)
  {
    if fault(SnapshotQuery) then Err(Infra(SnapshotQuery))
    else
      var mine := SnapshotsOf(db.snapshots, id);
      if |mine| == 0 then Ok(None)
      else
        var i := ArgMax(mine, (row: SnapshotRow) => row.snapshot_id);
        assert forall other :: other in mine ==> AtMost(other.snapshot_id, mine[i].snapshot_id);
        Ok(Some(RowToSnapshot(mine[i])))
  }

  /** A stored snapshot whose id sorts after every earlier one of its
      aggregate is the next one read back, with `status` and
      `applied_events` lost on the way through the storage form. */
  lemma StoredSnapshotIsLatest(db: Tables, s: AggregateSnapshot, fault: FaultPlan)
    requires !fault(InsertSnapshot) && !fault(SnapshotQuery)
    requires forall row :: row in db.snapshots && row.aggregate_id == s.aggregate_id ==> Below(row.snapshot_id, s.snapshot_id)
    ensures var loaded := RetrieveLatestSnapshot(StoreSnapshot(db, s, fault).tables, s.aggregate_id, fault);
            loaded == Ok(Some(s.(payload := s.payload.(status := None, applied_events := 0))))
  {
    var after := StoreSnapshot(db, s, fault).tables;
    var newRow := ToSnapshotRow(s);
    assert newRow in after.snapshots;
    var loaded := RetrieveLatestSnapshot(after, s.aggregate_id, fault);
    var row :| && row in after.snapshots && row.aggregate_id == s.aggregate_id && loaded.value.value == RowToSnapshot(row)
               && forall other :: other in after.snapshots && other.aggregate_id == s.aggregate_id ==>
                                   AtMost(other.snapshot_id, row.snapshot_id);
    if row != newRow {
      assert row in db.snapshots;
      assert AtMost(newRow.snapshot_id, row.snapshot_id);
      AtMostTotalOrder(newRow.snapshot_id, row.snapshot_id, newRow.snapshot_id);
      BelowIrreflexive(newRow.snapshot_id);
      assert false;
    }
    AggregateRoundTrip(s.payload);
  }

  // ---------------------------------------------------------------------
  // Delivery

  /** `DELETE ... WHERE sequence = ?`, keeping the order of the rest. */
  function WithoutSequence(rows: seq<EventRow>, s: string): (r: seq<EventRow>)
    ensures forall row :: multiset(r)[row] == if row.sequence != s then multiset(rows)[row] else 0
    decreases |rows|
  {
    if |rows| == 0 then []
    else
      assert rows == [rows[0]] + rows[1..];
      (if rows[0].sequence != s then [rows[0]] else []) + WithoutSequence(rows[1..], s)
  }

  /** `send_and_delete_outbox_event`: begin, publish, then delete every
      outbox row with the envelope's sequence and commit. A failed publish
      leaves the outbox as it was; a failed delete is rolled back, so the
      envelope stays queued although the bus has it. */
  function SendAndDeleteOutboxEvent(db: Tables, env: EventEnvelope, bus: Bus, fault: FaultPlan): (r: Delivered)
    ensures r.tables.events == db.events && r.tables.snapshots == db.snapshots
    ensures r.bus == bus || r.bus == Bus(bus.published + [env])
    ensures r.tables.outbox != db.outbox ==> r.bus == Bus(bus.published + [env])
    ensures fault(BeginDelete) || fault(Publish) ==> r.tables == db && r.bus == bus && r.result.Err?
    ensures r.result.Ok? <==> !fault(BeginDelete) && !fault(Publish) && !fault(DeleteOutbox) && !fault(CommitDelete)
    ensures r.result.Ok? ==> && r.tables.outbox == WithoutSequence(db.outbox, env.sequence)
                             && r.bus == Bus(bus.published + [env])
    ensures r.result.Err? ==> r.tables == db && r.result.error.Infra?
  {
    if fault(BeginDelete) then Delivered(Err(Infra(BeginDelete)), db, bus)
    else if fault(Publish) then Delivered(Err(Infra(Publish)), db, bus)
    else
      var sent := Bus(bus.published + [env]);
      if fault(DeleteOutbox) then
        var failure := if fault(RollbackDelete) then RollbackDelete else DeleteOutbox;
        Delivered(Err(Infra(failure)), db, sent)
      else if fault(CommitDelete) then Delivered(Err(Infra(CommitDelete)), db, sent)
      else Delivered(Ok(Unit), db.(outbox := WithoutSequence(db.outbox, env.sequence)), sent)
  }

  /** Delivery is at least once: when the delete fails after a successful
      publish, the retry publishes the envelope a second time and only then
      removes it from the outbox. */
  lemma RetryAfterFailedDeleteDuplicates(db: Tables, env: EventEnvelope, bus: Bus)
    ensures var first := SendAndDeleteOutboxEvent(db, env, bus, (s: Stmt) => s == DeleteOutbox);
            var second := SendAndDeleteOutboxEvent(first.tables, env, first.bus, (s: Stmt) => false);
            && first.result.Err? && first.tables == db
            && second.result.Ok?
            && second.bus.published == bus.published + [env, env]
            && second.tables.outbox == WithoutSequence(db.outbox, env.sequence)
  {
    var first := SendAndDeleteOutboxEvent(db, env, bus, (s: Stmt) => s == DeleteOutbox);
    assert first.tables == db && first.bus.published == bus.published + [env];
    assert bus.published + [env] + [env] == bus.published + [env, env];
  }

  /** A failed publish keeps the row for the next pass, which delivers it
      once and then removes it. */
  lemma RetryAfterFailedPublish(db: Tables, env: EventEnvelope, bus: Bus)
    ensures var first := SendAndDeleteOutboxEvent(db, env, bus, (s: Stmt) => s == Publish);
            var second := SendAndDeleteOutboxEvent(first.tables, env, first.bus, (s: Stmt) => false);
            && first.result.Err? && first.tables == db && first.bus == bus
            && second.result.Ok?
            && second.bus.published == bus.published + [env]
            && second.tables.outbox == WithoutSequence(db.outbox, env.sequence)
  {
  }

  /** After a successful delivery no outbox row carries the sequence. */
  lemma DeliveredLeavesNoRow(db: Tables, env: EventEnvelope, bus: Bus, fault: FaultPlan)
    requires SendAndDeleteOutboxEvent(db, env, bus, fault).result.Ok?
    ensures forall row :: row in SendAndDeleteOutboxEvent(db, env, bus, fault).tables.outbox ==> row.sequence != env.sequence
  {
    var out := SendAndDeleteOutboxEvent(db, env, bus, fault).tables.outbox;
    forall row | row in out
      ensures row.sequence != env.sequence
    {
      assert multiset(out)[row] > 0;
    }
  }
}
