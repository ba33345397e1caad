/** Error values (entity/error.rs) and the failure points of the storage
    adapter. `anyhow::Error` is modelled as `AppError`, which keeps the
    original cause of every failure. */
module Errors {
  import opened Command

  /** The account domain errors. */
  datatype AccountError =
    | AccountNotExists(email: string)
    | AccountExists(email: string)
    | StateMachineTransitionFail(command: AccountCommand)
    | UnknownError

  /** A failure reported by the password hashing service. */
  datatype HashError = HashError(reason: string)

  /** Every SQL statement, transaction step or bus call that can fail.
      Statements issued once per envelope carry the envelope's index. */
  datatype Stmt =
    | EmailQuery
    | AggregateIdQuery
    | BeginStore(index: nat)
    | InsertEvent(index: nat)
    | InsertOutbox(index: nat)
    | CommitStore(index: nat)
    | RollbackStore(index: nat)
    | EventsQuery
    | InsertSnapshot
    | SnapshotQuery
    | OutboxQuery
    | BeginDelete
    | Publish
    | DeleteOutbox
    | RollbackDelete
    | CommitDelete

  /** Which statements fail in one run. This replaces the database and the
      bus as the source of failures. */
  type FaultPlan = Stmt -> bool

  /** The error type the services return (`anyhow::Error`): a domain error,
      the database or bus error raised by statement `at`, or a `fetch_one`
      that found no row. */
  datatype AppError =
    | Account(account: AccountError)
    | Infra(at: Stmt)
    | RowNotFound
}
