/** The row of the `operations` table, and the status classes the SQL text groups it by. */
module OperationsTypes {
  import opened Wrappers

  datatype Kind = ImportSessions | RescanSources

  datatype Status =
    | Queued | Running | CancelRequested
    | Succeeded | Failed | Cancelled | Interrupted

  /** What identifies a submission for deduplication: the columns of the partial unique index. */
  datatype Key = Key(kind: Kind, paramsHash: string, inputVersion: string)

  datatype Operation = Operation(
    id: string,
    key: Key,
    status: Status,
    paramsJson: string,
    resultJson: Option<string>,
    errorJson: Option<string>,
    submittedAt: string,
    startedAt: Option<string>,
    finishedAt: Option<string>,
    cancelRequestedAt: Option<string>)

  predicate IsTerminal(s: Status) {
    s.Succeeded? || s.Failed? || s.Cancelled? || s.Interrupted?
  }

  /** The statuses named by the partial index and by the idempotency lookup. */
  predicate IsBlocking(s: Status) {
    s.Queued? || s.Running? || s.CancelRequested? || s.Succeeded?
  }
}
