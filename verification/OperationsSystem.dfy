/**
 Two workers, any number of submitting and cancelling HTTP callers and any number of restarts
 interleave over one ledger. Each store call and each publish is one atomic step.
 */
module OperationsSystem {
  import opened Wrappers
  import opened OperationsTypes
  import opened OperationsStore
  import opened OperationsLedger

  datatype Completion = Success(result: string) | Failure(error: string) | Cancellation(partial: Option<string>)

  datatype WorkerPc =
    | Top
    | Claiming
    | PublishingClaim(op: Operation)
    | Checking(op: Operation)
    | Handling(op: Operation, sawCancel: bool)
    | CheckingAfter(op: Operation, result: string)
    | Writing(op: Operation, completion: Completion)
    | PublishingTerminal(done: Operation)

  datatype SubmitPc =
    | Finding(key: Key, params: string)
    | Inserting(key: Key, params: string)
    | Reading(key: Key, id: string)
    | PublishingSubmit(key: Key, id: string, submitted: Operation)
    | Refinding(key: Key)
    | Returned(key: Key, result: Option<Operation>)  // None: the insert error is passed on

  datatype CancelPc = PublishingCancel(requested: Operation) | CancelReturned

  /** One committed transition that someone has to announce. */
  datatype Tag = Submitted | Claimed | CancelWanted | Finished
  datatype Notice = Notice(tag: Tag, id: string)
  datatype Actor = Worker(kind: Kind) | Submitter(caller: nat) | Canceller(caller: nat)

  datatype System = System(
    rows: seq<Operation>,
    workers: map<Kind, WorkerPc>,
    submits: map<nat, SubmitPc>,
    cancels: map<nat, CancelPc>,
    handled: set<string>,       // ids that ever reached a handler
    missed: nat,                // completion writes that hit no row
    writes: nat,                // committed row updates
    commits: seq<Notice>,       // committed since boot
    owed: map<Notice, Actor>,   // of those, not yet published
    published: seq<Notice>)     // published since boot

  const KINDS: set<Kind> := {ImportSessions, RescanSources}

  function WriteOf(c: Completion): Write {
    match c
    case Success(result) => ToSucceeded(result)
    case Failure(error) => ToFailed(error)
    case Cancellation(result) => ToCancelled(result)
  }

  ghost predicate CancelIsRequested(rows: seq<Operation>, id: string) {
    exists i :: 0 <= i < |rows| && rows[i].id == id && rows[i].status.CancelRequested?
  }

  // ---------- steps ----------

  datatype Step =
    | CompleteQueuedCancel(kind: Kind, now: string, cancelled: Option<Operation>)
    | Claim(kind: Kind, now: string, claimed: Option<Operation>)
    | PublishClaim(kind: Kind)
    | CheckBefore(kind: Kind)
    | HandlerChecks(kind: Kind)
    | HandlerReturns(kind: Kind, outcome: Completion)
    | CheckAfter(kind: Kind)
    | CompleteWrite(kind: Kind, now: string, updated: Option<Operation>)
    | PublishTerminal(kind: Kind)
    | SubmitStart(caller: nat, key: Key, params: string)
    | SubmitFind(caller: nat, found: Option<Operation>)
    | SubmitInsert(caller: nat, id: string, now: string, inserted: bool)
    | SubmitRead(caller: nat, found: Option<Operation>)
    | SubmitPublish(caller: nat)
    | SubmitRefind(caller: nat, found: Option<Operation>)
    | RequestCancel(caller: nat, id: string, now: string, reply: CancelOutcome)
    | CancelPublish(caller: nat)
    | Restart(now: string)

  /** The step belongs to a worker (and names which). */
  predicate IsWorkerStep(step: Step) {
    step.CompleteQueuedCancel? || step.Claim? || step.PublishClaim? || step.CheckBefore? || step.HandlerChecks?
    || step.HandlerReturns? || step.CheckAfter? || step.CompleteWrite? || step.PublishTerminal?
  }

  ghost predicate Init(s: System) {
    s == System([], map[ImportSessions := Top, RescanSources := Top], map[], map[], {}, 0, 0, [], map[], [])
  }

  function At(s: System, kind: Kind, pc: WorkerPc): System {
    s.(workers := s.workers[kind := pc])
  }

  function Owe(s: System, notice: Notice, actor: Actor): System {
    s.(commits := s.commits + [notice], owed := s.owed[notice := actor])
  }

  /** The rows become `rows'` by one update, which `actor` must announce. */
  function Commit(s: System, rows': seq<Operation>, notice: Notice, actor: Actor): System {
    Owe(s.(rows := rows', writes := s.writes + 1), notice, actor)
  }

  function Announce(s: System, notice: Notice): System {
    s.(owed := s.owed - {notice}, published := s.published + [notice])
  }

  /** Worker steps that write no row. */
  predicate IsQuiet(step: Step) {
    step.PublishClaim? || step.CheckBefore? || step.HandlerChecks? || step.HandlerReturns?
    || step.CheckAfter? || step.PublishTerminal?
  }

  ghost predicate QuietStep(s: System, s': System, k: Kind, step: Step)
    requires IsQuiet(step) && k in s.workers
  {
    var pc := s.workers[k];
    match step
    case PublishClaim(_) =>
      pc.PublishingClaim? && s' == Announce(At(s, k, Checking(pc.op)), Notice(Claimed, pc.op.id))
    case CheckBefore(_) =>
      && pc.Checking?
      && s' == if CancelIsRequested(s.rows, pc.op.id) then At(s, k, Writing(pc.op, Cancellation(None)))
               else At(s, k, Handling(pc.op, false)).(handled := s.handled + {pc.op.id})
    case HandlerChecks(_) =>
      pc.Handling? && s' == At(s, k, Handling(pc.op, pc.sawCancel || CancelIsRequested(s.rows, pc.op.id)))
    case HandlerReturns(_, outcome) =>
      && pc.Handling?
      && (outcome.Cancellation? ==> pc.sawCancel)
      && s' == At(s, k, if outcome.Success? then CheckingAfter(pc.op, outcome.result) else Writing(pc.op, outcome))
    case CheckAfter(_) =>
      && pc.CheckingAfter?
      && s' == At(s, k, Writing(pc.op, if CancelIsRequested(s.rows, pc.op.id) then Cancellation(None)
                                       else Success(pc.result)))
    case PublishTerminal(_) =>
      pc.PublishingTerminal? && s' == Announce(At(s, k, Top), Notice(Finished, pc.done.id))
  }

  /** Worker steps that are a store transaction. */
  ghost predicate WritingStep(s: System, s': System, k: Kind, step: Step)
    requires IsWorkerStep(step) && !IsQuiet(step) && k in s.workers
  {
    var pc := s.workers[k];
    match step
    case CompleteQueuedCancel(_, now, cancelled) =>
      && pc.Top?
      && WriteFirst(s.rows, s'.rows, UnstartedCancelOf(k), ToCancelled(None), now, cancelled)
      && s' == (if cancelled.None? then At(s, k, Claiming)
                else Commit(At(s, k, PublishingTerminal(cancelled.value)), s'.rows,
                            Notice(Finished, cancelled.value.id), Worker(k)))
    case Claim(_, now, claimed) =>
      && pc.Claiming?
      && WriteFirst(s.rows, s'.rows, QueuedOf(k), ToRunning, now, claimed)
      && s' == (if claimed.None? then At(s, k, Top)
                else Commit(At(s, k, PublishingClaim(claimed.value)), s'.rows,
                            Notice(Claimed, claimed.value.id), Worker(k)))
    case CompleteWrite(_, now, updated) =>
      && pc.Writing?
      && WriteById(s.rows, s'.rows, pc.op.id, WriteOf(pc.completion), now, updated)
      && s' == (if updated.None? then At(s, k, Top).(missed := s.missed + 1)
                else Commit(At(s, k, PublishingTerminal(updated.value)), s'.rows,
                            Notice(Finished, updated.value.id), Worker(k)))
  }

  ghost predicate NextWorker(s: System, s': System, step: Step)
    requires IsWorkerStep(step)
  {
    && step.kind in s.workers
    && if IsQuiet(step) then QuietStep(s, s', step.kind, step) else WritingStep(s, s', step.kind, step)
  }

  ghost predicate NextSubmit(s: System, s': System, step: Step) {
    match step
    case SubmitStart(c, key, params) =>
      c !in s.submits && s' == s.(submits := s.submits[c := Finding(key, params)])
    case SubmitFind(c, found) =>
      && c in s.submits && s.submits[c].Finding?
      && var pc := s.submits[c];
      && FoundByKey(s.rows, pc.key, found)
      && s' == s.(submits := s.submits[c := if found.Some? then Returned(pc.key, found)
                                            else Inserting(pc.key, pc.params)])
    case SubmitInsert(c, id, now, inserted) =>
      && c in s.submits && s.submits[c].Inserting?
      && var pc := s.submits[c];
      && InsertRow(s.rows, s'.rows, NewRow(id, pc.key, pc.params, now), inserted)
      && s' == if inserted
               then Owe(s.(rows := s'.rows, submits := s.submits[c := Reading(pc.key, id)]),
                        Notice(Submitted, id), Submitter(c))
               else s.(submits := s.submits[c := Refinding(pc.key)])
    case SubmitRead(c, found) =>
      && c in s.submits && s.submits[c].Reading?
      && var pc := s.submits[c];
      && FoundById(s.rows, pc.id, found)
      && s' == s.(submits := s.submits[c := if found.Some? then PublishingSubmit(pc.key, pc.id, found.value)
                                            else Refinding(pc.key)])
    case SubmitPublish(c) =>
      && c in s.submits && s.submits[c].PublishingSubmit?
      && var pc := s.submits[c];
      && s' == Announce(s.(submits := s.submits[c := Returned(pc.key, Some(pc.submitted))]),
                        Notice(Submitted, pc.id))
    case SubmitRefind(c, found) =>
      && c in s.submits && s.submits[c].Refinding?
      && FoundByKey(s.rows, s.submits[c].key, found)
      && s' == s.(submits := s.submits[c := Returned(s.submits[c].key, found)])
    case _ => false
  }

  ghost predicate NextCancel(s: System, s': System, step: Step) {
    match step
    case RequestCancel(c, id, now, outcome) =>
      && c !in s.cancels
      && RequestedCancel(s.rows, s'.rows, id, now, outcome)
      && s' == (if outcome.Requested?
                then Commit(s.(cancels := s.cancels[c := PublishingCancel(outcome.row)]), s'.rows,
                            Notice(CancelWanted, id), Canceller(c))
                else s.(cancels := s.cancels[c := CancelReturned]))
    case CancelPublish(c) =>
      && c in s.cancels && s.cancels[c].PublishingCancel?
      && s' == Announce(s.(cancels := s.cancels[c := CancelReturned]),
                        Notice(CancelWanted, s.cancels[c].requested.id))
    case _ => false
  }

  /** Crash or shutdown, then bootstrap: callers are gone, rows are reconciled, a new broadcaster starts. */
  ghost predicate NextRestart(s: System, s': System, step: Step) {
    && step.Restart?
    && s' == System(Reconciled(s.rows, step.now), map[ImportSessions := Top, RescanSources := Top], map[], map[],
                    s.handled, s.missed, s.writes + Touched(s.rows), [], map[], [])
  }

  ghost predicate NextStep(s: System, s': System, step: Step) {
    if IsWorkerStep(step) then NextWorker(s, s', step)
    else NextSubmit(s, s', step) || NextCancel(s, s', step) || NextRestart(s, s', step)
  }

  ghost predicate Next(s: System, s': System) {
    exists step :: NextStep(s, s', step)
  }

  /** Each state of the trace follows from the one before it. */
  ghost predicate Steps(trace: seq<System>) {
    && |trace| > 0
    && (|trace| > 1 ==> Steps(trace[..|trace| - 1]) && Next(trace[|trace| - 2], trace[|trace| - 1]))
  }

  ghost predicate Run(trace: seq<System>) {
    Steps(trace) && Init(trace[0])
  }

  ghost function Last(trace: seq<System>): System
    requires |trace| > 0
  {
    trace[|trace| - 1]
  }

  lemma QuietFrame(s: System, s': System, k: Kind, step: Step)
    requires IsQuiet(step) && k in s.workers && QuietStep(s, s', k, step)
    ensures k in s'.workers && s'.workers == s.workers[k := s'.workers[k]]
    ensures s'.submits == s.submits && s'.cancels == s.cancels
  {
  }

  /** A worker step moves only that worker's program counter and no caller. */
  lemma WorkerFrame(s: System, s': System, step: Step)
    requires IsWorkerStep(step) && NextWorker(s, s', step)
    ensures step.kind in s'.workers && s'.workers == s.workers[step.kind := s'.workers[step.kind]]
    ensures s'.submits == s.submits && s'.cancels == s.cancels
  {
    if IsQuiet(step) {
      QuietFrame(s, s', step.kind, step);
    }
  }
}
