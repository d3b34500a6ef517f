/** The invariant of every run of the operations system, and what it means for rows and workers. */
module OperationsSafety {
  import opened Wrappers
  import opened OperationsTypes
  import opened OperationsStore
  import opened OperationsLedger
  import opened OperationsSystem

  // ---------- the ledger and its rank ----------

  /** The four ways a step can touch the table. */
  datatype RowChange =
    | Untouched
    | Updated(i: nat, w: Write, now: string)
    | Inserted(id: string, key: Key, params: string, now: string)
    | Reconciling(now: string)

  ghost predicate Changes(s: System, s': System, change: RowChange) {
    match change
    case Untouched => s'.rows == s.rows && s'.writes == s.writes
    case Updated(i, w, now) => Committed(s.rows, s'.rows, i, w, now) && s'.writes == s.writes + 1
    case Inserted(id, key, params, now) =>
      InsertRow(s.rows, s'.rows, NewRow(id, key, params, now), true) && s'.writes == s.writes
    case Reconciling(now) => s'.rows == Reconciled(s.rows, now) && s'.writes == s.writes + Touched(s.rows)
  }

  ghost predicate WorkerChangeOf(s: System, step: Step, change: RowChange)
    requires IsWorkerStep(step) && change.Updated?
  {
    || (step.CompleteQueuedCancel? && change.w == ToCancelled(None)
        && IsFirst(s.rows, UnstartedCancelOf(step.kind), change.i))
    || (step.Claim? && change.w == ToRunning && IsFirst(s.rows, QueuedOf(step.kind), change.i))
    || (step.CompleteWrite? && step.kind in s.workers && s.workers[step.kind].Writing?
        && change.i < |s.rows| && s.rows[change.i].id == s.workers[step.kind].op.id
        && change.w == WriteOf(s.workers[step.kind].completion))
  }

  /** After its write the worker carries the row as committed. */
  ghost predicate Carries(s: System, k: Kind, i: nat) {
    && k in s.workers && i < |s.rows|
    && (s.workers[k] == PublishingClaim(s.rows[i]) || s.workers[k] == PublishingTerminal(s.rows[i]))
  }

  /** What a worker's transaction did to the table, seen from the step. */
  ghost predicate ExplainsWorker(s: System, s': System, step: Step, change: RowChange)
    requires IsWorkerStep(step)
  {
    && Changes(s, s', change) && (change.Untouched? || change.Updated?)
    && (change.Updated? ==> WorkerChangeOf(s, step, change) && Carries(s', step.kind, change.i))
  }

  lemma QueuedCancelChange(s: System, s': System, step: Step) returns (change: RowChange)
    requires step.CompleteQueuedCancel? && NextWorker(s, s', step)
    ensures ExplainsWorker(s, s', step, change)
    ensures change.Updated? <==> step.cancelled.Some?
  {
    change := Untouched;
    if step.cancelled.Some? {
      var i: nat :| IsFirst(s.rows, UnstartedCancelOf(step.kind), i) && step.cancelled.value == s'.rows[i]
                    && Committed(s.rows, s'.rows, i, ToCancelled(None), step.now);
      change := Updated(i, ToCancelled(None), step.now);
    }
  }

  lemma ClaimChange(s: System, s': System, step: Step) returns (change: RowChange)
    requires step.Claim? && NextWorker(s, s', step)
    ensures ExplainsWorker(s, s', step, change)
    ensures change.Updated? <==> step.claimed.Some?
  {
    change := Untouched;
    if step.claimed.Some? {
      var i: nat :| IsFirst(s.rows, QueuedOf(step.kind), i) && step.claimed.value == s'.rows[i]
                    && Committed(s.rows, s'.rows, i, ToRunning, step.now);
      change := Updated(i, ToRunning, step.now);
    }
  }

  lemma CompletionChange(s: System, s': System, step: Step) returns (change: RowChange)
    requires step.CompleteWrite? && NextWorker(s, s', step)
    ensures ExplainsWorker(s, s', step, change)
    ensures change.Updated? <==> step.updated.Some?
  {
    change := Untouched;
    if step.updated.Some? {
      var pc := s.workers[step.kind];
      var i: nat :| Committed(s.rows, s'.rows, i, WriteOf(pc.completion), step.now) && s.rows[i].id == pc.op.id
                    && step.updated.value == s'.rows[i];
      change := Updated(i, WriteOf(pc.completion), step.now);
    }
  }

  lemma QuietChange(s: System, s': System, step: Step)
    requires IsQuiet(step) && NextWorker(s, s', step)
    ensures ExplainsWorker(s, s', step, Untouched)
  {
  }

  /** The transaction of the step hit a row. */
  predicate FoundRow(step: Step) {
    || (step.CompleteQueuedCancel? && step.cancelled.Some?) || (step.Claim? && step.claimed.Some?)
    || (step.CompleteWrite? && step.updated.Some?)
  }

  lemma WorkerChange(s: System, s': System, step: Step) returns (change: RowChange)
    requires IsWorkerStep(step) && NextWorker(s, s', step)
    ensures ExplainsWorker(s, s', step, change)
    ensures change.Updated? <==> FoundRow(step)
  {
    if step.CompleteQueuedCancel? {
      change := QueuedCancelChange(s, s', step);
    } else if step.Claim? {
      change := ClaimChange(s, s', step);
    } else if step.CompleteWrite? {
      change := CompletionChange(s, s', step);
    } else {
      QuietChange(s, s', step);
      change := Untouched;
    }
  }

  lemma CallerChange(s: System, s': System, step: Step) returns (change: RowChange)
    requires !IsWorkerStep(step) && NextStep(s, s', step)
    ensures Changes(s, s', change)
    ensures change.Updated? ==> step.RequestCancel? && change.w == ToCancelRequested
    ensures change.Reconciling? <==> step.Restart?
    ensures change.Inserted? ==> step.SubmitInsert? && step.inserted
  {
    change := Untouched;
    match step {
      case SubmitInsert(c, id, now, true) =>
        change := Inserted(id, s.submits[c].key, s.submits[c].params, now);
      case RequestCancel(c, id, now, Requested(row)) =>
        var i: nat :| Committed(s.rows, s'.rows, i, ToCancelRequested, now);
        change := Updated(i, ToCancelRequested, now);
      case Restart(now) =>
        change := Reconciling(now);
      case _ =>
    }
  }

  ghost predicate LedgerPart(s: System) {
    LedgerInv(s.rows) && s.writes + RankSum(s.rows) <= 3 * |s.rows|
  }

  lemma ChangeKeepsLedger(s: System, s': System, change: RowChange)
    requires LedgerPart(s) && Changes(s, s', change)
    ensures LedgerPart(s') && Evolves(s.rows, s'.rows)
  {
    match change {
      case Untouched =>
      case Updated(i, w, now) => WriteKeepsLedger(s.rows, s'.rows, i, w, now);
      case Inserted(id, key, params, now) => InsertKeepsLedger(s.rows, s'.rows, id, key, params, now);
      case Reconciling(now) =>
        ReconcileKeepsLedger(s.rows, now);
        ReconcileLowersRank(s.rows, now);
    }
  }

  // ---------- workers and the rows in their hands ----------

  predicate Holds(pc: WorkerPc) {
    pc.PublishingClaim? || pc.Checking? || pc.Handling? || pc.CheckingAfter? || pc.Writing?
  }

  /** The worker is committed to a cancelled outcome. */
  predicate MustBeCancelRequested(pc: WorkerPc) {
    (pc.Handling? && pc.sawCancel) || (pc.Writing? && pc.completion.Cancellation?)
  }

  /** Started and not finished. */
  predicate Active(row: Operation) {
    row.startedAt.Some? && !IsTerminal(row.status)
  }

  predicate HeldRow(pc: WorkerPc, kind: Kind, row: Operation) {
    && Holds(pc)
    && row.id == pc.op.id && row.key.kind == kind && Active(row)
    && (MustBeCancelRequested(pc) ==> row.status.CancelRequested?)
  }

  ghost predicate HasHeldRow(rows: seq<Operation>, pc: WorkerPc, kind: Kind) {
    exists i :: 0 <= i < |rows| && HeldRow(pc, kind, rows[i])
  }

  ghost predicate StartedOnce(rows: seq<Operation>, id: string) {
    exists i :: 0 <= i < |rows| && rows[i].id == id && rows[i].startedAt.Some?
  }

  ghost predicate ActiveIsHeld(s: System, row: Operation) {
    var k := row.key.kind;
    Active(row) ==> k in s.workers && Holds(s.workers[k]) && s.workers[k].op.id == row.id
  }

  ghost predicate HandsFull(s: System) {
    forall k :: k in s.workers && Holds(s.workers[k]) ==> HasHeldRow(s.rows, s.workers[k], k)
  }

  ghost predicate AllActiveHeld(s: System) {
    forall i :: 0 <= i < |s.rows| ==> ActiveIsHeld(s, s.rows[i])
  }

  ghost predicate HandledStarted(s: System) {
    forall id :: id in s.handled ==> StartedOnce(s.rows, id)
  }

  ghost predicate WorkerPart(s: System) {
    s.workers.Keys == KINDS && s.missed == 0 && HandsFull(s) && AllActiveHeld(s) && HandledStarted(s)
  }

  lemma HandledSurvive(s: System, s': System)
    requires LedgerInv(s.rows) && Evolves(s.rows, s'.rows) && HandledStarted(s) && s'.handled == s.handled
    ensures HandledStarted(s')
  {
    forall id | id in s'.handled ensures StartedOnce(s'.rows, id) {
      var i :| 0 <= i < |s.rows| && s.rows[i].id == id && s.rows[i].startedAt.Some?;
      assert RowEvolves(s.rows[i], s'.rows[i]) && RowInv(s.rows[i]);
    }
  }

  /** The completion write of a worker always finds exactly one row, in a status its guard accepts. */
  lemma CompletionNeverMisses(s: System, kind: Kind) returns (i: nat)
    requires WorkerPart(s) && LedgerPart(s) && kind in s.workers && s.workers[kind].Writing?
    ensures
      var pc := s.workers[kind];
      && i < |s.rows| && s.rows[i].id == pc.op.id && Guard(WriteOf(pc.completion), s.rows[i].status)
      && HeldRow(pc, kind, s.rows[i])
      && forall j :: 0 <= j < |s.rows| && s.rows[j].id == pc.op.id ==> j == i
  {
    var pc := s.workers[kind];
    i :| 0 <= i < |s.rows| && HeldRow(pc, kind, s.rows[i]);
    assert RowInv(s.rows[i]);
  }

  // ---------- steps that only move a program counter ----------

  /** The hand is passed on unchanged; a cancelled outcome is only chosen on seeing the request. */
  ghost predicate PassesHand(s: System, s': System, k: Kind) {
    && k in s.workers && s'.rows == s.rows && s'.missed == s.missed
    && k in s'.workers && s'.workers == s.workers[k := s'.workers[k]]
    && var pc, pc' := s.workers[k], s'.workers[k];
    && (Holds(pc') <==> Holds(pc)) && (Holds(pc) ==> pc'.op == pc.op)
    && (Holds(pc') && MustBeCancelRequested(pc') ==> MustBeCancelRequested(pc) || CancelIsRequested(s.rows, pc.op.id))
    && s.handled <= s'.handled && (s'.handled != s.handled ==> Holds(pc) && s'.handled == s.handled + {pc.op.id})
  }

  lemma QuietStepPassesHand(s: System, s': System, step: Step)
    requires IsQuiet(step) && NextWorker(s, s', step)
    ensures PassesHand(s, s', step.kind)
  {
  }

  lemma PassingHandKeepsWorkers(s: System, s': System, k: Kind)
    requires LedgerPart(s) && WorkerPart(s) && PassesHand(s, s', k)
    ensures WorkerPart(s')
  {
    var pc, pc' := s.workers[k], s'.workers[k];
    forall o | o in s'.workers && Holds(s'.workers[o]) ensures HasHeldRow(s'.rows, s'.workers[o], o) {
      var h :| 0 <= h < |s.rows| && HeldRow(s.workers[o], o, s.rows[h]);
      if CancelIsRequested(s.rows, s.workers[o].op.id) {
        var c :| 0 <= c < |s.rows| && s.rows[c].id == s.workers[o].op.id && s.rows[c].status.CancelRequested?;
        assert c == h;
      }
      assert HeldRow(s'.workers[o], o, s'.rows[h]);
    }
    forall i | 0 <= i < |s'.rows| ensures ActiveIsHeld(s', s'.rows[i]) {
      assert ActiveIsHeld(s, s.rows[i]);
    }
    forall id | id in s'.handled ensures StartedOnce(s'.rows, id) {
      if id !in s.handled {
        var h :| 0 <= h < |s.rows| && HeldRow(pc, k, s.rows[h]);
        assert s'.rows[h].id == id && s'.rows[h].startedAt.Some?;
      }
    }
  }

  // ---------- steps of a worker that write ----------

  /** Row `i`, of the worker's own kind, is the one that moves, and the worker's hand follows it. */
  ghost predicate MovesRow(s: System, s': System, k: Kind, i: nat) {
    && k in s.workers && k in s'.workers && s'.workers == s.workers[k := s'.workers[k]]
    && s'.missed == s.missed && s'.handled == s.handled
    && i < |s.rows| == |s'.rows| && s'.rows == s.rows[i := s'.rows[i]]
    && s.rows[i].key.kind == k && s'.rows[i].key.kind == k && s'.rows[i].id == s.rows[i].id
    && (Holds(s'.workers[k]) ==> HeldRow(s'.workers[k], k, s'.rows[i]))
    && (Holds(s.workers[k]) ==> s.workers[k].op.id == s.rows[i].id)
    && (Active(s'.rows[i]) ==> Holds(s'.workers[k]))
  }

  lemma MovingRowKeepsWorkers(s: System, s': System, k: Kind, i: nat)
    requires LedgerPart(s) && WorkerPart(s) && MovesRow(s, s', k, i) && Evolves(s.rows, s'.rows)
    ensures WorkerPart(s')
  {
    forall o | o in s'.workers && Holds(s'.workers[o]) ensures HasHeldRow(s'.rows, s'.workers[o], o) {
      if o == k {
        assert HeldRow(s'.workers[o], o, s'.rows[i]);
      } else {
        var h :| 0 <= h < |s.rows| && HeldRow(s.workers[o], o, s.rows[h]);
        assert HeldRow(s'.workers[o], o, s'.rows[h]);
      }
    }
    forall j | 0 <= j < |s'.rows| ensures ActiveIsHeld(s', s'.rows[j]) {
      assert ActiveIsHeld(s, s.rows[j]);
    }
    HandledSurvive(s, s');
  }

  lemma CompletionMovesRow(s: System, s': System, step: Step, change: RowChange)
    requires LedgerPart(s) && WorkerPart(s) && step.CompleteWrite? && NextWorker(s, s', step)
    requires Changes(s, s', change) && change.Updated? && WorkerChangeOf(s, step, change)
    ensures MovesRow(s, s', step.kind, change.i)
  {
    var i := CompletionNeverMisses(s, step.kind);
    assert i == change.i;
    ApplyLowersRank(change.w, s.rows[change.i], change.now);
  }

  lemma SelectionMovesRow(s: System, s': System, step: Step, change: RowChange)
    requires LedgerPart(s) && WorkerPart(s) && (step.Claim? || step.CompleteQueuedCancel?) && NextWorker(s, s', step)
    requires Changes(s, s', change) && change.Updated? && WorkerChangeOf(s, step, change)
    requires Carries(s', step.kind, change.i)
    ensures MovesRow(s, s', step.kind, change.i)
  {
    WorkerFrame(s, s', step);
    ApplyLowersRank(change.w, s.rows[change.i], change.now);
  }

  lemma CompletionHits(s: System, s': System, step: Step)
    requires LedgerPart(s) && WorkerPart(s) && step.CompleteWrite? && NextWorker(s, s', step)
    ensures step.updated.Some?
  {
    var i := CompletionNeverMisses(s, step.kind);
  }

  /** A search that found nothing only moves the program counter. */
  lemma EmptySearchPassesHand(s: System, s': System, step: Step)
    requires (step.Claim? && step.claimed.None?) || (step.CompleteQueuedCancel? && step.cancelled.None?)
    requires NextWorker(s, s', step)
    ensures PassesHand(s, s', step.kind)
  {
  }

  lemma WriteStepKeepsWorkers(s: System, s': System, step: Step, change: RowChange)
    requires LedgerPart(s) && WorkerPart(s) && IsWorkerStep(step) && !IsQuiet(step) && NextWorker(s, s', step)
    requires ExplainsWorker(s, s', step, change) && change.Updated?
    ensures WorkerPart(s')
  {
    ChangeKeepsLedger(s, s', change);
    if step.CompleteWrite? {
      CompletionMovesRow(s, s', step, change);
    } else {
      SelectionMovesRow(s, s', step, change);
    }
    MovingRowKeepsWorkers(s, s', step.kind, change.i);
  }

  lemma WorkerStepKeepsWorkers(s: System, s': System, step: Step)
    requires LedgerPart(s) && WorkerPart(s) && IsWorkerStep(step) && NextWorker(s, s', step)
    ensures WorkerPart(s')
  {
    if IsQuiet(step) {
      QuietStepPassesHand(s, s', step);
      PassingHandKeepsWorkers(s, s', step.kind);
    } else if (step.Claim? && step.claimed.None?) || (step.CompleteQueuedCancel? && step.cancelled.None?) {
      EmptySearchPassesHand(s, s', step);
      PassingHandKeepsWorkers(s, s', step.kind);
    } else {
      if step.CompleteWrite? {
        CompletionHits(s, s', step);
      }
      var change := WorkerChange(s, s', step);
      WriteStepKeepsWorkers(s, s', step, change);
    }
  }

  // ---------- steps of callers, and restarts ----------

  lemma CallerStepKeepsHands(s: System, s': System, change: RowChange)
    requires LedgerPart(s) && WorkerPart(s) && Changes(s, s', change) && !change.Reconciling?
    requires change.Updated? ==> change.w == ToCancelRequested
    requires s'.workers == s.workers && s'.missed == s.missed && s'.handled == s.handled
    ensures WorkerPart(s')
  {
    ChangeKeepsLedger(s, s', change);
    HandledSurvive(s, s');
    forall k | k in s'.workers && Holds(s'.workers[k]) ensures HasHeldRow(s'.rows, s'.workers[k], k) {
      var h :| 0 <= h < |s.rows| && HeldRow(s.workers[k], k, s.rows[h]);
      assert HeldRow(s'.workers[k], k, s'.rows[h]);
    }
    forall j | 0 <= j < |s'.rows| ensures ActiveIsHeld(s', s'.rows[j]) {
      if j < |s.rows| {
        assert ActiveIsHeld(s, s.rows[j]);
      }
    }
  }

  lemma RestartKeepsWorkers(s: System, s': System, step: Step)
    requires LedgerPart(s) && WorkerPart(s) && NextRestart(s, s', step)
    ensures WorkerPart(s')
  {
    ReconcileKeepsLedger(s.rows, step.now);
    HandledSurvive(s, s');
    forall j | 0 <= j < |s'.rows| ensures ActiveIsHeld(s', s'.rows[j]) {
      assert RowInv(s'.rows[j]);
    }
  }

  lemma CallerStepLeavesWorkers(s: System, s': System, step: Step)
    requires !IsWorkerStep(step) && (NextSubmit(s, s', step) || NextCancel(s, s', step))
    ensures s'.workers == s.workers && s'.missed == s.missed && s'.handled == s.handled && !step.Restart?
  {
  }

  lemma CallerStepKeepsWorkers(s: System, s': System, step: Step)
    requires LedgerPart(s) && WorkerPart(s) && !IsWorkerStep(step) && NextStep(s, s', step)
    ensures WorkerPart(s')
  {
    if NextRestart(s, s', step) {
      RestartKeepsWorkers(s, s', step);
    } else {
      var change := CallerChange(s, s', step);
      CallerStepLeavesWorkers(s, s', step);
      CallerStepKeepsHands(s, s', change);
    }
  }

  // ---------- every run ----------

  ghost predicate Safe(s: System) {
    LedgerPart(s) && WorkerPart(s)
  }

  lemma StepKeepsSafe(s: System, s': System, step: Step)
    requires Safe(s) && NextStep(s, s', step)
    ensures Safe(s') && Evolves(s.rows, s'.rows)
  {
    if IsWorkerStep(step) {
      var change := WorkerChange(s, s', step);
      ChangeKeepsLedger(s, s', change);
      WorkerStepKeepsWorkers(s, s', step);
    } else {
      var change := CallerChange(s, s', step);
      ChangeKeepsLedger(s, s', change);
      CallerStepKeepsWorkers(s, s', step);
    }
  }

  lemma NextKeepsSafe(s: System, s': System)
    requires Safe(s) && Next(s, s')
    ensures Safe(s') && Evolves(s.rows, s'.rows)
  {
    var step :| NextStep(s, s', step);
    StepKeepsSafe(s, s', step);
  }

  lemma {:induction false} StepsKeepSafe(trace: seq<System>)
    requires Steps(trace) && Safe(trace[0])
    ensures Safe(Last(trace)) && Evolves(trace[0].rows, Last(trace).rows)
    decreases |trace|
  {
    if |trace| > 1 {
      var prefix := trace[..|trace| - 1];
      StepsKeepSafe(prefix);
      NextKeepsSafe(Last(prefix), Last(trace));
      EvolvesTransitive(trace[0].rows, Last(prefix).rows, Last(trace).rows);
    }
  }

  lemma RunIsSafe(trace: seq<System>)
    requires Run(trace)
    ensures Safe(Last(trace))
  {
    StepsKeepSafe(trace);
  }

  /** No completion write ever misses, so no claimed row is left behind by the worker loop. */
  lemma CompletionsAlwaysHit(trace: seq<System>, s': System, kind: Kind, now: string, updated: Option<Operation>)
    requires Run(trace) && NextStep(Last(trace), s', CompleteWrite(kind, now, updated))
    ensures updated.Some? && s'.missed == 0
    ensures updated.value.id == Last(trace).workers[kind].op.id && IsTerminal(updated.value.status)
    ensures forall row :: row in s'.rows && row.key.kind == kind ==> !Active(row)
  {
    RunIsSafe(trace);
    var s := Last(trace);
    var i := CompletionNeverMisses(s, kind);
    StepKeepsSafe(s, s', CompleteWrite(kind, now, updated));
    forall row | row in s'.rows && row.key.kind == kind ensures !Active(row) {
      var j :| 0 <= j < |s'.rows| && s'.rows[j] == row;
      assert ActiveIsHeld(s', s'.rows[j]);
    }
  }

  /** Per kind at most one row is started and unfinished, and it is the one in the worker's hand. */
  lemma OneActiveRowPerKind(trace: seq<System>, a: Operation, b: Operation)
    requires Run(trace) && a in Last(trace).rows && b in Last(trace).rows
    requires Active(a) && Active(b) && a.key.kind == b.key.kind
    ensures a == b
    ensures a.key.kind in Last(trace).workers
    ensures Holds(Last(trace).workers[a.key.kind]) && Last(trace).workers[a.key.kind].op.id == a.id
  {
    RunIsSafe(trace);
    var s := Last(trace);
    var i :| 0 <= i < |s.rows| && s.rows[i] == a;
    var j :| 0 <= j < |s.rows| && s.rows[j] == b;
    assert ActiveIsHeld(s, s.rows[i]) && ActiveIsHeld(s, s.rows[j]);
  }

  /**
   A row cancelled while still queued never starts and never reaches a handler, in any later
   state, through any number of restarts.
   */
  lemma CancelledWhileQueuedNeverRuns(before: seq<System>, after: seq<System>, i: nat)
    requires Run(before) && Steps(after) && after[0] == Last(before)
    requires i < |Last(before).rows| && !Last(before).rows[i].status.Queued? && Last(before).rows[i].startedAt.None?
    ensures
      var s := Last(after);
      && i < |s.rows| && s.rows[i].id == Last(before).rows[i].id
      && s.rows[i].startedAt.None? && s.rows[i].id !in s.handled
  {
    RunIsSafe(before);
    StepsKeepSafe(after);
    var s := Last(after);
    assert RowEvolves(after[0].rows[i], s.rows[i]);
    assert !StartedOnce(s.rows, s.rows[i].id);
  }

  /** Terminal rows are final: no later step, of any actor or restart, changes them. */
  lemma TerminalRowsAreFinal(before: seq<System>, after: seq<System>, i: nat)
    requires Run(before) && Steps(after) && after[0] == Last(before)
    requires i < |Last(before).rows| && IsTerminal(Last(before).rows[i].status)
    ensures i < |Last(after).rows| && Last(after).rows[i] == Last(before).rows[i]
  {
    RunIsSafe(before);
    StepsKeepSafe(after);
    assert RowEvolves(after[0].rows[i], Last(after).rows[i]);
  }

  /** n submitted rows allow at most 3n committed updates, restarts included. */
  lemma UpdatesAreBounded(trace: seq<System>)
    requires Run(trace)
    ensures Last(trace).writes + RankSum(Last(trace).rows) <= 3 * |Last(trace).rows|
    ensures LedgerInv(Last(trace).rows)
  {
    RunIsSafe(trace);
  }
}
