/** Why a row ended the way it did: in every history, its terminal status tells what happened to it. */
module OperationsOutcome {
  import opened Wrappers
  import opened OperationsTypes
  import opened OperationsStore
  import opened OperationsLedger
  import opened OperationsSystem
  import opened OperationsSafety

  // ---------- what can happen to an operation ----------

  datatype Cause =
    | IsClaimed
    | LetThrough      // the checkpoint before the handler found no cancel request
    | HandlerSaw      // the handler's own checkpoint found one
    | HandlerReturned(verdict: Completion)
    | CheckedClear    // the checkpoint after a success found no cancel request
    | CheckedCancel   // a checkpoint of the worker loop found one
    | CancelAccepted
    | CaughtByRestart

  datatype Fact = Fact(cause: Cause, id: string)

  ghost predicate RowHas(rows: seq<Operation>, id: string, statuses: set<Status>) {
    exists i :: 0 <= i < |rows| && rows[i].id == id && rows[i].status in statuses
  }

  /** Taking `step` in state `s` does this to operation `id`. */
  ghost predicate Shows(s: System, step: Step, f: Fact) {
    match f.cause
    case IsClaimed => step.Claim? && step.claimed.Some? && step.claimed.value.id == f.id
    case LetThrough =>
      && step.CheckBefore? && step.kind in s.workers && s.workers[step.kind].Checking?
      && s.workers[step.kind].op.id == f.id && !RowHas(s.rows, f.id, {CancelRequested})
    case HandlerSaw =>
      && step.HandlerChecks? && step.kind in s.workers && s.workers[step.kind].Handling?
      && s.workers[step.kind].op.id == f.id && RowHas(s.rows, f.id, {CancelRequested})
    case HandlerReturned(verdict) =>
      && step.HandlerReturns? && step.outcome == verdict
      && step.kind in s.workers && s.workers[step.kind].Handling? && s.workers[step.kind].op.id == f.id
    case CheckedClear =>
      && step.CheckAfter? && step.kind in s.workers && s.workers[step.kind].CheckingAfter?
      && s.workers[step.kind].op.id == f.id && !RowHas(s.rows, f.id, {CancelRequested})
    case CheckedCancel =>
      && (step.CheckBefore? || step.CheckAfter?) && step.kind in s.workers
      && (s.workers[step.kind].Checking? || s.workers[step.kind].CheckingAfter?)
      && s.workers[step.kind].op.id == f.id && RowHas(s.rows, f.id, {CancelRequested})
    case CancelAccepted => step.RequestCancel? && step.id == f.id && RowHas(s.rows, f.id, {Queued, Running})
    case CaughtByRestart => step.Restart? && RowHas(s.rows, f.id, {Running, CancelRequested})
  }

  /** A run with the step taken in each state. */
  ghost predicate History(trace: seq<System>, steps: seq<Step>) {
    && |trace| == |steps| + 1
    && if steps == [] then Init(trace[0])
       else
         && History(trace[..|steps|], steps[..|steps| - 1])
         && NextStep(trace[|steps| - 1], trace[|steps|], steps[|steps| - 1])
  }

  ghost function Facts(trace: seq<System>, steps: seq<Step>): iset<Fact>
    requires |trace| == |steps| + 1
  {
    if steps == [] then iset{}
    else
      var n := |steps| - 1;
      Facts(trace[..n + 1], steps[..n]) + iset f | Shows(trace[n], steps[n], f)
  }

  /** Facts are what some step of the history did. */
  lemma {:induction false} FactHappened(trace: seq<System>, steps: seq<Step>, f: Fact)
    requires |trace| == |steps| + 1
    ensures f in Facts(trace, steps) <==> exists t :: 0 <= t < |steps| && Shows(trace[t], steps[t], f)
  {
    if steps != [] {
      var n := |steps| - 1;
      FactHappened(trace[..n + 1], steps[..n], f);
      assert forall t :: 0 <= t < n ==> trace[..n + 1][t] == trace[t] && steps[..n][t] == steps[t];
    }
  }

  // ---------- every status has its cause ----------

  ghost predicate Cancelling(F: iset<Fact>, id: string, partial: Option<string>) {
    || (Fact(HandlerReturned(Cancellation(partial)), id) in F && Fact(HandlerSaw, id) in F)
    || (partial.None? && Fact(CheckedCancel, id) in F)
  }

  ghost predicate RowTold(F: iset<Fact>, row: Operation) {
    && (row.startedAt.Some? ==> Fact(IsClaimed, row.id) in F)
    && (row.cancelRequestedAt.Some? ==> Fact(CancelAccepted, row.id) in F)
    && (row.status == Succeeded ==>
          row.startedAt.Some? && row.resultJson.Some? && row.errorJson == None
          && Fact(LetThrough, row.id) in F && Fact(CheckedClear, row.id) in F
          && Fact(HandlerReturned(Success(row.resultJson.value)), row.id) in F)
    && (row.status == Failed ==>
          row.startedAt.Some? && row.errorJson.Some? && row.resultJson == None && Fact(LetThrough, row.id) in F
          && Fact(HandlerReturned(Failure(row.errorJson.value)), row.id) in F)
    && (row.status == Cancelled ==>
          row.errorJson == None && row.cancelRequestedAt.Some?
          && if row.startedAt.Some? then Cancelling(F, row.id, row.resultJson) else row.resultJson == None)
    && (row.status == Interrupted ==>
          row.resultJson == None && row.errorJson == None && Fact(CaughtByRestart, row.id) in F)
  }

  ghost predicate PcTold(F: iset<Fact>, pc: WorkerPc) {
    match pc
    case Handling(op, sawCancel) => Fact(LetThrough, op.id) in F && (sawCancel ==> Fact(HandlerSaw, op.id) in F)
    case CheckingAfter(op, result) =>
      Fact(LetThrough, op.id) in F && Fact(HandlerReturned(Success(result)), op.id) in F
    case Writing(op, Success(result)) =>
      && Fact(LetThrough, op.id) in F && Fact(HandlerReturned(Success(result)), op.id) in F
      && Fact(CheckedClear, op.id) in F
    case Writing(op, Failure(error)) =>
      Fact(LetThrough, op.id) in F && Fact(HandlerReturned(Failure(error)), op.id) in F
    case Writing(op, Cancellation(partial)) => Cancelling(F, op.id, partial)
    case _ => true
  }

  ghost predicate Told(F: iset<Fact>, s: System) {
    && (forall i :: 0 <= i < |s.rows| ==> RowTold(F, s.rows[i]))
    && (forall k :: k in s.workers ==> PcTold(F, s.workers[k]))
  }

  ghost predicate Learns(F: iset<Fact>, F': iset<Fact>, s: System, step: Step) {
    F' == F + iset f | Shows(s, step, f)
  }

  lemma WorkersStayTold(F: iset<Fact>, F': iset<Fact>, s: System, s': System, k: Kind)
    requires Told(F, s) && F <= F' && k in s'.workers && s'.workers == s.workers[k := s'.workers[k]]
    requires PcTold(F', s'.workers[k])
    ensures forall o :: o in s'.workers ==> PcTold(F', s'.workers[o])
  {
  }

  lemma QuietPcIsTold(F: iset<Fact>, F': iset<Fact>, s: System, s': System, step: Step)
    requires Told(F, s) && Learns(F, F', s, step) && IsQuiet(step) && NextWorker(s, s', step)
    ensures step.kind in s'.workers && PcTold(F', s'.workers[step.kind])
  {
    var pc := s.workers[step.kind];
    assert PcTold(F, pc);
    match step {
      case HandlerReturns(_, outcome) => assert Shows(s, step, Fact(HandlerReturned(outcome), pc.op.id));
      case CheckBefore(_) => CheckpointShows(s, step, pc.op.id, CheckedCancel, LetThrough);
      case CheckAfter(_) => CheckpointShows(s, step, pc.op.id, CheckedCancel, CheckedClear);
      case HandlerChecks(_) => CheckpointShows(s, step, pc.op.id, HandlerSaw, HandlerSaw);
      case _ =>
    }
  }

  lemma CheckpointShows(s: System, step: Step, id: string, found: Cause, clear: Cause)
    requires step.CheckBefore? || step.CheckAfter? || step.HandlerChecks?
    requires step.kind in s.workers && Holds(s.workers[step.kind]) && s.workers[step.kind].op.id == id
    requires if step.CheckBefore? then s.workers[step.kind].Checking?
             else if step.CheckAfter? then s.workers[step.kind].CheckingAfter? else s.workers[step.kind].Handling?
    requires found == if step.HandlerChecks? then HandlerSaw else CheckedCancel
    requires step.CheckBefore? ==> clear == LetThrough
    requires step.CheckAfter? ==> clear == CheckedClear
    ensures CancelIsRequested(s.rows, id) ==> Shows(s, step, Fact(found, id))
    ensures !CancelIsRequested(s.rows, id) && !step.HandlerChecks? ==> Shows(s, step, Fact(clear, id))
  {
    assert CancelIsRequested(s.rows, id) <==> RowHas(s.rows, id, {CancelRequested});
  }

  lemma QuietStaysTold(F: iset<Fact>, F': iset<Fact>, s: System, s': System, step: Step)
    requires Told(F, s) && Learns(F, F', s, step) && IsQuiet(step) && NextWorker(s, s', step)
    ensures Told(F', s')
  {
    WorkerFrame(s, s', step);
    QuietPcIsTold(F, F', s, s', step);
    WorkersStayTold(F, F', s, s', step.kind);
    SameRowsStayTold(F, F', s, s', |s.rows|);
  }

  lemma SameRowsStayTold(F: iset<Fact>, F': iset<Fact>, s: System, s': System, except: nat)
    requires Told(F, s) && F <= F' && |s'.rows| == |s.rows|
    requires forall i :: 0 <= i < |s.rows| && i != except ==> s'.rows[i] == s.rows[i]
    ensures forall i :: 0 <= i < |s.rows| && i != except ==> RowTold(F', s'.rows[i])
  {
    forall i | 0 <= i < |s.rows| && i != except ensures RowTold(F', s'.rows[i]) {
      assert RowTold(F, s.rows[i]);
    }
  }

  /** The row a worker's transaction wrote. */
  lemma WrittenRowIsTold(F: iset<Fact>, F': iset<Fact>, s: System, s': System, step: Step, change: RowChange)
    requires Safe(s) && Told(F, s) && Learns(F, F', s, step) && IsWorkerStep(step) && NextWorker(s, s', step)
    requires ExplainsWorker(s, s', step, change) && change.Updated?
    ensures RowTold(F', s'.rows[change.i])
  {
    var row := s.rows[change.i];
    assert RowTold(F, row) && RowInv(row);
    if step.Claim? {
      assert Shows(s, step, Fact(IsClaimed, row.id));
    } else if step.CompleteWrite? {
      var i := CompletionNeverMisses(s, step.kind);
      assert PcTold(F, s.workers[step.kind]);
    }
  }

  /** A transaction leaves the worker with nothing to write. */
  lemma WritingEmptiesHand(s: System, s': System, step: Step)
    requires IsWorkerStep(step) && !IsQuiet(step) && NextWorker(s, s', step)
    ensures step.kind in s'.workers
    ensures !s'.workers[step.kind].Writing? && !s'.workers[step.kind].CheckingAfter? && !s'.workers[step.kind].Handling?
  {
    match step {
      case CompleteQueuedCancel(_, _, cancelled) =>
        assert s'.workers[step.kind] == if cancelled.None? then Claiming else PublishingTerminal(cancelled.value);
      case Claim(_, _, claimed) =>
        assert s'.workers[step.kind] == if claimed.None? then Top else PublishingClaim(claimed.value);
      case CompleteWrite(_, _, updated) =>
        assert s'.workers[step.kind] == if updated.None? then Top else PublishingTerminal(updated.value);
    }
  }

  lemma RowsStayTold(F: iset<Fact>, F': iset<Fact>, s: System, s': System, change: RowChange)
    requires Told(F, s) && F <= F' && Changes(s, s', change) && (change.Untouched? || change.Updated?)
    requires change.Updated? ==> RowTold(F', s'.rows[change.i])
    ensures forall i :: 0 <= i < |s'.rows| ==> RowTold(F', s'.rows[i])
  {
    SameRowsStayTold(F, F', s, s', if change.Updated? then change.i else |s.rows|);
  }

  lemma WritingStaysTold(F: iset<Fact>, F': iset<Fact>, s: System, s': System, step: Step)
    requires Safe(s) && Told(F, s) && Learns(F, F', s, step)
    requires IsWorkerStep(step) && !IsQuiet(step) && NextWorker(s, s', step)
    ensures Told(F', s')
  {
    var change := WorkerChange(s, s', step);
    if change.Updated? {
      WrittenRowIsTold(F, F', s, s', step, change);
    }
    RowsStayTold(F, F', s, s', change);
    WorkerFrame(s, s', step);
    WritingEmptiesHand(s, s', step);
    WorkersStayTold(F, F', s, s', step.kind);
  }

  lemma CancelledRowIsTold(F: iset<Fact>, F': iset<Fact>, row: Operation, now: string)
    requires RowTold(F, row) && F <= F' && Guard(ToCancelRequested, row.status)
    requires Fact(CancelAccepted, row.id) in F'
    ensures RowTold(F', Apply(ToCancelRequested, row, now))
  {
  }

  lemma CancelRequestStaysTold(F: iset<Fact>, F': iset<Fact>, s: System, s': System, step: Step)
    requires Told(F, s) && Learns(F, F', s, step) && NextCancel(s, s', step)
    requires step.RequestCancel? && step.reply.Requested?
    ensures Told(F', s')
  {
    var i: nat :| Committed(s.rows, s'.rows, i, ToCancelRequested, step.now) && s.rows[i].id == step.id;
    assert RowHas(s.rows, step.id, {Queued, Running});
    assert Shows(s, step, Fact(CancelAccepted, step.id));
    assert RowTold(F, s.rows[i]);
    CancelledRowIsTold(F, F', s.rows[i], step.now);
    SameRowsStayTold(F, F', s, s', i);
  }

  lemma CancelStaysTold(F: iset<Fact>, F': iset<Fact>, s: System, s': System, step: Step)
    requires Told(F, s) && Learns(F, F', s, step) && NextCancel(s, s', step)
    ensures Told(F', s')
  {
    if step.RequestCancel? && step.reply.Requested? {
      CancelRequestStaysTold(F, F', s, s', step);
    } else {
      assert s'.rows == s.rows && s'.workers == s.workers;
      SameRowsStayTold(F, F', s, s', |s.rows|);
    }
  }

  lemma SubmitStaysTold(F: iset<Fact>, F': iset<Fact>, s: System, s': System, step: Step)
    requires Told(F, s) && F <= F' && NextSubmit(s, s', step)
    ensures Told(F', s')
  {
    forall j | 0 <= j < |s'.rows| ensures RowTold(F', s'.rows[j]) {
      assert j < |s.rows| ==> s'.rows[j] == s.rows[j] && RowTold(F, s.rows[j]);
    }
  }

  lemma RestartStaysTold(F: iset<Fact>, F': iset<Fact>, s: System, s': System, step: Step)
    requires Safe(s) && Told(F, s) && Learns(F, F', s, step) && NextRestart(s, s', step)
    ensures Told(F', s')
  {
    forall j | 0 <= j < |s'.rows| ensures RowTold(F', s'.rows[j]) {
      var row := s.rows[j];
      assert RowTold(F, row) && RowInv(row);
      if Guard(ToInterrupted, row.status) {
        assert RowHas(s.rows, row.id, {Running, CancelRequested});
        assert Shows(s, step, Fact(CaughtByRestart, row.id));
      }
    }
  }

  lemma StepStaysTold(F: iset<Fact>, F': iset<Fact>, s: System, s': System, step: Step)
    requires Safe(s) && Told(F, s) && Learns(F, F', s, step) && NextStep(s, s', step)
    ensures Told(F', s')
  {
    if IsWorkerStep(step) {
      if IsQuiet(step) {
        QuietStaysTold(F, F', s, s', step);
      } else {
        WritingStaysTold(F, F', s, s', step);
      }
    } else if NextSubmit(s, s', step) {
      SubmitStaysTold(F, F', s, s', step);
    } else if NextCancel(s, s', step) {
      CancelStaysTold(F, F', s, s', step);
    } else {
      RestartStaysTold(F, F', s, s', step);
    }
  }

  lemma {:induction false} HistoryIsTold(trace: seq<System>, steps: seq<Step>)
    requires History(trace, steps)
    ensures Safe(Last(trace)) && Told(Facts(trace, steps), Last(trace))
    decreases |steps|
  {
    if steps != [] {
      var n := |steps| - 1;
      HistoryIsTold(trace[..n + 1], steps[..n]);
      assert Last(trace[..n + 1]) == trace[n];
      StepKeepsSafe(trace[n], trace[n + 1], steps[n]);
      StepStaysTold(Facts(trace[..n + 1], steps[..n]), Facts(trace, steps), trace[n], trace[n + 1], steps[n]);
    }
  }

  /**
   In every history, restarts included: a row is succeeded only with the result its handler returned, with
   no cancel request found before the handler or after it; failed only with the error its handler returned;
   cancelled only after an accepted cancel request, and, once started, only after the handler or a checkpoint
   saw it; interrupted only by a restart that caught it unfinished. No row starts without being claimed.
   */
  lemma EveryStatusHasItsCause(trace: seq<System>, steps: seq<Step>, row: Operation)
    requires History(trace, steps) && row in Last(trace).rows
    ensures row.startedAt.Some? ==> Fact(IsClaimed, row.id) in Facts(trace, steps)
    ensures row.status == Succeeded ==>
      && row.resultJson.Some? && row.errorJson == None
      && Fact(HandlerReturned(Success(row.resultJson.value)), row.id) in Facts(trace, steps)
      && Fact(LetThrough, row.id) in Facts(trace, steps) && Fact(CheckedClear, row.id) in Facts(trace, steps)
    ensures row.status == Failed ==>
      && row.errorJson.Some? && row.resultJson == None && Fact(LetThrough, row.id) in Facts(trace, steps)
      && Fact(HandlerReturned(Failure(row.errorJson.value)), row.id) in Facts(trace, steps)
    ensures row.status == CancelRequested ==> Fact(CancelAccepted, row.id) in Facts(trace, steps)
    ensures row.status == Cancelled ==>
      && row.errorJson == None && Fact(CancelAccepted, row.id) in Facts(trace, steps)
      && (row.startedAt.Some? ==>
            || (Fact(HandlerReturned(Cancellation(row.resultJson)), row.id) in Facts(trace, steps)
                && Fact(HandlerSaw, row.id) in Facts(trace, steps))
            || (row.resultJson == None && Fact(CheckedCancel, row.id) in Facts(trace, steps)))
    ensures row.status == Interrupted ==>
      row.resultJson == None && row.errorJson == None && Fact(CaughtByRestart, row.id) in Facts(trace, steps)
  {
    HistoryIsTold(trace, steps);
    var s := Last(trace);
    var i :| 0 <= i < |s.rows| && s.rows[i] == row;
    assert RowTold(Facts(trace, steps), s.rows[i]) && RowInv(s.rows[i]);
  }

  // ---------- and a verdict is recorded as it was given ----------

  /** The row of an operation whose handler returned `verdict`, once it is finished. */
  predicate Records(row: Operation, verdict: Completion) {
    row.status == Interrupted ||
    match verdict
    case Success(result) =>
      || (row.status == Succeeded && row.resultJson == Some(result))
      || (row.status == Cancelled && row.resultJson == None)
    case Failure(error) => row.status == Failed && row.errorJson == Some(error)
    case Cancellation(partial) => row.status == Cancelled && row.resultJson == partial
  }

  /** The worker is on its way to record it. */
  predicate IsRecording(pc: WorkerPc, id: string, verdict: Completion) {
    match pc
    case CheckingAfter(op, result) => op.id == id && verdict == Success(result)
    case Writing(op, completion) =>
      op.id == id && (completion == verdict || (verdict.Success? && completion == Cancellation(None)))
    case _ => false
  }

  ghost predicate IsKept(s: System, id: string, verdict: Completion) {
    || (exists k :: k in s.workers && IsRecording(s.workers[k], id, verdict))
    || (exists i :: 0 <= i < |s.rows| && s.rows[i].id == id && IsTerminal(s.rows[i].status)
          && Records(s.rows[i], verdict))
  }

  ghost predicate VerdictsKept(F: iset<Fact>, s: System) {
    forall f :: f in F && f.cause.HandlerReturned? ==> IsKept(s, f.id, f.cause.verdict)
  }

  lemma FinishedStaysKept(s: System, s': System, id: string, verdict: Completion, i: nat)
    requires Evolves(s.rows, s'.rows) && i < |s.rows| && s.rows[i].id == id
    requires IsTerminal(s.rows[i].status) && Records(s.rows[i], verdict)
    ensures IsKept(s', id, verdict)
  {
    assert RowEvolves(s.rows[i], s'.rows[i]);
    assert s'.rows[i] == s.rows[i];
  }

  lemma RecordingGoesOn(s: System, s': System, step: Step, id: string, verdict: Completion)
    requires IsWorkerStep(step) && !step.CompleteWrite? && NextWorker(s, s', step)
    requires IsRecording(s.workers[step.kind], id, verdict)
    ensures step.kind in s'.workers && IsRecording(s'.workers[step.kind], id, verdict)
  {
  }

  lemma RestartRecords(s: System, s': System, step: Step, id: string, verdict: Completion, k: Kind)
    requires Safe(s) && NextRestart(s, s', step) && k in s.workers && IsRecording(s.workers[k], id, verdict)
    ensures IsKept(s', id, verdict)
  {
    var h :| 0 <= h < |s.rows| && HeldRow(s.workers[k], k, s.rows[h]);
    assert RowInv(s.rows[h]);
    assert s'.rows[h].id == id && s'.rows[h].status == Interrupted;
  }

  lemma RecordingStaysKept(s: System, s': System, step: Step, id: string, verdict: Completion, k: Kind)
    requires Safe(s) && NextStep(s, s', step) && k in s.workers && IsRecording(s.workers[k], id, verdict)
    ensures IsKept(s', id, verdict)
  {
    if step.Restart? {
      RestartRecords(s, s', step, id, verdict, k);
    } else if !IsWorkerStep(step) || step.kind != k {
      OtherWorkersStay(s, s', step, k);
    } else if step.CompleteWrite? {
      WriteRecords(s, s', step, id, verdict);
    } else {
      RecordingGoesOn(s, s', step, id, verdict);
    }
  }

  lemma OtherWorkersStay(s: System, s': System, step: Step, k: Kind)
    requires NextStep(s, s', step) && !step.Restart? && !(IsWorkerStep(step) && step.kind == k) && k in s.workers
    ensures k in s'.workers && s'.workers[k] == s.workers[k]
  {
    if IsWorkerStep(step) {
      WorkerFrame(s, s', step);
    } else {
      CallerStepLeavesWorkers(s, s', step);
    }
  }

  lemma WriteRecords(s: System, s': System, step: Step, id: string, verdict: Completion)
    requires Safe(s) && step.CompleteWrite? && NextStep(s, s', step) && step.kind in s.workers
    requires IsRecording(s.workers[step.kind], id, verdict)
    ensures IsKept(s', id, verdict)
  {
    var i := CompletionNeverMisses(s, step.kind);
    var change := CompletionChange(s, s', step);
    assert change.Updated? && change.i == i;
    var row := s'.rows[i];
    assert row.id == id && IsTerminal(row.status) && Records(row, verdict);
  }

  lemma KeptStaysKept(s: System, s': System, step: Step, id: string, verdict: Completion)
    requires Safe(s) && NextStep(s, s', step) && IsKept(s, id, verdict) && Evolves(s.rows, s'.rows)
    ensures IsKept(s', id, verdict)
  {
    if k :| k in s.workers && IsRecording(s.workers[k], id, verdict) {
      RecordingStaysKept(s, s', step, id, verdict, k);
    } else {
      var i :| 0 <= i < |s.rows| && s.rows[i].id == id && IsTerminal(s.rows[i].status) && Records(s.rows[i], verdict);
      FinishedStaysKept(s, s', id, verdict, i);
    }
  }

  lemma NewVerdictIsKept(s: System, s': System, step: Step, f: Fact)
    requires NextStep(s, s', step) && f.cause.HandlerReturned? && Shows(s, step, f)
    ensures IsKept(s', f.id, f.cause.verdict)
  {
    assert IsRecording(s'.workers[step.kind], f.id, f.cause.verdict);
  }

  lemma StepKeepsVerdicts(F: iset<Fact>, F': iset<Fact>, s: System, s': System, step: Step)
    requires Safe(s) && VerdictsKept(F, s) && Learns(F, F', s, step) && NextStep(s, s', step)
    requires Evolves(s.rows, s'.rows)
    ensures VerdictsKept(F', s')
  {
    forall f | f in F' && f.cause.HandlerReturned? ensures IsKept(s', f.id, f.cause.verdict) {
      if Shows(s, step, f) {
        NewVerdictIsKept(s, s', step, f);
      } else {
        KeptStaysKept(s, s', step, f.id, f.cause.verdict);
      }
    }
  }

  lemma {:induction false} HistoryKeepsVerdicts(trace: seq<System>, steps: seq<Step>)
    requires History(trace, steps)
    ensures Safe(Last(trace)) && VerdictsKept(Facts(trace, steps), Last(trace))
    decreases |steps|
  {
    if steps != [] {
      var n := |steps| - 1;
      HistoryKeepsVerdicts(trace[..n + 1], steps[..n]);
      assert Last(trace[..n + 1]) == trace[n];
      StepKeepsSafe(trace[n], trace[n + 1], steps[n]);
      StepKeepsVerdicts(Facts(trace[..n + 1], steps[..n]), Facts(trace, steps), trace[n], trace[n + 1], steps[n]);
    }
  }

  /** No worker is still recording the verdict on a row that is finished. */
  lemma NoneRecords(s: System, row: Operation, i: nat, verdict: Completion)
    requires Safe(s) && i < |s.rows| && s.rows[i] == row && IsTerminal(row.status)
    ensures forall k :: k in s.workers ==> !IsRecording(s.workers[k], row.id, verdict)
  {
    forall k | k in s.workers ensures !IsRecording(s.workers[k], row.id, verdict) {
      assert Holds(s.workers[k]) ==> HasHeldRow(s.rows, s.workers[k], k);
    }
  }

  /**
   What a handler returned is what its row records, in every history: unless a restart came first, a
   failure ends failed with that error, a cancellation ends cancelled with that partial result, and a
   success ends succeeded with that result or, when cancelled at the last checkpoint, cancelled.
   */
  lemma VerdictIsRecorded(trace: seq<System>, steps: seq<Step>, row: Operation, verdict: Completion)
    requires History(trace, steps) && row in Last(trace).rows && IsTerminal(row.status)
    requires Fact(HandlerReturned(verdict), row.id) in Facts(trace, steps)
    ensures row.status == Interrupted ||
      match verdict
      case Success(result) =>
        || (row.status == Succeeded && row.resultJson == Some(result) && row.errorJson == None)
        || (row.status == Cancelled && row.resultJson == None)
      case Failure(error) => row.status == Failed && row.errorJson == Some(error)
      case Cancellation(partial) => row.status == Cancelled && row.resultJson == partial
  {
    HistoryKeepsVerdicts(trace, steps);
    var s := Last(trace);
    var i :| 0 <= i < |s.rows| && s.rows[i] == row;
    assert RowInv(s.rows[i]);
    NoneRecords(s, row, i, verdict);
    var j :| 0 <= j < |s.rows| && s.rows[j].id == row.id && Records(s.rows[j], verdict);
    assert j == i;
  }
}
