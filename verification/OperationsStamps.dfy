/** The time stamps of a row submitted since boot tell exactly which of its transitions were committed. */
module OperationsStamps {
  import opened OperationsTypes
  import opened OperationsStore
  import opened OperationsLedger
  import opened OperationsSystem
  import opened OperationsSafety
  import opened OperationsNotices

  /** Started, asked to cancel and finished exactly as the committed notices say. */
  predicate StampsTell(row: Operation, commits: seq<Notice>) {
    && (row.startedAt.Some? <==> Notice(Claimed, row.id) in commits)
    && (row.cancelRequestedAt.Some? <==> Notice(CancelWanted, row.id) in commits)
    && (row.finishedAt.Some? <==> Notice(Finished, row.id) in commits)
  }

  predicate IsFresh(row: Operation, commits: seq<Notice>) {
    Notice(Submitted, row.id) in commits
  }

  ghost predicate FreshStampsTell(s: System) {
    forall i :: 0 <= i < |s.rows| && IsFresh(s.rows[i], s.commits) ==> StampsTell(s.rows[i], s.commits)
  }

  function TagOf(w: Write): Tag {
    if w.ToRunning? then Claimed else if w.ToCancelRequested? then CancelWanted else Finished
  }

  /** The write of a row and its notice come together. */
  lemma WriteStampsRow(row: Operation, w: Write, now: string, commits: seq<Notice>)
    requires RowInv(row) && Guard(w, row.status) && StampsTell(row, commits)
    ensures StampsTell(Apply(w, row, now), commits + [Notice(TagOf(w), row.id)])
  {
  }

  lemma UpdateKeepsStamps(s: System, s': System, i: nat, w: Write, now: string)
    requires LedgerInv(s.rows) && FreshStampsTell(s) && Committed(s.rows, s'.rows, i, w, now)
    requires s'.commits == s.commits + [Notice(TagOf(w), s.rows[i].id)]
    ensures FreshStampsTell(s')
  {
    forall j | 0 <= j < |s'.rows| && IsFresh(s'.rows[j], s'.commits) ensures StampsTell(s'.rows[j], s'.commits) {
      if j == i {
        WriteStampsRow(s.rows[i], w, now, s.commits);
      } else {
        assert s'.rows[j] == s.rows[j] && s.rows[j].id != s.rows[i].id;
      }
    }
  }

  /** Nothing has been committed yet about an id that is just being inserted. */
  lemma InsertKeepsStamps(s: System, s': System, id: string, key: Key, params: string, now: string)
    requires NoticePart(s) && FreshStampsTell(s) && InsertRow(s.rows, s'.rows, NewRow(id, key, params, now), true)
    requires s'.commits == s.commits + [Notice(Submitted, id)]
    ensures FreshStampsTell(s')
  {
    forall n | n in s.commits ensures n.id != id {
      assert Past(s.rows, n);
    }
    forall j | 0 <= j < |s'.rows| && IsFresh(s'.rows[j], s'.commits) ensures StampsTell(s'.rows[j], s'.commits) {
      if j < |s.rows| {
        assert s'.rows[j] == s.rows[j];
      }
    }
  }

  // ---------- every step ----------

  lemma WorkerStepKeepsStamps(s: System, s': System, step: Step)
    requires Safe(s) && NoticePart(s) && FreshStampsTell(s) && IsWorkerStep(step) && NextWorker(s, s', step)
    ensures FreshStampsTell(s')
  {
    var change := WorkerChange(s, s', step);
    var move := WorkerMove(s, s', step, change);
    if change.Updated? {
      UpdatesAreEntered(s, s', step, change, move);
      UpdateKeepsStamps(s, s', change.i, change.w, change.now);
    }
  }

  /** A worker's update is taken into the books under its tag. */
  lemma UpdatesAreEntered(s: System, s': System, step: Step, change: RowChange, move: Move)
    requires IsWorkerStep(step) && change.Updated? && WorkerChangeOf(s, step, change) && Changes(s, s', change)
    requires Moves(s, s', move) && s'.writes != s.writes && NextWorker(s, s', step)
    requires move.TakeOn? ==> move.n == Notice(if change.w.ToRunning? then Claimed else Finished, s'.rows[change.i].id)
    ensures s'.commits == s.commits + [Notice(TagOf(change.w), s.rows[change.i].id)]
  {
    WritingBooks(s, s', step);
  }

  lemma SubmitStepKeepsStamps(s: System, s': System, step: Step)
    requires Safe(s) && NoticePart(s) && FreshStampsTell(s) && NextSubmit(s, s', step)
    ensures FreshStampsTell(s')
  {
    match step {
      case SubmitInsert(c, id, now, true) =>
        InsertKeepsStamps(s, s', id, s.submits[c].key, s.submits[c].params, now);
      case _ =>
    }
  }

  lemma CancelStepKeepsStamps(s: System, s': System, step: Step)
    requires Safe(s) && NoticePart(s) && FreshStampsTell(s) && NextCancel(s, s', step)
    ensures FreshStampsTell(s')
  {
    if step.RequestCancel? && step.reply.Requested? {
      var i := RequestedRow(s, s', step);
      UpdateKeepsStamps(s, s', i, ToCancelRequested, step.now);
    }
  }

  lemma CallerStepKeepsStamps(s: System, s': System, step: Step)
    requires Safe(s) && NoticePart(s) && FreshStampsTell(s) && !IsWorkerStep(step) && NextStep(s, s', step)
    ensures FreshStampsTell(s')
  {
    if NextSubmit(s, s', step) {
      SubmitStepKeepsStamps(s, s', step);
    } else if NextCancel(s, s', step) {
      CancelStepKeepsStamps(s, s', step);
    } else {
      assert s'.commits == [];
    }
  }

  lemma {:induction false} RunStampsTell(trace: seq<System>)
    requires Run(trace)
    ensures FreshStampsTell(Last(trace))
    decreases |trace|
  {
    if |trace| > 1 {
      var prefix := trace[..|trace| - 1];
      var s, s' := trace[|trace| - 2], trace[|trace| - 1];
      RunIsSafe(prefix);
      RunKeepsBooks(prefix);
      RunStampsTell(prefix);
      assert Next(s, s');
      var step :| NextStep(s, s', step);
      if IsWorkerStep(step) {
        WorkerStepKeepsStamps(s, s', step);
      } else {
        CallerStepKeepsStamps(s, s', step);
      }
    }
  }
}
