/** Once no new operation comes in and the process does not restart, the workers empty the ledger of unfinished rows. */
module OperationsDrain {
  import opened Wrappers
  import opened OperationsTypes
  import opened OperationsStore
  import opened OperationsLedger
  import opened OperationsSystem
  import opened OperationsSafety

  /** Only a queued cancellation is left for this kind: the loop must go round once more. */
  predicate MustLoop(rows: seq<Operation>, kind: Kind) {
    NoneMatch(rows, QueuedOf(kind)) && !NoneMatch(rows, UnstartedCancelOf(kind))
  }

  function PcRank(rows: seq<Operation>, kind: Kind, pc: WorkerPc): (rank: nat)
    ensures 1 <= rank <= 9
  {
    match pc
    case PublishingClaim(_) => 9
    case Checking(_) => 8
    case Handling(_, sawCancel) => if sawCancel then 6 else 7
    case CheckingAfter(_, _) => 5
    case Writing(_, _) => 4
    case PublishingTerminal(_) => 3
    case Top => 2
    case Claiming => if MustLoop(rows, kind) then 3 else 1
  }

  /** The rank of the rows of one kind. */
  function KindRank(rows: seq<Operation>, kind: Kind): nat {
    if rows == [] then 0
    else
      var last := rows[|rows| - 1];
      KindRank(rows[..|rows| - 1], kind) + if last.key.kind == kind then Rank(last.status) else 0
  }

  /** What one kind has left: ten for every rank its rows can still fall, and the worker's way to its next write. */
  ghost function Measure(s: System, kind: Kind): nat
    requires kind in s.workers
  {
    10 * KindRank(s.rows, kind) + PcRank(s.rows, kind, s.workers[kind])
  }

  ghost predicate HasUnfinished(rows: seq<Operation>, kind: Kind) {
    exists i :: 0 <= i < |rows| && rows[i].key.kind == kind && !IsTerminal(rows[i].status)
  }

  /** A worker step, idle polls included; only a handler that looks for a cancel and learns nothing is no turn. */
  ghost predicate IsTurn(s: System, s': System, step: Step) {
    IsWorkerStep(step) && NextWorker(s, s', step) && !(step.HandlerChecks? && s' == s)
  }

  /** A step in which no new operation comes in and the process does not restart. */
  ghost predicate IsClosed(s: System, s': System, step: Step) {
    NextStep(s, s', step) && !step.Restart? && !(step.SubmitInsert? && step.inserted)
  }

  lemma FramePcRank(rows: seq<Operation>, rows': seq<Operation>, i: nat, kind: Kind, pc: WorkerPc)
    requires i < |rows| == |rows'| && rows' == rows[i := rows'[i]]
    requires rows[i].key.kind != kind && rows'[i].key.kind != kind
    ensures PcRank(rows', kind, pc) == PcRank(rows, kind, pc)
  {
    forall sel: Selection | sel.kind == kind ensures NoneMatch(rows', sel) == NoneMatch(rows, sel) {
      forall j | 0 <= j < |rows| ensures Matches(sel, rows'[j]) == Matches(sel, rows[j]) {
      }
      if !NoneMatch(rows, sel) {
        var j :| 0 <= j < |rows| && Matches(sel, rows[j]);
        assert Matches(sel, rows'[j]);
      }
    }
    assert NoneMatch(rows', QueuedOf(kind)) == NoneMatch(rows, QueuedOf(kind));
    assert NoneMatch(rows', UnstartedCancelOf(kind)) == NoneMatch(rows, UnstartedCancelOf(kind));
  }

  lemma {:induction false} KindRankUpdate(rows: seq<Operation>, i: nat, row: Operation, kind: Kind)
    requires i < |rows| && row.key.kind == rows[i].key.kind
    ensures KindRank(rows[i := row], kind)
         == KindRank(rows, kind) + if row.key.kind == kind then Rank(row.status) - Rank(rows[i].status) else 0
  {
    var n := |rows| - 1;
    if i == n {
      assert rows[i := row][..n] == rows[..n];
    } else {
      assert rows[i := row][..n] == rows[..n][i := row];
      KindRankUpdate(rows[..n], i, row, kind);
    }
  }

  /** An update of a row of the kind pays ten; any other update is not noticed. */
  lemma UpdatePays(rows: seq<Operation>, rows': seq<Operation>, i: nat, w: Write, now: string, kind: Kind,
                   pc: WorkerPc, pc': WorkerPc)
    requires LedgerInv(rows) && Committed(rows, rows', i, w, now)
    requires rows[i].key.kind != kind ==> pc' == pc
    ensures 10 * KindRank(rows', kind) + PcRank(rows', kind, pc') <= 10 * KindRank(rows, kind) + PcRank(rows, kind, pc)
    ensures rows[i].key.kind == kind ==>
      10 * KindRank(rows', kind) + PcRank(rows', kind, pc') < 10 * KindRank(rows, kind) + PcRank(rows, kind, pc)
  {
    ApplyLowersRank(w, rows[i], now);
    KindRankUpdate(rows, i, rows'[i], kind);
    assert rows' == rows[i := rows'[i]];
    if rows[i].key.kind != kind {
      FramePcRank(rows, rows', i, kind, pc);
    }
  }

  /** With a row of the kind unfinished and none in hand, an empty claim means a cancelled row is waiting at the top. */
  lemma IdleClaimMustLoop(s: System, kind: Kind)
    requires Safe(s) && kind in s.workers && !Holds(s.workers[kind])
    requires HasUnfinished(s.rows, kind) && NoneMatch(s.rows, QueuedOf(kind))
    ensures MustLoop(s.rows, kind)
  {
    var i :| 0 <= i < |s.rows| && s.rows[i].key.kind == kind && !IsTerminal(s.rows[i].status);
    assert RowInv(s.rows[i]) && ActiveIsHeld(s, s.rows[i]);
    assert Matches(UnstartedCancelOf(kind), s.rows[i]);
  }

  lemma PcMovesForward(s: System, s': System, step: Step)
    requires IsTurn(s, s', step) && s'.rows == s.rows && s'.missed == s.missed && step.kind in s'.workers
    requires step.Claim? ==> MustLoop(s.rows, step.kind)
    ensures PcRank(s.rows, step.kind, s'.workers[step.kind]) < PcRank(s.rows, step.kind, s.workers[step.kind])
  {
  }

  lemma UpdatesOwnKind(s: System, s': System, step: Step, change: RowChange)
    requires Safe(s) && IsWorkerStep(step) && change.Updated? && Changes(s, s', change)
    requires WorkerChangeOf(s, step, change)
    ensures s.rows[change.i].key.kind == step.kind
  {
    if step.CompleteWrite? {
      var i := CompletionNeverMisses(s, step.kind);
    }
  }

  /** While a row of the kind is unfinished, every turn of its worker lowers its measure, whatever handlers decide. */
  lemma TurnLowersMeasure(s: System, s': System, step: Step)
    requires Safe(s) && IsTurn(s, s', step) && HasUnfinished(s.rows, step.kind)
    ensures Safe(s') && Measure(s', step.kind) < Measure(s, step.kind)
  {
    StepKeepsSafe(s, s', step);
    WorkerFrame(s, s', step);
    var change := WorkerChange(s, s', step);
    if change.Updated? {
      UpdatesOwnKind(s, s', step, change);
      UpdatePays(s.rows, s'.rows, change.i, change.w, change.now, step.kind,
                 s.workers[step.kind], s'.workers[step.kind]);
    } else {
      if step.Claim? {
        IdleClaimMustLoop(s, step.kind);
      }
      PcMovesForward(s, s', step);
    }
  }

  lemma ClosedChange(s: System, s': System, step: Step) returns (change: RowChange)
    requires IsClosed(s, s', step)
    ensures Changes(s, s', change) && (change.Untouched? || change.Updated?)
  {
    if IsWorkerStep(step) {
      change := WorkerChange(s, s', step);
    } else {
      change := CallerChange(s, s', step);
    }
  }

  lemma OthersLeaveWorker(s: System, s': System, step: Step, kind: Kind)
    requires IsClosed(s, s', step) && !(IsWorkerStep(step) && step.kind == kind) && kind in s.workers
    ensures kind in s'.workers && s'.workers[kind] == s.workers[kind]
  {
    if IsWorkerStep(step) {
      WorkerFrame(s, s', step);
    } else {
      CallerStepLeavesWorkers(s, s', step);
    }
  }

  /** No step of anybody else raises the measure of a kind. */
  lemma OthersDoNotRaiseMeasure(s: System, s': System, step: Step, kind: Kind)
    requires Safe(s) && IsClosed(s, s', step) && !(IsWorkerStep(step) && step.kind == kind) && kind in s.workers
    ensures kind in s'.workers && Measure(s', kind) <= Measure(s, kind)
  {
    var change := ClosedChange(s, s', step);
    OthersLeaveWorker(s, s', step, kind);
    if change.Updated? {
      UpdatePays(s.rows, s'.rows, change.i, change.w, change.now, kind, s.workers[kind], s'.workers[kind]);
    }
  }

  lemma {:induction false} FirstExists(rows: seq<Operation>, sel: Selection) returns (i: nat)
    requires !NoneMatch(rows, sel)
    ensures IsFirst(rows, sel, i)
  {
    var last := |rows| - 1;
    var rest := rows[..last];
    PrecedesTotal(rows[last], rows[last]);
    if NoneMatch(rest, sel) {
      i := last;
      assert forall j :: 0 <= j < last ==> rows[j] == rest[j];
    } else {
      i := FirstExists(rest, sel);
      if Matches(sel, rows[last]) {
        PrecedesTotal(rest[i], rows[last]);
        if !Precedes(rest[i], rows[last]) {
          forall j | 0 <= j < |rows| && Matches(sel, rows[j]) ensures Precedes(rows[last], rows[j]) {
            if j < last {
              assert rows[j] == rest[j];
              PrecedesTransitive(rows[last], rest[i], rows[j]);
            }
          }
          i := last;
        }
      }
      forall j | 0 <= j < |rows| && Matches(sel, rows[j]) ensures Precedes(rows[i], rows[j]) {
        if j < last {
          assert rows[j] == rest[j];
        }
      }
    }
  }

  lemma ClaimIsEnabled(s: System, kind: Kind) returns (s': System, step: Step)
    requires kind in s.workers && s.workers[kind].Claiming? && !NoneMatch(s.rows, QueuedOf(kind))
    ensures IsTurn(s, s', step) && step.kind == kind
  {
    var i := FirstExists(s.rows, QueuedOf(kind));
    var row := Apply(ToRunning, s.rows[i], "");
    var rows' := s.rows[i := row];
    step := Claim(kind, "", Some(row));
    s' := Commit(At(s, kind, PublishingClaim(row)), rows', Notice(Claimed, row.id), Worker(kind));
    assert Committed(s.rows, rows', i, ToRunning, "") && rows'[i] == row;
  }

  lemma CancelIsEnabled(s: System, kind: Kind) returns (s': System, step: Step)
    requires kind in s.workers && s.workers[kind].Top? && !NoneMatch(s.rows, UnstartedCancelOf(kind))
    ensures IsTurn(s, s', step) && step.kind == kind
  {
    var i := FirstExists(s.rows, UnstartedCancelOf(kind));
    var row := Apply(ToCancelled(None), s.rows[i], "");
    var rows' := s.rows[i := row];
    step := CompleteQueuedCancel(kind, "", Some(row));
    s' := Commit(At(s, kind, PublishingTerminal(row)), rows', Notice(Finished, row.id), Worker(kind));
    assert Committed(s.rows, rows', i, ToCancelled(None), "") && rows'[i] == row;
  }

  lemma CompletionIsEnabled(s: System, kind: Kind) returns (s': System, step: Step)
    requires Safe(s) && kind in s.workers && s.workers[kind].Writing?
    ensures IsTurn(s, s', step) && step.kind == kind
  {
    var i := CompletionNeverMisses(s, kind);
    var w := WriteOf(s.workers[kind].completion);
    var row := Apply(w, s.rows[i], "");
    var rows' := s.rows[i := row];
    step := CompleteWrite(kind, "", Some(row));
    s' := Commit(At(s, kind, PublishingTerminal(row)), rows', Notice(Finished, row.id), Worker(kind));
    assert Committed(s.rows, rows', i, w, "") && rows'[i] == row;
  }

  /** Handlers return: a worker with a row in hand can always move on. */
  lemma HandMovesOn(s: System, kind: Kind) returns (s': System, step: Step)
    requires kind in s.workers
    requires var pc := s.workers[kind];
             pc.PublishingClaim? || pc.Checking? || pc.Handling? || pc.CheckingAfter? || pc.PublishingTerminal?
    ensures IsTurn(s, s', step) && step.kind == kind
  {
    var pc := s.workers[kind];
    var wanted := (pc.Checking? || pc.CheckingAfter?) && CancelIsRequested(s.rows, pc.op.id);
    match pc {
      case PublishingClaim(op) =>
        step, s' := PublishClaim(kind), Announce(At(s, kind, Checking(op)), Notice(Claimed, op.id));
      case Checking(op) =>
        step := CheckBefore(kind);
        s' := if wanted then At(s, kind, Writing(op, Cancellation(None)))
              else At(s, kind, Handling(op, false)).(handled := s.handled + {op.id});
      case Handling(op, _) =>
        step, s' := HandlerReturns(kind, Failure("")), At(s, kind, Writing(op, Failure("")));
      case CheckingAfter(op, result) =>
        step := CheckAfter(kind);
        s' := At(s, kind, Writing(op, if wanted then Cancellation(None) else Success(result)));
      case PublishingTerminal(done) =>
        step, s' := PublishTerminal(kind), Announce(At(s, kind, Top), Notice(Finished, done.id));
    }
  }

  /** While some row is unfinished, the worker of its kind has a turn to take. */
  lemma UnfinishedRowHasWork(s: System, i: nat) returns (s': System, step: Step)
    requires Safe(s) && i < |s.rows| && !IsTerminal(s.rows[i].status)
    ensures IsTurn(s, s', step) && step.kind == s.rows[i].key.kind
  {
    var kind := s.rows[i].key.kind;
    assert kind == ImportSessions || kind == RescanSources;
    var pc := s.workers[kind];
    assert RowInv(s.rows[i]) && ActiveIsHeld(s, s.rows[i]);
    assert !Holds(pc) ==> Matches(QueuedOf(kind), s.rows[i]) || Matches(UnstartedCancelOf(kind), s.rows[i]);
    if pc.Top? {
      if NoneMatch(s.rows, UnstartedCancelOf(kind)) {
        step, s' := CompleteQueuedCancel(kind, "", None), At(s, kind, Claiming);
      } else {
        s', step := CancelIsEnabled(s, kind);
      }
    } else if pc.Claiming? {
      if NoneMatch(s.rows, QueuedOf(kind)) {
        step, s' := Claim(kind, "", None), At(s, kind, Top);
      } else {
        s', step := ClaimIsEnabled(s, kind);
      }
    } else if pc.Writing? {
      s', step := CompletionIsEnabled(s, kind);
    } else {
      s', step := HandMovesOn(s, kind);
    }
  }

  // ---------- whole schedules ----------

  /** A schedule of any actors, in any order, that takes in nothing new: `steps[i]` leads from state `i` to the next. */
  ghost predicate Schedule(trace: seq<System>, steps: seq<Step>) {
    && |trace| == |steps| + 1
    && (steps != [] ==>
          && Schedule(trace[..|steps|], steps[..|steps| - 1])
          && IsClosed(trace[|steps| - 1], trace[|steps|], steps[|steps| - 1]))
  }

  /** How many turns the worker of a kind took. */
  ghost function Turns(trace: seq<System>, steps: seq<Step>, kind: Kind): nat
    requires |trace| == |steps| + 1
  {
    if steps == [] then 0
    else
      var n := |steps| - 1;
      Turns(trace[..n + 1], steps[..n], kind)
      + if IsTurn(trace[n], trace[n + 1], steps[n]) && steps[n].kind == kind then 1 else 0
  }

  lemma UnfinishedWasUnfinished(rows: seq<Operation>, rows': seq<Operation>, kind: Kind)
    requires Evolves(rows, rows') && |rows'| == |rows| && HasUnfinished(rows', kind)
    ensures HasUnfinished(rows, kind)
  {
    var i :| 0 <= i < |rows'| && rows'[i].key.kind == kind && !IsTerminal(rows'[i].status);
    assert RowEvolves(rows[i], rows'[i]);
  }

  /** One step: a turn of the kind's worker is paid for, and nobody else's step costs anything. */
  lemma StepIsPaidFor(s: System, s': System, step: Step, kind: Kind)
    requires Safe(s) && IsClosed(s, s', step) && kind in KINDS && HasUnfinished(s'.rows, kind)
    ensures Safe(s') && HasUnfinished(s.rows, kind)
    ensures Measure(s', kind) + (if IsTurn(s, s', step) && step.kind == kind then 1 else 0) <= Measure(s, kind)
  {
    StepKeepsSafe(s, s', step);
    var change := ClosedChange(s, s', step);
    UnfinishedWasUnfinished(s.rows, s'.rows, kind);
    if IsTurn(s, s', step) && step.kind == kind {
      TurnLowersMeasure(s, s', step);
    } else if IsWorkerStep(step) && step.kind == kind {
      assert s' == s;
    } else {
      OthersDoNotRaiseMeasure(s, s', step, kind);
    }
  }

  /**
   Under every schedule in which nothing new comes in, idle polls of both workers, cancel requests and
   repeated submissions included: as long as some row of a kind is unfinished, its worker has taken
   no more turns than the measure of that kind has fallen.
   */
  lemma {:induction false} TurnsArePaidFor(trace: seq<System>, steps: seq<Step>, kind: Kind)
    requires Schedule(trace, steps) && Safe(trace[0]) && kind in KINDS && HasUnfinished(Last(trace).rows, kind)
    ensures Safe(Last(trace))
    ensures Measure(Last(trace), kind) + Turns(trace, steps, kind) <= Measure(trace[0], kind)
    decreases |steps|
  {
    if steps != [] {
      var n := |steps| - 1;
      var before := trace[..n + 1];
      ScheduleKeepsSafe(before, steps[..n]);
      StepIsPaidFor(trace[n], trace[n + 1], steps[n], kind);
      assert Last(before) == trace[n];
      TurnsArePaidFor(before, steps[..n], kind);
    }
  }

  lemma {:induction false} ScheduleKeepsSafe(trace: seq<System>, steps: seq<Step>)
    requires Schedule(trace, steps) && Safe(trace[0])
    ensures Safe(Last(trace))
    decreases |steps|
  {
    if steps != [] {
      var n := |steps| - 1;
      ScheduleKeepsSafe(trace[..n + 1], steps[..n]);
      StepKeepsSafe(trace[n], trace[n + 1], steps[n]);
    }
  }

  lemma {:induction false} KindRankIsBounded(rows: seq<Operation>, kind: Kind)
    ensures KindRank(rows, kind) <= 3 * |rows|
  {
    if rows != [] {
      KindRankIsBounded(rows[..|rows| - 1], kind);
    }
  }

  /**
   From any reachable state, once nothing new comes in: after as many turns of a kind's worker as the
   measure says, and so after 30 n + 9 of them, every row of that kind is terminal, whatever else goes on.
   */
  lemma WorkersDrainTheLedger(before: seq<System>, trace: seq<System>, steps: seq<Step>, kind: Kind)
    requires Run(before) && Schedule(trace, steps) && trace[0] == Last(before)
    ensures kind in trace[0].workers && Measure(trace[0], kind) <= 30 * |trace[0].rows| + 9
    ensures Turns(trace, steps, kind) >= Measure(trace[0], kind) ==>
      forall row :: row in Last(trace).rows && row.key.kind == kind ==> IsTerminal(row.status)
  {
    RunIsSafe(before);
    KindRankIsBounded(trace[0].rows, kind);
    assert kind in KINDS;
    if HasUnfinished(Last(trace).rows, kind) {
      TurnsArePaidFor(trace, steps, kind);
    }
  }
}
