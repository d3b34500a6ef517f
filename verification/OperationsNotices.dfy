/** Every committed transition is announced exactly once, by exactly the actor that committed it. */
module OperationsNotices {
  import opened Wrappers
  import opened OperationsTypes
  import opened OperationsStore
  import opened OperationsLedger
  import opened OperationsSystem
  import opened OperationsSafety

  /** What an actor has committed and not yet published. */
  function DebtOf(s: System, actor: Actor): Option<Notice> {
    match actor
    case Worker(k) =>
      if k !in s.workers then None
      else if s.workers[k].PublishingClaim? then Some(Notice(Claimed, s.workers[k].op.id))
      else if s.workers[k].PublishingTerminal? then Some(Notice(Finished, s.workers[k].done.id))
      else None
    case Submitter(c) =>
      if c in s.submits && (s.submits[c].Reading? || s.submits[c].PublishingSubmit?)
      then Some(Notice(Submitted, s.submits[c].id)) else None
    case Canceller(c) =>
      if c in s.cancels && s.cancels[c].PublishingCancel?
      then Some(Notice(CancelWanted, s.cancels[c].requested.id)) else None
  }

  /** The row the notice talks about has already moved past the announced transition. */
  predicate PastRow(n: Notice, row: Operation) {
    && row.id == n.id
    && match n.tag
       case Submitted => true
       case Claimed => !row.status.Queued?
       case CancelWanted => !row.status.Queued? && !row.status.Running?
       case Finished => IsTerminal(row.status)
  }

  ghost predicate Past(rows: seq<Operation>, n: Notice) {
    exists i :: 0 <= i < |rows| && PastRow(n, rows[i])
  }

  predicate NoDuplicates<T(==)>(s: seq<T>) {
    forall i, j :: 0 <= i < j < |s| ==> s[i] != s[j]
  }

  ghost predicate NoticePart(s: System) {
    && NoDuplicates(s.commits) && NoDuplicates(s.published)
    && (forall n :: n in s.commits <==> n in s.owed || n in s.published)
    && (forall n :: n in s.owed ==> n !in s.published)
    && (forall n :: n in s.commits ==> Past(s.rows, n))
    && (forall n :: n in s.owed ==> DebtOf(s, s.owed[n]) == Some(n))
    && (forall a :: DebtOf(s, a).Some? ==> DebtOf(s, a).value in s.owed && s.owed[DebtOf(s, a).value] == a)
  }

  ghost predicate SameDebts(s: System, s': System, except: Option<Actor>) {
    forall a :: Some(a) != except ==> DebtOf(s', a) == DebtOf(s, a)
  }

  lemma PastSurvives(rows: seq<Operation>, rows': seq<Operation>, ns: seq<Notice>)
    requires Evolves(rows, rows') && forall n :: n in ns ==> Past(rows, n)
    ensures forall n :: n in ns ==> Past(rows', n)
  {
    forall n | n in ns ensures Past(rows', n) {
      var i :| 0 <= i < |rows| && PastRow(n, rows[i]);
      assert RowEvolves(rows[i], rows'[i]);
      assert PastRow(n, rows'[i]);
    }
  }

  // ---------- the three things a step can do to the books ----------

  datatype Move = Keep | TakeOn(n: Notice, a: Actor) | PayOff(n: Notice, a: Actor)

  ghost predicate Moves(s: System, s': System, move: Move) {
    match move
    case Keep =>
      && SameDebts(s, s', None)
      && s'.commits == s.commits && s'.owed == s.owed && s'.published == s.published
    case TakeOn(n, a) =>
      && SameDebts(s, s', Some(a)) && DebtOf(s, a).None? && DebtOf(s', a) == Some(n)
      && s'.commits == s.commits + [n] && s'.owed == s.owed[n := a] && s'.published == s.published
    case PayOff(n, a) =>
      && SameDebts(s, s', Some(a)) && DebtOf(s, a) == Some(n) && DebtOf(s', a).None?
      && s'.commits == s.commits && s'.owed == s.owed - {n} && s'.published == s.published + [n]
  }

  /** A transition is news: it has not been announced, because it had not happened. */
  ghost predicate IsNews(rows: seq<Operation>, rows': seq<Operation>, n: Notice) {
    !Past(rows, n) && Past(rows', n)
  }

  lemma TakingOnKeepsBooks(s: System, s': System, n: Notice, a: Actor)
    requires NoticePart(s) && Moves(s, s', TakeOn(n, a)) && IsNews(s.rows, s'.rows, n)
    requires forall m :: m in s.commits ==> Past(s'.rows, m)
    ensures NoticePart(s')
  {
    assert n !in s.commits;
    assert NoDuplicates(s'.commits);
  }

  lemma PayingOffKeepsBooks(s: System, s': System, n: Notice, a: Actor)
    requires NoticePart(s) && Moves(s, s', PayOff(n, a))
    requires forall m :: m in s.commits ==> Past(s'.rows, m)
    ensures NoticePart(s')
  {
    assert n in s.owed && n !in s.published;
    assert NoDuplicates(s'.published);
  }

  lemma MoveKeepsBooks(s: System, s': System, move: Move)
    requires NoticePart(s) && Moves(s, s', move) && Evolves(s.rows, s'.rows)
    requires move.TakeOn? ==> IsNews(s.rows, s'.rows, move.n)
    ensures NoticePart(s')
  {
    PastSurvives(s.rows, s'.rows, s.commits);
    match move {
      case Keep =>
      case TakeOn(n, a) => TakingOnKeepsBooks(s, s', n, a);
      case PayOff(n, a) => PayingOffKeepsBooks(s, s', n, a);
    }
  }

  /** A guarded write makes its notice past, and it was not past before. */
  lemma WriteMakesNews(rows: seq<Operation>, rows': seq<Operation>, i: nat, w: Write, now: string, n: Notice)
    requires LedgerInv(rows) && Committed(rows, rows', i, w, now)
    requires n.id == rows[i].id
    requires n.tag == (if w.ToRunning? then Claimed else if w.ToCancelRequested? then CancelWanted else Finished)
    ensures IsNews(rows, rows', n)
  {
    assert PastRow(n, rows'[i]);
    forall j | 0 <= j < |rows| ensures !PastRow(n, rows[j]) {
      assert RowInv(rows[i]);
    }
  }

  /** Debts after one worker's program counter moved. */
  lemma WorkerDebts(s: System, s': System, k: Kind)
    requires k in s.workers && k in s'.workers && s'.workers == s.workers[k := s'.workers[k]]
    requires s'.submits == s.submits && s'.cancels == s.cancels
    ensures SameDebts(s, s', Some(Worker(k)))
    ensures DebtOf(s', Worker(k)) == DebtOf(s, Worker(k)) ==> SameDebts(s, s', None)
  {
    forall a | Some(a) != Some(Worker(k)) ensures DebtOf(s', a) == DebtOf(s, a) {
      match a {
        case Worker(o) => assert o in s.workers <==> o in s'.workers;
        case _ =>
      }
    }
  }

  /** What publishing does to the books. */
  ghost predicate PaysItsDebt(s: System, s': System, k: Kind) {
    && DebtOf(s, Worker(k)).Some? && DebtOf(s', Worker(k)).None?
    && s'.owed == s.owed - {DebtOf(s, Worker(k)).value} && s'.commits == s.commits
    && s'.published == s.published + [DebtOf(s, Worker(k)).value]
  }

  ghost predicate OwesNothing(s: System, s': System, k: Kind) {
    DebtOf(s, Worker(k)).None? && s'.published == s.published
  }

  lemma PublishingPays(s: System, s': System, step: Step)
    requires IsWorkerStep(step) && NextWorker(s, s', step) && (step.PublishClaim? || step.PublishTerminal?)
    ensures PaysItsDebt(s, s', step.kind)
  {
  }

  lemma QuietOwesNothing(s: System, s': System, step: Step)
    requires IsWorkerStep(step) && NextWorker(s, s', step) && IsQuiet(step)
    requires !step.PublishClaim? && !step.PublishTerminal?
    ensures OwesNothing(s, s', step.kind)
  {
  }

  lemma WritingOwesNothing(s: System, s': System, step: Step)
    requires IsWorkerStep(step) && NextWorker(s, s', step) && !IsQuiet(step)
    ensures OwesNothing(s, s', step.kind)
  {
  }

  /** Quiet steps other than publishing leave the books alone; a transaction enters what it committed. */
  lemma QuietBooks(s: System, s': System, step: Step)
    requires IsWorkerStep(step) && IsQuiet(step) && NextWorker(s, s', step)
    requires !step.PublishClaim? && !step.PublishTerminal?
    ensures s'.rows == s.rows && s'.writes == s.writes
    ensures DebtOf(s', Worker(step.kind)).None? && s'.owed == s.owed && s'.commits == s.commits
  {
  }

  ghost predicate EntersBook(s: System, s': System, k: Kind, tag: Tag) {
    && s'.writes == s.writes + 1 && DebtOf(s', Worker(k)).Some? && DebtOf(s', Worker(k)).value.tag == tag
    && s'.owed == s.owed[DebtOf(s', Worker(k)).value := Worker(k)]
    && s'.commits == s.commits + [DebtOf(s', Worker(k)).value]
  }

  lemma CommitEntersBook(s: System, s': System, k: Kind, rows': seq<Operation>, row: Operation)
    ensures s' == Commit(At(s, k, PublishingTerminal(row)), rows', Notice(Finished, row.id), Worker(k)) ==>
      EntersBook(s, s', k, Finished)
    ensures s' == Commit(At(s, k, PublishingClaim(row)), rows', Notice(Claimed, row.id), Worker(k)) ==>
      EntersBook(s, s', k, Claimed)
  {
  }

  lemma WritingBooks(s: System, s': System, step: Step)
    requires IsWorkerStep(step) && !IsQuiet(step) && NextWorker(s, s', step)
    ensures s'.writes == s.writes ==>
      DebtOf(s', Worker(step.kind)).None? && s'.owed == s.owed && s'.commits == s.commits
    ensures s'.writes != s.writes ==> EntersBook(s, s', step.kind, if step.Claim? then Claimed else Finished)
  {
    match step {
      case CompleteQueuedCancel(k, _, Some(row)) => CommitEntersBook(s, s', k, s'.rows, row);
      case Claim(k, _, Some(row)) => CommitEntersBook(s, s', k, s'.rows, row);
      case CompleteWrite(k, _, Some(row)) => CommitEntersBook(s, s', k, s'.rows, row);
      case _ =>
    }
  }

  /** A worker's write puts exactly one new notice in that worker's debt. */
  lemma WorkerMove(s: System, s': System, step: Step, change: RowChange) returns (move: Move)
    requires IsWorkerStep(step) && NextWorker(s, s', step)
    requires Changes(s, s', change) && (change.Untouched? || change.Updated?)
    requires change.Updated? ==> WorkerChangeOf(s, step, change) && Carries(s', step.kind, change.i)
    ensures Moves(s, s', move) && (move.TakeOn? ==> change.Updated?)
    ensures move.TakeOn? ==> move.n == Notice(if change.w.ToRunning? then Claimed else Finished, s'.rows[change.i].id)
  {
    var a := Worker(step.kind);
    WorkerFrame(s, s', step);
    WorkerDebts(s, s', step.kind);
    if step.PublishClaim? || step.PublishTerminal? {
      PublishingPays(s, s', step);
      move := PayOff(DebtOf(s, a).value, a);
    } else {
      if IsQuiet(step) {
        QuietOwesNothing(s, s', step);
        QuietBooks(s, s', step);
      } else {
        WritingOwesNothing(s, s', step);
        WritingBooks(s, s', step);
      }
      move := if change.Updated? then TakeOn(DebtOf(s', a).value, a) else Keep;
    }
  }

  lemma WorkerStepKeepsBooks(s: System, s': System, step: Step)
    requires Safe(s) && NoticePart(s) && IsWorkerStep(step) && NextWorker(s, s', step)
    ensures NoticePart(s')
  {
    var change := WorkerChange(s, s', step);
    ChangeKeepsLedger(s, s', change);
    var move := WorkerMove(s, s', step, change);
    if change.Updated? {
      ApplyLowersRank(change.w, s.rows[change.i], change.now);
      if move.TakeOn? {
        WriteMakesNews(s.rows, s'.rows, change.i, change.w, change.now, move.n);
      }
    }
    MoveKeepsBooks(s, s', move);
  }

  lemma SubmitDebts(s: System, s': System, c: nat)
    requires c in s'.submits && s'.submits == s.submits[c := s'.submits[c]]
    requires s'.workers == s.workers && s'.cancels == s.cancels
    ensures SameDebts(s, s', Some(Submitter(c)))
    ensures DebtOf(s', Submitter(c)) == DebtOf(s, Submitter(c)) ==> SameDebts(s, s', None)
  {
  }

  lemma SubmitMove(s: System, s': System, step: Step) returns (move: Move)
    requires NextSubmit(s, s', step) && (step.SubmitRead? ==> step.found.Some?)
    ensures Moves(s, s', move)
    ensures move.TakeOn? ==> step.SubmitInsert? && move.n == Notice(Submitted, step.id) && step.inserted
  {
    move := Keep;
    SubmitDebts(s, s', step.caller);
    match step {
      case SubmitInsert(c, id, now, true) => move := TakeOn(Notice(Submitted, id), Submitter(c));
      case SubmitPublish(c) => move := PayOff(Notice(Submitted, s.submits[c].id), Submitter(c));
      case _ =>
    }
  }

  /** The row a submitter just inserted is there when it reads it back. */
  lemma ReadBackSucceeds(s: System, s': System, caller: nat, found: Option<Operation>)
    requires NoticePart(s) && NextSubmit(s, s', SubmitRead(caller, found))
    ensures found.Some?
  {
    var n := DebtOf(s, Submitter(caller)).value;
    assert n in s.commits && Past(s.rows, n);
  }

  lemma InsertMakesNews(s: System, s': System, step: Step)
    requires NextSubmit(s, s', step) && step.SubmitInsert? && step.inserted
    ensures IsNews(s.rows, s'.rows, Notice(Submitted, step.id))
  {
    assert PastRow(Notice(Submitted, step.id), s'.rows[|s.rows|]);
  }

  lemma SubmitStepKeepsBooks(s: System, s': System, step: Step)
    requires Safe(s) && NoticePart(s) && !IsWorkerStep(step) && NextSubmit(s, s', step)
    ensures NoticePart(s')
  {
    StepKeepsSafe(s, s', step);
    if step.SubmitRead? {
      ReadBackSucceeds(s, s', step.caller, step.found);
    }
    var move := SubmitMove(s, s', step);
    if move.TakeOn? {
      InsertMakesNews(s, s', step);
    }
    MoveKeepsBooks(s, s', move);
  }

  lemma CancelDebts(s: System, s': System, c: nat)
    requires c in s'.cancels && s'.cancels == s.cancels[c := s'.cancels[c]]
    requires s'.workers == s.workers && s'.submits == s.submits
    ensures SameDebts(s, s', Some(Canceller(c)))
    ensures DebtOf(s', Canceller(c)) == DebtOf(s, Canceller(c)) ==> SameDebts(s, s', None)
  {
  }

  lemma CancelMove(s: System, s': System, step: Step) returns (move: Move)
    requires NextCancel(s, s', step)
    requires step.RequestCancel? && step.reply.Requested? ==> step.reply.row.id == step.id
    ensures Moves(s, s', move)
    ensures move.TakeOn? ==> step.RequestCancel? && step.reply.Requested? && move.n == Notice(CancelWanted, step.id)
  {
    move := Keep;
    var a := Canceller(step.caller);
    CancelDebts(s, s', step.caller);
    if step.RequestCancel? && step.reply.Requested? {
      move := TakeOn(Notice(CancelWanted, step.id), a);
    } else if step.CancelPublish? {
      move := PayOff(DebtOf(s, a).value, a);
    }
  }

  lemma RequestedRow(s: System, s': System, step: Step) returns (i: nat)
    requires NextCancel(s, s', step) && step.RequestCancel? && step.reply.Requested?
    ensures Committed(s.rows, s'.rows, i, ToCancelRequested, step.now)
    ensures s.rows[i].id == step.id == step.reply.row.id
  {
    i :| Committed(s.rows, s'.rows, i, ToCancelRequested, step.now) && s.rows[i].id == step.id
         && step.reply.row == s'.rows[i];
  }

  lemma CancelStepKeepsBooks(s: System, s': System, step: Step)
    requires Safe(s) && NoticePart(s) && !IsWorkerStep(step) && NextCancel(s, s', step)
    ensures NoticePart(s')
  {
    StepKeepsSafe(s, s', step);
    if step.RequestCancel? && step.reply.Requested? {
      var i := RequestedRow(s, s', step);
      WriteMakesNews(s.rows, s'.rows, i, ToCancelRequested, step.now, Notice(CancelWanted, step.id));
    }
    var move := CancelMove(s, s', step);
    MoveKeepsBooks(s, s', move);
  }

  lemma NextKeepsBooks(s: System, s': System)
    requires Safe(s) && NoticePart(s) && Next(s, s')
    ensures NoticePart(s')
  {
    var step :| NextStep(s, s', step);
    if IsWorkerStep(step) {
      WorkerStepKeepsBooks(s, s', step);
    } else if NextSubmit(s, s', step) {
      SubmitStepKeepsBooks(s, s', step);
    } else if NextCancel(s, s', step) {
      CancelStepKeepsBooks(s, s', step);
    }
  }

  lemma {:induction false} RunKeepsBooks(trace: seq<System>)
    requires Run(trace)
    ensures NoticePart(Last(trace))
    decreases |trace|
  {
    if |trace| > 1 {
      var prefix := trace[..|trace| - 1];
      RunIsSafe(prefix);
      RunKeepsBooks(prefix);
      NextKeepsBooks(trace[|trace| - 2], trace[|trace| - 1]);
    }
  }

  /**
   Nothing committed is announced twice or forgotten: the transitions committed since boot are
   exactly those published (each once) plus those an actor is still about to publish, and that
   actor is the one that committed them.
   */
  lemma CommitsAreAnnouncedOnce(trace: seq<System>)
    requires Run(trace)
    ensures
      var s := Last(trace);
      && NoDuplicates(s.commits) && NoDuplicates(s.published)
      && (forall n :: n in s.commits <==> n in s.published || exists a :: DebtOf(s, a) == Some(n))
      && (forall n, a :: DebtOf(s, a) == Some(n) ==> n !in s.published)
      && (forall n, a, b :: DebtOf(s, a) == Some(n) && DebtOf(s, b) == Some(n) ==> a == b)
  {
    RunKeepsBooks(trace);
    var s := Last(trace);
    forall n
      ensures n in s.commits <==> n in s.published || exists a :: DebtOf(s, a) == Some(n)
    {
      if n in s.owed {
        assert DebtOf(s, s.owed[n]) == Some(n);
      }
    }
  }
}
