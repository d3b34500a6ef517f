/** Concurrent submission of one key: what each caller is told, in any interleaving. */
module OperationsSubmit {
  import opened Wrappers
  import opened OperationsTypes
  import opened OperationsStore
  import opened OperationsLedger
  import opened OperationsSystem
  import opened OperationsSafety
  import opened OperationsNotices
  import opened OperationsStamps

  /** The id a caller is bound to return from the store call that settled its request. */
  function DecidedId(pc: SubmitPc): Option<string> {
    match pc
    case Reading(_, id) => Some(id)
    case PublishingSubmit(_, _, submitted) => Some(submitted.id)
    case Returned(_, Some(row)) => Some(row.id)
    case _ => None
  }

  /** Every caller of `key` in `callers` that has been decided is bound to `id`. */
  ghost predicate AgreeOn(s: System, callers: set<nat>, key: Key, id: string) {
    forall c :: c in callers && c in s.submits && s.submits[c].key == key && DecidedId(s.submits[c]).Some? ==>
      DecidedId(s.submits[c]).value == id
  }

  lemma SubmitKeepsAgreement(s: System, s': System, step: Step, callers: set<nat>, key: Key, w: Operation)
    requires LedgerInv(s.rows) && w in s.rows && Blocks(w, key)
    requires !IsWorkerStep(step) && NextSubmit(s, s', step)
    requires AgreeOn(s, callers, key, w.id)
    ensures AgreeOn(s', callers, key, w.id)
  {
    if step.SubmitFind? || step.SubmitRefind? {
      if s.submits[step.caller].key == key {
        LookupIsUnique(s.rows, key, w, step.found);
      }
    }
  }

  lemma StepKeepsAgreement(s: System, s': System, step: Step, callers: set<nat>, key: Key, w: Operation)
    requires LedgerInv(s.rows) && w in s.rows && Blocks(w, key)
    requires NextStep(s, s', step) && AgreeOn(s, callers, key, w.id)
    ensures AgreeOn(s', callers, key, w.id)
  {
    if IsWorkerStep(step) {
      WorkerFrame(s, s', step);
    } else if NextSubmit(s, s', step) {
      SubmitKeepsAgreement(s, s', step, callers, key, w);
    } else if NextCancel(s, s', step) {
      assert s'.submits == s.submits;
    } else {
      assert s'.submits == map[];
    }
  }

  ghost predicate StaysBlocking(trace: seq<System>, key: Key, w: nat) {
    forall t :: 0 <= t < |trace| ==> w < |trace[t].rows| && Blocks(trace[t].rows[w], key)
  }

  lemma NextKeepsAgreement(s: System, s': System, callers: set<nat>, key: Key, w: Operation)
    requires LedgerInv(s.rows) && w in s.rows && Blocks(w, key)
    requires Next(s, s') && AgreeOn(s, callers, key, w.id)
    ensures AgreeOn(s', callers, key, w.id)
  {
    var step :| NextStep(s, s', step);
    StepKeepsAgreement(s, s', step, callers, key, w);
  }

  lemma WinnerKeepsItsId(trace: seq<System>, key: Key, w: nat)
    requires Steps(trace) && Safe(trace[0]) && StaysBlocking(trace, key, w)
    ensures LedgerInv(Last(trace).rows) && Last(trace).rows[w].id == trace[0].rows[w].id
  {
    StepsKeepSafe(trace);
    assert RowEvolves(trace[0].rows[w], Last(trace).rows[w]);
  }

  lemma {:induction false} AgreementHolds(trace: seq<System>, callers: set<nat>, key: Key, w: nat)
    requires Steps(trace) && Safe(trace[0]) && StaysBlocking(trace, key, w)
    requires AgreeOn(trace[0], callers, key, trace[0].rows[w].id)
    ensures AgreeOn(Last(trace), callers, key, trace[0].rows[w].id)
    decreases |trace|
  {
    if |trace| > 1 {
      var prefix := trace[..|trace| - 1];
      AgreementHolds(prefix, callers, key, w);
      WinnerKeepsItsId(prefix, key, w);
      NextKeepsAgreement(trace[|trace| - 2], trace[|trace| - 1], callers, key, Last(prefix).rows[w]);
    }
  }

  /**
   From any reachable state on, and for as long as one row blocks a key, every request for that key
   that is settled, by whichever path through find, insert and re-find, is settled on that row; only
   requests settled earlier, on a row that has stopped blocking, may differ.
   */
  lemma SettledOnTheBlockingRow(before: seq<System>, trace: seq<System>, callers: set<nat>, key: Key, w: nat)
    requires Run(before) && Steps(trace) && trace[0] == Last(before) && StaysBlocking(trace, key, w)
    requires AgreeOn(trace[0], callers, key, trace[0].rows[w].id)
    ensures AgreeOn(Last(trace), callers, key, trace[0].rows[w].id)
  {
    RunIsSafe(before);
    AgreementHolds(trace, callers, key, w);
  }

  ghost predicate Undecided(s: System, callers: set<nat>, key: Key) {
    forall c :: c in callers && c in s.submits && s.submits[c].key == key ==> DecidedId(s.submits[c]).None?
  }

  /** The insert of a row decides the inserter for it, and nobody else. */
  lemma InsertDecidesInserter(s: System, s': System, inserter: nat, id: string, now: string,
                              callers: set<nat>, key: Key)
    requires NextSubmit(s, s', SubmitInsert(inserter, id, now, true)) && Undecided(s, callers, key)
    ensures AgreeOn(s', callers, key, id) && s'.rows[|s.rows|].id == id
    ensures DecidedId(s'.submits[inserter]) == Some(id)
  {
  }

  /**
   Concurrent submission is idempotent. From the insert that creates a row on, and for as long as the
   row blocks its key, every request for the key that was open at the insert or came later is settled
   on that row: the inserter's own, the losers' of the race, and those of everybody who looks it up.
   */
  lemma SubmitIsIdempotent(before: seq<System>, trace: seq<System>, inserter: nat, id: string, now: string,
                           callers: set<nat>)
    requires Run(before) && Steps(trace) && NextSubmit(Last(before), trace[0], SubmitInsert(inserter, id, now, true))
    requires StaysBlocking(trace, Last(before).submits[inserter].key, |Last(before).rows|)
    requires Undecided(Last(before), callers, Last(before).submits[inserter].key)
    ensures AgreeOn(trace[0], callers, Last(before).submits[inserter].key, id)
    ensures AgreeOn(Last(trace), callers, Last(before).submits[inserter].key, id)
    ensures DecidedId(trace[0].submits[inserter]) == Some(id)
  {
    var s, key := Last(before), Last(before).submits[inserter].key;
    RunIsSafe(before);
    StepKeepsSafe(s, trace[0], SubmitInsert(inserter, id, now, true));
    InsertDecidesInserter(s, trace[0], inserter, id, now, callers, key);
    AgreementHolds(trace, callers, key, |s.rows|);
  }

  // ---------- nobody is refused ----------

  /** No considered request for the key came back with an error. */
  ghost predicate NoneRefused(s: System, callers: set<nat>, key: Key) {
    forall c :: c in callers && c in s.submits && s.submits[c].key == key && s.submits[c].Returned? ==>
      s.submits[c].result.Some?
  }

  lemma SubmitRefusesNone(s: System, s': System, step: Step, callers: set<nat>, key: Key)
    requires NextSubmit(s, s', step) && KeyBlocked(s.rows, key) && NoneRefused(s, callers, key)
    ensures NoneRefused(s', callers, key)
  {
  }

  lemma NextRefusesNone(s: System, s': System, callers: set<nat>, key: Key)
    requires Next(s, s') && KeyBlocked(s.rows, key) && NoneRefused(s, callers, key)
    ensures NoneRefused(s', callers, key)
  {
    var step :| NextStep(s, s', step);
    if IsWorkerStep(step) {
      WorkerFrame(s, s', step);
    } else if NextSubmit(s, s', step) {
      SubmitRefusesNone(s, s', step, callers, key);
    } else if NextCancel(s, s', step) {
      assert s'.submits == s.submits;
    } else {
      assert s'.submits == map[];
    }
  }

  /** For as long as a row blocks a key, no request for the key comes back empty-handed. */
  lemma {:induction false} NobodyIsRefused(trace: seq<System>, callers: set<nat>, key: Key, w: nat)
    requires Steps(trace) && StaysBlocking(trace, key, w) && NoneRefused(trace[0], callers, key)
    ensures NoneRefused(Last(trace), callers, key)
    decreases |trace|
  {
    if |trace| > 1 {
      var prefix := trace[..|trace| - 1];
      assert forall t :: 0 <= t < |prefix| ==> prefix[t] == trace[t];
      NobodyIsRefused(prefix, callers, key, w);
      var s := Last(prefix);
      assert w < |s.rows| && Blocks(s.rows[w], key);
      NextRefusesNone(s, Last(trace), callers, key);
    }
  }

  // ---------- what a submission leaves in the ledger ----------

  /** The row an accepted insert leaves, and when an insert is not accepted. */
  lemma SubmissionIsRecorded(s: System, s': System, caller: nat, id: string, now: string, inserted: bool)
    requires NextSubmit(s, s', SubmitInsert(caller, id, now, inserted))
    ensures inserted ==> s'.rows == s.rows + [Operation(
      id, s.submits[caller].key, Queued, s.submits[caller].params, None, None, now, None, None, None)]
    ensures !inserted ==> s'.rows == s.rows
    ensures inserted <==> forall i :: 0 <= i < |s.rows| ==>
      && s.rows[i].id != id
      && (s.rows[i].key == s.submits[caller].key ==> s.rows[i].status in {Failed, Cancelled, Interrupted})
  {
    var key := s.submits[caller].key;
    assert forall i :: 0 <= i < |s.rows| ==>
      (Blocks(s.rows[i], key) <==> s.rows[i].key == key && s.rows[i].status !in {Failed, Cancelled, Interrupted});
  }

  // ---------- what a fresh submission announces ----------

  /**
   The row an inserter reads back carries exactly the stamps of the transitions committed by then. It
   is still queued exactly when neither a claim nor a cancel of it committed between insert and read.
   */
  lemma ReadBackIsQueuedExactlyWhen(trace: seq<System>, s': System, caller: nat, found: Option<Operation>)
    requires Run(trace) && NextSubmit(Last(trace), s', SubmitRead(caller, found))
    ensures
      var s, id := Last(trace), Last(trace).submits[caller].id;
      && found.Some? && found.value.id == id && StampsTell(found.value, s.commits)
      && s'.submits[caller] == PublishingSubmit(s.submits[caller].key, id, found.value)
      && (found.value.status.Queued? <==> Notice(Claimed, id) !in s.commits && Notice(CancelWanted, id) !in s.commits)
  {
    var s := Last(trace);
    RunIsSafe(trace);
    RunKeepsBooks(trace);
    RunStampsTell(trace);
    ReadBackSucceeds(s, s', caller, found);
    assert DebtOf(s, Submitter(caller)) == Some(Notice(Submitted, s.submits[caller].id));
    var i :| 0 <= i < |s.rows| && s.rows[i] == found.value;
    assert IsFresh(s.rows[i], s.commits) && RowInv(s.rows[i]);
  }

  ghost predicate StaysPublishing(trace: seq<System>, caller: nat) {
    forall t :: 0 <= t < |trace| ==> IsPublishing(trace[t], caller)
  }

  predicate IsPublishing(s: System, caller: nat) {
    caller in s.submits && s.submits[caller].PublishingSubmit?
  }

  lemma SubmitKeepsHeldRow(s: System, s': System, step: Step, caller: nat)
    requires NextSubmit(s, s', step) && IsPublishing(s, caller) && IsPublishing(s', caller)
    ensures s'.submits[caller] == s.submits[caller]
  {
  }

  lemma NextKeepsHeldRow(s: System, s': System, caller: nat)
    requires Next(s, s') && IsPublishing(s, caller) && IsPublishing(s', caller)
    ensures s'.submits[caller] == s.submits[caller]
  {
    var step :| NextStep(s, s', step);
    if IsWorkerStep(step) {
      WorkerFrame(s, s', step);
    } else if NextSubmit(s, s', step) {
      SubmitKeepsHeldRow(s, s', step, caller);
    } else if NextCancel(s, s', step) {
      assert s'.submits == s.submits;
    }
  }

  lemma {:induction false} HeldRowIsTheReadRow(trace: seq<System>, caller: nat)
    requires Steps(trace) && StaysPublishing(trace, caller)
    ensures Last(trace).submits[caller] == trace[0].submits[caller]
    decreases |trace|
  {
    if |trace| > 1 {
      var prefix := trace[..|trace| - 1];
      assert forall t :: 0 <= t < |prefix| ==> prefix[t] == trace[t];
      HeldRowIsTheReadRow(prefix, caller);
      NextKeepsHeldRow(Last(prefix), Last(trace), caller);
    }
  }

  /** And that row, as read, is what is announced, however long the publish takes. */
  lemma AnnouncedRowIsQueuedExactlyWhen(before: seq<System>, after: seq<System>, caller: nat, found: Option<Operation>)
    requires Run(before) && Steps(after) && NextSubmit(Last(before), after[0], SubmitRead(caller, found))
    requires StaysPublishing(after, caller)
    ensures
      var commits, announced := Last(before).commits, Last(after).submits[caller].submitted;
      && announced.id == Last(before).submits[caller].id && StampsTell(announced, commits)
      && (announced.status.Queued?
          <==> Notice(Claimed, announced.id) !in commits && Notice(CancelWanted, announced.id) !in commits)
  {
    ReadBackIsQueuedExactlyWhen(before, after[0], caller, found);
    HeldRowIsTheReadRow(after, caller);
  }

  ghost predicate ReadsBackRunning(s: System, caller: nat) {
    && caller in s.submits && s.submits[caller].PublishingSubmit?
    && s.submits[caller].submitted.status.Running?
  }

  lemma FreshSubmission(key: Key, queued: Operation) returns (trace: seq<System>)
    requires queued == NewRow("a", key, "{}", "t1")
    ensures Run(trace)
    ensures Last(trace).rows == [queued] && Last(trace).workers == map[ImportSessions := Top, RescanSources := Top]
    ensures Last(trace).submits == map[0 := Reading(key, "a")]
  {
    var s0 := System([], map[ImportSessions := Top, RescanSources := Top], map[], map[], {}, 0, 0, [], map[], []);
    var s1 := s0.(submits := s0.submits[0 := Finding(key, "{}")]);
    var s2 := s1.(submits := s1.submits[0 := Inserting(key, "{}")]);
    var s3 := Owe(s2.(rows := [queued], submits := s2.submits[0 := Reading(key, "a")]),
                  Notice(Submitted, "a"), Submitter(0));
    assert NextSubmit(s0, s1, SubmitStart(0, key, "{}"));
    assert NextSubmit(s1, s2, SubmitFind(0, None));
    assert NextSubmit(s2, s3, SubmitInsert(0, "a", "t1", true));
    assert NextStep(s0, s1, SubmitStart(0, key, "{}"));
    assert NextStep(s1, s2, SubmitFind(0, None));
    assert NextStep(s2, s3, SubmitInsert(0, "a", "t1", true));
    assert Init(s0) && Run([s0]);
    trace := Extend([s0], s1, SubmitStart(0, key, "{}"));
    trace := Extend(trace, s2, SubmitFind(0, None));
    trace := Extend(trace, s3, SubmitInsert(0, "a", "t1", true));
  }

  lemma Extend(trace: seq<System>, s': System, step: Step) returns (longer: seq<System>)
    requires Run(trace) && NextStep(Last(trace), s', step)
    ensures Run(longer) && Last(longer) == s'
  {
    longer := trace + [s'];
    assert Next(Last(trace), s') && longer[..|trace|] == trace;
  }

  /** It does happen that the announced row is not queued any more: here the worker claims it before the read. */
  lemma AnnouncedSubmissionMayAlreadyRun() returns (trace: seq<System>)
    ensures Run(trace) && ReadsBackRunning(Last(trace), 0)
  {
    var key := Key(RescanSources, "h", "v");
    var queued := NewRow("a", key, "{}", "t1");
    var running := Apply(ToRunning, queued, "t2");
    trace := FreshSubmission(key, queued);
    var s3 := Last(trace);
    var s4 := At(s3, RescanSources, Claiming);
    assert NextWorker(s3, s4, CompleteQueuedCancel(RescanSources, "t2", None));
    trace := Extend(trace, s4, CompleteQueuedCancel(RescanSources, "t2", None));
    var s5 := Commit(At(s4, RescanSources, PublishingClaim(running)), [running],
                     Notice(Claimed, "a"), Worker(RescanSources));
    assert IsFirst([queued], QueuedOf(RescanSources), 0) by {
      PrecedesTotal(queued, queued);
    }
    assert Committed([queued], [running], 0, ToRunning, "t2");
    assert NextWorker(s4, s5, Claim(RescanSources, "t2", Some(running)));
    trace := Extend(trace, s5, Claim(RescanSources, "t2", Some(running)));
    var s6 := s5.(submits := s5.submits[0 := PublishingSubmit(key, "a", running)]);
    assert [running][0] in [running];
    assert NextSubmit(s5, s6, SubmitRead(0, Some(running)));
    trace := Extend(trace, s6, SubmitRead(0, Some(running)));
  }
}
