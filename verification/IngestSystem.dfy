/**
 Ingest as the sequence of file and database operations it really is, with an I/O failure or a
 crash possible between any two of them, and the startup sweep after each crash. Ingests are
 serialised by the scan lock. `hash` stands for SHA-256 and is not assumed injective.
 */
module IngestSystem {
  import opened Wrappers
  import opened RawSessionStore

  type Bytes = seq<bv8>

  datatype ParsedSession = ParsedSession(key: SourceKey, fingerprint: string, raw: Bytes)

  /** Final blob files by content address, and temp files by name. */
  datatype Fs = Fs(files: map<string, Bytes>, temps: map<string, Bytes>)

  datatype Job = Job(parsed: ParsedSession, existing: Option<string>)

  datatype Pc =
    | Ready
    | FirstCheck(job: Job)
    | Creating(job: Job)
    | WritingTemp(job: Job, temp: string)
    | SecondCheck(job: Job, temp: string)
    | Renaming(job: Job, temp: string)
    | Committing(job: Job)
    | DeletingObsolete(addr: string)
    | Down
    | SweepingTemps
    | ReadingReferences
    | DeletingOrphans(referenced: set<string>)

  datatype State = State(db: Db, fs: Fs, pc: Pc)

  datatype Step =
    | Begin(parsed: ParsedSession)
    | CheckFirst
    | CreateTemp(temp: string)
    | WriteTemp(upTo: nat)
    | CheckSecond
    | Rename
    | Commit(uid: string)
    | DeleteObsolete(deleted: bool)
    | Fail
    | Crash
    | Boot
    | SweepTemp(temp: string)
    | SweepDone
    | ReadReferences
    | DeleteOrphan(addr: string)
    | OrphansDone

  ghost predicate FindsExisting(db: Db, key: SourceKey, existing: Option<string>) {
    match existing
    case Some(u) => u in db.sessions && db.sessions[u].key == key
    case None => !HasKey(db, key)
  }

  ghost predicate BeginStep(hash: Bytes -> string, s: State, s': State, parsed: ParsedSession) {
    && s.pc.Ready?
    && if hash(parsed.raw) != parsed.fingerprint then s' == s
       else exists existing :: FindsExisting(s.db, parsed.key, existing)
              && s' == if existing.Some? && s.db.sessions[existing.value].fingerprint == parsed.fingerprint then s
                       else s.(pc := FirstCheck(Job(parsed, existing)))
  }

  ghost predicate PutStep(s: State, s': State, step: Step) {
    match (step, s.pc)
    case (CheckFirst, FirstCheck(job)) =>
      s' == s.(pc := if job.parsed.fingerprint in s.fs.files then Committing(job) else Creating(job))
    case (CreateTemp(temp), Creating(job)) =>
      && temp !in s.fs.temps
      && s' == State(s.db, s.fs.(temps := s.fs.temps[temp := []]), WritingTemp(job, temp))
    case (WriteTemp(upTo), WritingTemp(job, temp)) =>
      && temp in s.fs.temps && |s.fs.temps[temp]| <= upTo <= |job.parsed.raw|
      && s' == State(s.db, s.fs.(temps := s.fs.temps[temp := job.parsed.raw[..upTo]]),
                     if upTo == |job.parsed.raw| then SecondCheck(job, temp) else s.pc)
    case (CheckSecond, SecondCheck(job, temp)) =>
      s' == if job.parsed.fingerprint in s.fs.files
            then State(s.db, s.fs.(temps := s.fs.temps - {temp}), Committing(job))
            else s.(pc := Renaming(job, temp))
    case (Rename, Renaming(job, temp)) =>
      && temp in s.fs.temps
      && s' == State(s.db, Fs(s.fs.files[job.parsed.fingerprint := s.fs.temps[temp]], s.fs.temps - {temp}),
                     Committing(job))
    case _ => false
  }

  ghost predicate CommitStep(s: State, s': State, uid: string) {
    && s.pc.Committing?
    && var p := s.pc.job.parsed;
    && match s.pc.job.existing
       case None =>
         var r := InsertSession(s.db, uid, p.key, p.fingerprint, p.fingerprint);
         s' == if r.Ok? then State(r.value, s.fs, Ready) else s.(pc := Ready)
       case Some(u) =>
         && u in s.db.sessions
         && var r := ReplaceSession(s.db, u, s.db.sessions[u].rawRef, p.fingerprint, p.fingerprint);
            s' == if r.Err? then s.(pc := Ready)
                  else State(r.value.0, s.fs, if r.value.1.Some? then DeletingObsolete(r.value.1.value) else Ready)
  }

  ghost predicate MaintenanceStep(s: State, s': State, step: Step) {
    match (step, s.pc)
    case (Boot, Down) => s' == s.(pc := SweepingTemps)
    case (SweepTemp(temp), SweepingTemps) =>
      temp in s.fs.temps && s' == s.(fs := s.fs.(temps := s.fs.temps - {temp}))
    case (SweepDone, SweepingTemps) => s.fs.temps == map[] && s' == s.(pc := ReadingReferences)
    case (ReadReferences, ReadingReferences) => s' == s.(pc := DeletingOrphans(ReferencedBlobs(s.db)))
    case (DeleteOrphan(addr), DeletingOrphans(referenced)) =>
      addr in s.fs.files && addr !in referenced && s' == s.(fs := s.fs.(files := s.fs.files - {addr}))
    case (OrphansDone, DeletingOrphans(referenced)) => s.fs.files.Keys <= referenced && s' == s.(pc := Ready)
    case _ => false
  }

  predicate InMaintenance(pc: Pc) {
    pc.Down? || pc.SweepingTemps? || pc.ReadingReferences? || pc.DeletingOrphans?
  }

  ghost predicate NextStep(hash: Bytes -> string, s: State, s': State, step: Step) {
    match step
    case Begin(parsed) => BeginStep(hash, s, s', parsed)
    case Commit(uid) => CommitStep(s, s', uid)
    case DeleteObsolete(deleted) =>
      && s.pc.DeletingObsolete?
      && s' == State(s.db, if deleted then s.fs.(files := s.fs.files - {s.pc.addr}) else s.fs, Ready)
    case Fail => !InMaintenance(s.pc) && s' == s.(pc := Ready)
    case Crash => s' == s.(pc := Down)
    case _ => PutStep(s, s', step) || MaintenanceStep(s, s', step)
  }

  ghost predicate Next(hash: Bytes -> string, s: State, s': State) {
    exists step :: NextStep(hash, s, s', step)
  }

  ghost predicate Init(s: State) {
    s.db == Db(map[], map[]) && s.fs == Fs(map[], map[]) && s.pc.Down?
  }

  ghost predicate Run(hash: Bytes -> string, trace: seq<State>) {
    && |trace| > 0
    && if |trace| == 1 then Init(trace[0])
       else Run(hash, trace[..|trace| - 1]) && Next(hash, trace[|trace| - 2], trace[|trace| - 1])
  }

  // ---------- the invariant ----------

  ghost predicate JobOk(hash: Bytes -> string, db: Db, job: Job) {
    && hash(job.parsed.raw) == job.parsed.fingerprint
    && FindsExisting(db, job.parsed.key, job.existing)
    && (job.existing.Some? ==> db.sessions[job.existing.value].fingerprint != job.parsed.fingerprint)
  }

  ghost predicate PcOk(hash: Bytes -> string, s: State) {
    match s.pc
    case FirstCheck(job) => JobOk(hash, s.db, job)
    case Creating(job) => JobOk(hash, s.db, job)
    case WritingTemp(job, temp) => JobOk(hash, s.db, job) && temp in s.fs.temps
    case SecondCheck(job, temp) => JobOk(hash, s.db, job) && temp in s.fs.temps && s.fs.temps[temp] == job.parsed.raw
    case Renaming(job, temp) => JobOk(hash, s.db, job) && temp in s.fs.temps && s.fs.temps[temp] == job.parsed.raw
    case Committing(job) => JobOk(hash, s.db, job) && job.parsed.fingerprint in s.fs.files
    case DeletingObsolete(addr) => !IsReferenced(s.db, addr)
    case ReadingReferences => s.fs.temps == map[]
    case DeletingOrphans(referenced) => s.fs.temps == map[] && referenced == s.db.blobs.Keys
    case _ => true
  }

  /** Every stored session can be read back: its file is there. */
  ghost predicate AllStored(s: State) {
    forall u :: u in s.db.sessions ==> s.db.sessions[u].rawRef in s.fs.files
  }

  /** Every blob file hashes to its name. */
  ghost predicate ContentAddressed(hash: Bytes -> string, fs: Fs) {
    forall a :: a in fs.files ==> hash(fs.files[a]) == a
  }

  ghost predicate Inv(hash: Bytes -> string, s: State) {
    DbInv(s.db) && AllStored(s) && ContentAddressed(hash, s.fs) && PcOk(hash, s)
  }

  lemma CommitKeepsInv(hash: Bytes -> string, s: State, s': State, uid: string)
    requires Inv(hash, s) && CommitStep(s, s', uid)
    ensures Inv(hash, s')
    ensures s.pc.job.existing.None? && uid !in s.db.sessions ==>
      var p := s.pc.job.parsed;
      s'.db.sessions == s.db.sessions[uid := Session(p.key, p.fingerprint, p.fingerprint)]
    ensures s.pc.job.existing.Some? ==>
      && s'.db.sessions.Keys == s.db.sessions.Keys
      && s'.db.sessions[s.pc.job.existing.value].fingerprint == s.pc.job.parsed.fingerprint
  {
    var p := s.pc.job.parsed;
    match s.pc.job.existing {
      case None =>
        if uid !in s.db.sessions {
          InsertCommits(s.db, uid, p.key, p.fingerprint);
        }
      case Some(u) =>
        ReplaceCommits(s.db, u, p.fingerprint);
    }
  }

  lemma ReferencedAreCounted(db: Db)
    requires DbInv(db)
    ensures ReferencedBlobs(db) == db.blobs.Keys
  {
  }

  lemma StepKeepsInv(hash: Bytes -> string, s: State, s': State, step: Step)
    requires Inv(hash, s) && NextStep(hash, s, s', step)
    ensures Inv(hash, s')
  {
    match step {
      case Commit(uid) => CommitKeepsInv(hash, s, s', uid);
      case ReadReferences => ReferencedAreCounted(s.db);
      case DeleteOrphan(addr) => ReferencedIffCounted(s.db, addr);
      case _ =>
    }
  }

  lemma {:induction false} RunKeepsInv(hash: Bytes -> string, trace: seq<State>)
    requires Run(hash, trace)
    ensures Inv(hash, trace[|trace| - 1])
    decreases |trace|
  {
    if |trace| > 1 {
      RunKeepsInv(hash, trace[..|trace| - 1]);
      var s, s' := trace[|trace| - 2], trace[|trace| - 1];
      var step :| NextStep(hash, s, s', step);
      StepKeepsInv(hash, s, s', step);
    } else {
      forall a ensures Refcount(trace[0].db, a) == |Referrers(trace[0].db.sessions, a)| {
        assert Referrers(trace[0].db.sessions, a) == {};
      }
    }
  }

  // ---------- what holds in every run ----------

  /**
   Crash safety: after any sequence of ingests, failures, crashes and restarts, even in the middle
   of any of them, every session points at its own fingerprint, the file behind it exists and hashes
   to that fingerprint, and a blob row exists exactly for what is referenced, counting its sessions.
   */
  lemma ContentAddressingIsCrashSafe(hash: Bytes -> string, trace: seq<State>)
    requires Run(hash, trace)
    ensures
      var db, files := trace[|trace| - 1].db, trace[|trace| - 1].fs.files;
      && (forall u :: u in db.sessions ==>
            && db.sessions[u].rawRef == db.sessions[u].fingerprint
            && db.sessions[u].rawRef in files && hash(files[db.sessions[u].rawRef]) == db.sessions[u].fingerprint)
      && (forall a :: a in db.blobs <==> Referrers(db.sessions, a) != {})
      && (forall a :: a in db.blobs ==> db.blobs[a] == |Referrers(db.sessions, a)|)
  {
    RunKeepsInv(hash, trace);
    var db := trace[|trace| - 1].db;
    forall a ensures a in db.blobs <==> Referrers(db.sessions, a) != {} {
      assert Refcount(db, a) == |Referrers(db.sessions, a)|;
    }
  }

  /** No transaction of a run is ever refused, except an insert that drew an id already in use. */
  lemma TransactionsCommit(hash: Bytes -> string, trace: seq<State>, uid: string)
    requires Run(hash, trace) && trace[|trace| - 1].pc.Committing?
    ensures
      var s := trace[|trace| - 1];
      var p := s.pc.job.parsed;
      match s.pc.job.existing
      case None =>
        InsertSession(s.db, uid, p.key, p.fingerprint, p.fingerprint).Ok? <==> uid !in s.db.sessions
      case Some(u) =>
        && u in s.db.sessions
        && ReplaceSession(s.db, u, s.db.sessions[u].rawRef, p.fingerprint, p.fingerprint).Ok?
  {
    RunKeepsInv(hash, trace);
    var s := trace[|trace| - 1];
    match s.pc.job.existing {
      case None =>
        if uid !in s.db.sessions {
          InsertCommits(s.db, uid, s.pc.job.parsed.key, s.pc.job.parsed.fingerprint);
        }
      case Some(u) => ReplaceCommits(s.db, u, s.pc.job.parsed.fingerprint);
    }
  }

  /** When startup maintenance finishes, the disk holds exactly the referenced blobs and no temp file. */
  lemma MaintenanceLeavesExactlyTheReferenced(hash: Bytes -> string, trace: seq<State>, s': State)
    requires Run(hash, trace) && NextStep(hash, trace[|trace| - 1], s', OrphansDone)
    ensures s'.fs.temps == map[]
    ensures s'.fs.files.Keys == s'.db.blobs.Keys == set u | u in s'.db.sessions :: s'.db.sessions[u].rawRef
  {
    RunKeepsInv(hash, trace);
    var s := trace[|trace| - 1];
    forall a ensures a in s.db.blobs <==> a in set u | u in s'.db.sessions :: s'.db.sessions[u].rawRef {
      ReferencedIffCounted(s.db, a);
    }
  }

  /** Short of a hash collision, the file a commit is about to reference holds the ingested bytes. */
  lemma CommittedFileHoldsTheBytes(hash: Bytes -> string, trace: seq<State>)
    requires Run(hash, trace) && trace[|trace| - 1].pc.Committing?
    requires forall b :: hash(b) == trace[|trace| - 1].pc.job.parsed.fingerprint ==>
               b == trace[|trace| - 1].pc.job.parsed.raw
    ensures
      var s := trace[|trace| - 1];
      var p := s.pc.job.parsed;
      p.fingerprint in s.fs.files && s.fs.files[p.fingerprint] == p.raw
  {
    RunKeepsInv(hash, trace);
  }
}
