/** The stores and the ingest service as the mutable objects they are, each method run to completion. */
module IngestService {
  import opened Wrappers
  import opened RawSessionStore
  import opened IngestSystem

  datatype Disposition = Inserted | Unchanged | Replaced

  datatype IngestOutcome = IngestOutcome(disposition: Disposition, sessionUid: string)

  datatype IngestError = FingerprintMismatch | CheckpointFailed

  class SqliteStore {
    var db: Db

    constructor ()
      ensures db == Db(map[], map[])
    {
      db := Db(map[], map[]);
    }

    /** `get_session_by_source_key`. */
    method GetSessionBySourceKey(key: SourceKey) returns (found: Option<string>)
      ensures FindsExisting(db, key, found)
    {
      if u :| u in db.sessions && db.sessions[u].key == key {
        return Some(u);
      }
      return None;
    }

    method InsertSession(uid: string, key: SourceKey, fingerprint: string, rawRef: string)
      returns (r: Result<(), SqlError>)
      modifies this
      ensures r.Ok? ==> RawSessionStore.InsertSession(old(db), uid, key, fingerprint, rawRef) == Ok(db)
      ensures r.Err? ==>
        db == old(db) && RawSessionStore.InsertSession(db, uid, key, fingerprint, rawRef) == Err(r.error)
    {
      var transaction := IncrementBlobRef(db, rawRef);
      var inserted := InsertSessionRow(transaction, uid, Session(key, fingerprint, rawRef));
      if inserted.Err? {
        return Err(inserted.error);
      }
      db := inserted.value;
      return Ok(());
    }

    method ReplaceSession(existing: string, oldRef: string, fingerprint: string, rawRef: string)
      returns (r: Result<Option<string>, SqlError>)
      modifies this
      ensures r.Ok? ==>
        RawSessionStore.ReplaceSession(old(db), existing, oldRef, fingerprint, rawRef) == Ok((db, r.value))
      ensures r.Err? ==>
        db == old(db) && RawSessionStore.ReplaceSession(db, existing, oldRef, fingerprint, rawRef) == Err(r.error)
    {
      var transaction := IncrementBlobRef(db, rawRef);
      var updated := UpdateSessionRow(transaction, existing, fingerprint, rawRef);
      assert updated.Ok?;  // the referenced row was counted one line above
      var settled := DecrementBlobRef(updated.value, oldRef);
      if settled.Err? {
        return Err(settled.error);
      }
      db := settled.value.0;
      return Ok(settled.value.1);
    }
  }

  class LocalFsBlobStore {
    var fs: Fs

    constructor ()
      ensures fs == Fs(map[], map[])
    {
      fs := Fs(map[], map[]);
    }

    /** Write a temp file, then rename; an existing file wins and is never rewritten. */
    method Put(addr: string, bytes: Bytes, temp: string) returns (created: bool)
      requires temp !in fs.temps
      modifies this
      ensures created <==> addr !in old(fs).files
      ensures fs == if created then Fs(old(fs).files[addr := bytes], old(fs).temps) else old(fs)
    {
      if addr in fs.files {
        return false;
      }
      ghost var temps := fs.temps;
      fs := fs.(temps := fs.temps[temp := []]);
      fs := fs.(temps := fs.temps[temp := bytes]);
      fs := Fs(fs.files[addr := fs.temps[temp]], fs.temps - {temp});
      assert fs.temps == temps;
      return true;
    }

    /** A missing file is not an error. */
    method Delete(addr: string)
      modifies this
      ensures fs == Fs(old(fs).files - {addr}, old(fs).temps)
    {
      fs := fs.(files := fs.files - {addr});
    }

    method SweepTempFiles()
      modifies this
      ensures fs == Fs(old(fs).files, map[])
    {
      var entries := fs.temps.Keys;
      while entries != {}
        invariant entries == fs.temps.Keys
        invariant fs.files == old(fs).files
        decreases |entries|
      {
        var temp :| temp in entries;
        fs := fs.(temps := fs.temps - {temp});
        entries := entries - {temp};
      }
    }

    method DeleteOrphanBlobs(referenced: set<string>)
      modifies this
      ensures fs.temps == old(fs).temps
      ensures fs.files == map a | a in old(fs).files && a in referenced :: old(fs).files[a]
    {
      var entries := fs.files.Keys;
      while entries != {}
        invariant entries <= fs.files.Keys <= old(fs).files.Keys
        invariant forall a :: a in fs.files ==> fs.files[a] == old(fs).files[a]
        invariant forall a :: a in old(fs).files && a in referenced ==> a in fs.files
        invariant forall a :: a in fs.files && a !in entries ==> a in referenced
        invariant fs.temps == old(fs).temps
        decreases |entries|
      {
        var addr :| addr in entries;
        if addr !in referenced {
          Delete(addr);
        }
        entries := entries - {addr};
      }
    }
  }

  /** The state a maintained installation is in between operations. */
  ghost predicate Sound(hash: Bytes -> string, db: Db, fs: Fs) {
    Inv(hash, State(db, fs, Ready))
  }

  class IngestService {
    const hash: Bytes -> string
    const store: SqliteStore
    const blobs: LocalFsBlobStore

    constructor (hash: Bytes -> string, store: SqliteStore, blobs: LocalFsBlobStore)
      ensures this.hash == hash && this.store == store && this.blobs == blobs
    {
      this.hash, this.store, this.blobs := hash, store, blobs;
    }

    /** The branch for a known session whose content changed. */
    method ReplaceContent(u: string, parsed: ParsedSession, temp: string)
      requires Sound(hash, store.db, blobs.fs) && temp !in blobs.fs.temps && hash(parsed.raw) == parsed.fingerprint
      requires u in store.db.sessions && store.db.sessions[u].key == parsed.key
      requires store.db.sessions[u].fingerprint != parsed.fingerprint
      modifies store, blobs
      ensures Sound(hash, store.db, blobs.fs) && blobs.fs.temps == old(blobs.fs.temps)
      ensures store.db.sessions
           == old(store.db.sessions)[u := Session(parsed.key, parsed.fingerprint, parsed.fingerprint)]
    {
      var created := blobs.Put(parsed.fingerprint, parsed.raw, temp);
      ReplaceCommits(store.db, u, parsed.fingerprint);
      var replaced := store.ReplaceSession(u, store.db.sessions[u].rawRef, parsed.fingerprint, parsed.fingerprint);
      if replaced.value.Some? {
        blobs.Delete(replaced.value.value);
      }
    }

    /** The branch for a session not seen before. */
    method InsertContent(uid: string, parsed: ParsedSession, temp: string)
      requires Sound(hash, store.db, blobs.fs) && temp !in blobs.fs.temps && hash(parsed.raw) == parsed.fingerprint
      requires uid !in store.db.sessions && !HasKey(store.db, parsed.key)
      modifies store, blobs
      ensures Sound(hash, store.db, blobs.fs) && blobs.fs.temps == old(blobs.fs.temps)
      ensures store.db.sessions
           == old(store.db.sessions)[uid := Session(parsed.key, parsed.fingerprint, parsed.fingerprint)]
    {
      var created := blobs.Put(parsed.fingerprint, parsed.raw, temp);
      InsertCommits(store.db, uid, parsed.key, parsed.fingerprint);
      var inserted := store.InsertSession(uid, parsed.key, parsed.fingerprint, parsed.fingerprint);
    }

    /** Bring the stored copy of one source session up to date; `uid` and `temp` are freshly drawn. */
    method Ingest(parsed: ParsedSession, uid: string, temp: string) returns (r: Result<IngestOutcome, IngestError>)
      requires Sound(hash, store.db, blobs.fs) && uid !in store.db.sessions && temp !in blobs.fs.temps
      modifies store, blobs
      ensures Sound(hash, store.db, blobs.fs) && blobs.fs.temps == old(blobs.fs.temps)
      ensures r.Err? <==> hash(parsed.raw) != parsed.fingerprint
      ensures r.Err? || r.value.disposition.Unchanged? ==> store.db == old(store.db) && blobs.fs == old(blobs.fs)
      ensures r.Ok? ==>
        var u := r.value.sessionUid;
        && store.db.sessions == old(store.db.sessions)[u := Session(parsed.key, parsed.fingerprint, parsed.fingerprint)]
        && (r.value.disposition.Inserted? <==> !HasKey(old(store.db), parsed.key))
        && (r.value.disposition.Inserted? ==> u == uid)
        && (!r.value.disposition.Inserted? ==>
              u in old(store.db.sessions) && old(store.db.sessions)[u].key == parsed.key)
        && (r.value.disposition.Unchanged? ==> old(store.db.sessions)[u].fingerprint == parsed.fingerprint)
        && (r.value.disposition.Replaced? ==> old(store.db.sessions)[u].fingerprint != parsed.fingerprint)
    {
      if hash(parsed.raw) != parsed.fingerprint {
        return Err(FingerprintMismatch);
      }
      var existing := store.GetSessionBySourceKey(parsed.key);
      if existing.Some? {
        var u := existing.value;
        if store.db.sessions[u].fingerprint == parsed.fingerprint {
          return Ok(IngestOutcome(Unchanged, u));
        }
        ReplaceContent(u, parsed, temp);
        return Ok(IngestOutcome(Replaced, u));
      }
      InsertContent(uid, parsed, temp);
      return Ok(IngestOutcome(Inserted, uid));
    }

    /** The startup sweep, start to finish: temp files go, then every file no session counts. */
    method StartupMaintenance()
      requires Sound(hash, store.db, blobs.fs)
      modifies blobs
      ensures Sound(hash, store.db, blobs.fs)
      ensures blobs.fs.temps == map[] && blobs.fs.files.Keys == store.db.blobs.Keys
    {
      blobs.SweepTempFiles();
      var referenced := ReferencedBlobs(store.db);
      ReferencedAreCounted(store.db);
      blobs.DeleteOrphanBlobs(referenced);
      forall a | a in store.db.blobs ensures a in blobs.fs.files {
        ReferencedIffCounted(store.db, a);
      }
      forall u | u in store.db.sessions ensures store.db.sessions[u].rawRef in blobs.fs.files {
        ReferencedIffCounted(store.db, store.db.sessions[u].rawRef);
      }
    }

    /**
     Ingests in order until the checkpoint or an ingest fails; `failsAt` is when the checkpoint would
     fail. `n` is the number of sessions ingested.
     */
    method IngestManyWithCheckpoint(sessions: seq<ParsedSession>, uids: seq<string>, temp: string, failsAt: nat)
      returns (r: Result<seq<IngestOutcome>, IngestError>, ghost n: nat)
      requires Sound(hash, store.db, blobs.fs) && temp !in blobs.fs.temps && |uids| == |sessions|
      requires NoneTaken(uids, store.db)
      modifies store, blobs
      ensures Sound(hash, store.db, blobs.fs) && blobs.fs.temps == old(blobs.fs.temps) && n <= |sessions|
      ensures HoldsLatest(store.db, sessions[..n], old(store.db)) && AllMatch(hash, sessions[..n]) && n <= failsAt
      ensures r.Ok? ==> n == |sessions| == |r.value|
      ensures r.Ok? ==> forall i :: 0 <= i < |r.value| ==>
        r.value[i].sessionUid in store.db.sessions && store.db.sessions[r.value[i].sessionUid].key == sessions[i].key
      ensures r.Ok? ==> forall i :: 0 <= i < |r.value| ==>
        (r.value[i].disposition == Inserted <==>
           !HasKey(old(store.db), sessions[i].key) && forall j :: 0 <= j < i ==> sessions[j].key != sessions[i].key)
      ensures r.Ok? ==> forall i :: 0 <= i < |r.value| ==>
        (r.value[i].disposition == Unchanged <==>
           LatestOf(sessions[..i], sessions[i].key, FingerprintOf(old(store.db), sessions[i].key))
           == Some(sessions[i].fingerprint))
      ensures r.Err? ==> n < |sessions| && if n == failsAt then r.error.CheckpointFailed?
                         else r.error.FingerprintMismatch? && hash(sessions[n].raw) != sessions[n].fingerprint
    {
      var outcomes: seq<IngestOutcome> := [];
      n := 0;
      for i := 0 to |sessions|
        invariant n == i == |outcomes| && i <= failsAt
        invariant Sound(hash, store.db, blobs.fs) && blobs.fs.temps == old(blobs.fs.temps)
        invariant NoneTaken(uids[i..], store.db)
        invariant BatchSoFar(hash, sessions, outcomes, old(store.db), store.db)
      {
        if i == failsAt {
          return Err(CheckpointFailed), i;
        }
        assert uids[i..][0] == uids[i] && uids[i..][1..] == uids[i + 1..];
        var outcome := IngestNext(sessions, outcomes, uids[i..], temp, old(store.db));
        if outcome.Err? {
          return Err(FingerprintMismatch), i;
        }
        outcomes := outcomes + [outcome.value];
        n := i + 1;
      }
      assert sessions[..|sessions|] == sessions;
      ReportsMean(outcomes, sessions, old(store.db), store.db);
      return Ok(outcomes), |sessions|;
    }

    /** The next session of a batch; `uids` are the identifiers not used yet. */
    method IngestNext(sessions: seq<ParsedSession>, ghost outcomes: seq<IngestOutcome>, uids: seq<string>, temp: string,
                      ghost start: Db)
      returns (r: Result<IngestOutcome, IngestError>)
      requires Sound(hash, store.db, blobs.fs) && temp !in blobs.fs.temps && NoneTaken(uids, store.db)
      requires uids != [] && |sessions| == |outcomes| + |uids|
      requires BatchSoFar(hash, sessions, outcomes, start, store.db)
      modifies store, blobs
      ensures Sound(hash, store.db, blobs.fs) && blobs.fs.temps == old(blobs.fs.temps)
      ensures r.Err? ==> hash(sessions[|outcomes|].raw) != sessions[|outcomes|].fingerprint && store.db == old(store.db)
      ensures r.Ok? ==>
        NoneTaken(uids[1..], store.db) && BatchSoFar(hash, sessions, outcomes + [r.value], start, store.db)
    {
      var i := |sessions| - |uids|;
      ghost var before := store.db;
      r := Ingest(sessions[i], uids[0], temp);
      if r.Ok? {
        StillNoneTaken(uids, before, store.db, r.value.sessionUid);
        OneMoreInBatch(hash, sessions, outcomes, r.value, start, before, store.db);
      }
    }
  }

  // ---------- what a batch leaves stored ----------

  /** Freshly drawn identifiers: all different, and none in use. */
  ghost predicate NoneTaken(uids: seq<string>, db: Db) {
    && (forall i :: 0 <= i < |uids| ==> uids[i] !in db.sessions)
    && (forall i, j :: 0 <= i < j < |uids| ==> uids[i] != uids[j])
  }

  lemma StillNoneTaken(uids: seq<string>, before: Db, after: Db, u: string)
    requires uids != [] && NoneTaken(uids, before)
    requires after.sessions.Keys == before.sessions.Keys + {u} && (u == uids[0] || u in before.sessions)
    ensures NoneTaken(uids[1..], after)
  {
  }

  /** The fingerprint stored for a source session. */
  ghost function FingerprintOf(db: Db, key: SourceKey): Option<string> {
    if u :| u in db.sessions && db.sessions[u].key == key then Some(db.sessions[u].fingerprint) else None
  }

  /** The fingerprint of the last of `sessions` with this key, or `before` if there is none. */
  function LatestOf(sessions: seq<ParsedSession>, key: SourceKey, before: Option<string>): Option<string> {
    if sessions == [] then before
    else
      var last := sessions[|sessions| - 1];
      if last.key == key then Some(last.fingerprint) else LatestOf(sessions[..|sessions| - 1], key, before)
  }

  /** After a batch every source session has the fingerprint it had last in the batch, or else the one it had before. */
  ghost predicate HoldsLatest(db: Db, sessions: seq<ParsedSession>, before: Db) {
    forall key :: FingerprintOf(db, key) == LatestOf(sessions, key, FingerprintOf(before, key))
  }

  /** The disposition of the `i`th session of a batch, from what was stored before the batch. */
  ghost predicate IsReported(disposition: Disposition, sessions: seq<ParsedSession>, i: nat, start: Db)
    requires i < |sessions|
  {
    && (disposition == Inserted <==>
          !HasKey(start, sessions[i].key) && forall j :: 0 <= j < i ==> sessions[j].key != sessions[i].key)
    && (disposition == Unchanged <==>
          LatestOf(sessions[..i], sessions[i].key, FingerprintOf(start, sessions[i].key))
          == Some(sessions[i].fingerprint))
  }

  lemma {:induction false} LatestIsSome(sessions: seq<ParsedSession>, key: SourceKey, before: Option<string>)
    ensures LatestOf(sessions, key, before).Some?
        <==> before.Some? || exists j :: 0 <= j < |sessions| && sessions[j].key == key
  {
    if sessions != [] {
      LatestIsSome(sessions[..|sessions| - 1], key, before);
    }
  }

  lemma ReportIsRight(outcome: IngestOutcome, sessions: seq<ParsedSession>, i: nat, start: Db, before: Db)
    requires i < |sessions| && SessionsOk(before.sessions) && HoldsLatest(before, sessions[..i], start)
    requires outcome.disposition.Inserted? <==> !HasKey(before, sessions[i].key)
    requires !outcome.disposition.Inserted? ==>
      && outcome.sessionUid in before.sessions && before.sessions[outcome.sessionUid].key == sessions[i].key
      && (outcome.disposition.Unchanged? <==>
            before.sessions[outcome.sessionUid].fingerprint == sessions[i].fingerprint)
    ensures IsReported(outcome.disposition, sessions, i, start)
  {
    var key := sessions[i].key;
    LatestIsSome(sessions[..i], key, FingerprintOf(start, key));
    assert HasKey(before, key) <==> FingerprintOf(before, key).Some?;
    assert HasKey(start, key) <==> FingerprintOf(start, key).Some?;
    if !outcome.disposition.Inserted? {
      FingerprintIsStored(before, outcome.sessionUid);
    }
  }

  /** Each outcome names the row its session is stored under, and says what became of it. */
  ghost predicate AllReported(outcomes: seq<IngestOutcome>, sessions: seq<ParsedSession>, start: Db, db: Db) {
    && |outcomes| <= |sessions|
    && forall i :: 0 <= i < |outcomes| ==>
         && outcomes[i].sessionUid in db.sessions && db.sessions[outcomes[i].sessionUid].key == sessions[i].key
         && IsReported(outcomes[i].disposition, sessions, i, start)
  }

  /** What one ingest did to the database. */
  ghost predicate Ingested(outcome: IngestOutcome, parsed: ParsedSession, before: Db, after: Db) {
    var u := outcome.sessionUid;
    && SessionsOk(before.sessions) && SessionsOk(after.sessions)
    && after.sessions == before.sessions[u := Session(parsed.key, parsed.fingerprint, parsed.fingerprint)]
    && (u in before.sessions ==> before.sessions[u].key == parsed.key)
    && (outcome.disposition.Inserted? <==> !HasKey(before, parsed.key))
    && (!outcome.disposition.Inserted? ==>
          && u in before.sessions
          && (outcome.disposition.Unchanged? <==> before.sessions[u].fingerprint == parsed.fingerprint))
  }

  lemma OneMoreReported(outcomes: seq<IngestOutcome>, outcome: IngestOutcome, sessions: seq<ParsedSession>,
                        start: Db, before: Db, after: Db)
    requires |outcomes| < |sessions| && AllReported(outcomes, sessions, start, before)
    requires HoldsLatest(before, sessions[..|outcomes|], start)
    requires Ingested(outcome, sessions[|outcomes|], before, after)
    ensures AllReported(outcomes + [outcome], sessions, start, after)
  {
    ReportIsRight(outcome, sessions, |outcomes|, start, before);
    KeysStay(outcome, sessions[|outcomes|], before, after);
    var all := outcomes + [outcome];
    forall i | 0 <= i < |outcomes|
      ensures all[i].sessionUid in after.sessions && after.sessions[all[i].sessionUid].key == sessions[i].key
      ensures IsReported(all[i].disposition, sessions, i, start)
    {
      assert all[i] == outcomes[i];
    }
  }

  lemma KeysStay(outcome: IngestOutcome, parsed: ParsedSession, before: Db, after: Db)
    requires Ingested(outcome, parsed, before, after)
    ensures outcome.sessionUid in after.sessions && after.sessions[outcome.sessionUid].key == parsed.key
    ensures forall u :: u in before.sessions ==> u in after.sessions && after.sessions[u].key == before.sessions[u].key
  {
  }

  ghost predicate BatchSoFar(hash: Bytes -> string, sessions: seq<ParsedSession>, outcomes: seq<IngestOutcome>,
                             start: Db, db: Db)
  {
    && AllReported(outcomes, sessions, start, db) && AllMatch(hash, sessions[..|outcomes|])
    && HoldsLatest(db, sessions[..|outcomes|], start)
  }

  lemma OneMoreInBatch(hash: Bytes -> string, sessions: seq<ParsedSession>, outcomes: seq<IngestOutcome>,
                       outcome: IngestOutcome, start: Db, before: Db, after: Db)
    requires |outcomes| < |sessions| && BatchSoFar(hash, sessions, outcomes, start, before)
    requires hash(sessions[|outcomes|].raw) == sessions[|outcomes|].fingerprint
    requires Ingested(outcome, sessions[|outcomes|], before, after)
    ensures BatchSoFar(hash, sessions, outcomes + [outcome], start, after)
  {
    OneMoreReported(outcomes, outcome, sessions, start, before, after);
    OneMoreLatest(sessions, |outcomes|, outcome, start, before, after);
    OneMoreMatches(hash, sessions, |outcomes|);
    assert |outcomes + [outcome]| == |outcomes| + 1;
  }

  lemma OneMoreLatest(sessions: seq<ParsedSession>, i: nat, outcome: IngestOutcome, start: Db, before: Db, after: Db)
    requires i < |sessions| && HoldsLatest(before, sessions[..i], start)
    requires Ingested(outcome, sessions[i], before, after)
    ensures HoldsLatest(after, sessions[..i + 1], start)
  {
    IngestedIsLatest(before, after, sessions[i], outcome.sessionUid);
    OneMoreIngested(sessions, i, start, before, after);
  }

  lemma OneMoreMatches(hash: Bytes -> string, sessions: seq<ParsedSession>, i: nat)
    requires i < |sessions| && AllMatch(hash, sessions[..i]) && hash(sessions[i].raw) == sessions[i].fingerprint
    ensures AllMatch(hash, sessions[..i + 1])
  {
    forall j | 0 <= j < i + 1 ensures hash(sessions[j].raw) == sessions[j].fingerprint {
      assert j < i ==> sessions[..i][j] == sessions[j];
    }
  }

  lemma ReportsMean(outcomes: seq<IngestOutcome>, sessions: seq<ParsedSession>, start: Db, db: Db)
    requires AllReported(outcomes, sessions, start, db)
    ensures forall i :: 0 <= i < |outcomes| ==>
      outcomes[i].sessionUid in db.sessions && db.sessions[outcomes[i].sessionUid].key == sessions[i].key
    ensures forall i :: 0 <= i < |outcomes| ==>
      (outcomes[i].disposition == Inserted <==>
         !HasKey(start, sessions[i].key) && forall j :: 0 <= j < i ==> sessions[j].key != sessions[i].key)
    ensures forall i :: 0 <= i < |outcomes| ==>
      (outcomes[i].disposition == Unchanged <==>
         LatestOf(sessions[..i], sessions[i].key, FingerprintOf(start, sessions[i].key))
         == Some(sessions[i].fingerprint))
  {
  }

  predicate AllMatch(hash: Bytes -> string, sessions: seq<ParsedSession>) {
    forall i :: 0 <= i < |sessions| ==> hash(sessions[i].raw) == sessions[i].fingerprint
  }

  lemma OneMoreIngested(sessions: seq<ParsedSession>, i: nat, start: Db, before: Db, after: Db)
    requires i < |sessions| && HoldsLatest(before, sessions[..i], start)
    requires forall key :: FingerprintOf(after, key)
                        == if key == sessions[i].key then Some(sessions[i].fingerprint) else FingerprintOf(before, key)
    ensures HoldsLatest(after, sessions[..i + 1], start)
  {
    assert sessions[..i + 1][..i] == sessions[..i];
  }

  lemma FingerprintIsStored(db: Db, u: string)
    requires SessionsOk(db.sessions) && u in db.sessions
    ensures FingerprintOf(db, db.sessions[u].key) == Some(db.sessions[u].fingerprint)
  {
  }

  lemma IngestedIsLatest(before: Db, after: Db, parsed: ParsedSession, u: string)
    requires SessionsOk(before.sessions) && SessionsOk(after.sessions)
    requires after.sessions == before.sessions[u := Session(parsed.key, parsed.fingerprint, parsed.fingerprint)]
    requires u in before.sessions ==> before.sessions[u].key == parsed.key
    ensures forall key :: FingerprintOf(after, key)
                       == if key == parsed.key then Some(parsed.fingerprint) else FingerprintOf(before, key)
  {
    FingerprintIsStored(after, u);
    forall key | key != parsed.key ensures FingerprintOf(after, key) == FingerprintOf(before, key) {
      if v :| v in before.sessions && before.sessions[v].key == key {
        assert v in after.sessions && after.sessions[v] == before.sessions[v];
        FingerprintIsStored(before, v);
        FingerprintIsStored(after, v);
      } else {
        assert forall w :: w in after.sessions ==> after.sessions[w].key != key;
      }
    }
  }
}
