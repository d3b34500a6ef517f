/**
 The raw-session database: sessions that reference content-addressed blobs, and the reference
 counts kept beside them. A transaction is a sequence of statements, each checked against the
 declared constraints as SQLite checks it.
 */
module RawSessionStore {
  import opened Wrappers

  datatype Tool = ClaudeCode | Codex

  datatype SourceKey = SourceKey(tool: Tool, sourceSessionId: string)

  datatype Session = Session(key: SourceKey, fingerprint: string, rawRef: string)

  /** `sessions` by session_uid, `blobs` maps content_addr to refcount. */
  datatype Db = Db(sessions: map<string, Session>, blobs: map<string, int>)

  datatype SqlError = PrimaryKeyViolation | UniqueViolation | ForeignKeyViolation | NoRow

  predicate HasKey(db: Db, key: SourceKey) {
    exists u :: u in db.sessions && db.sessions[u].key == key
  }

  predicate IsReferenced(db: Db, addr: string) {
    exists u :: u in db.sessions && db.sessions[u].rawRef == addr
  }

  // ---------- statements ----------

  function IncrementBlobRef(db: Db, addr: string): Db {
    db.(blobs := db.blobs[addr := if addr in db.blobs then db.blobs[addr] + 1 else 1])
  }

  function InsertSessionRow(db: Db, uid: string, session: Session): Result<Db, SqlError> {
    if uid in db.sessions then Err(PrimaryKeyViolation)
    else if HasKey(db, session.key) then Err(UniqueViolation)
    else if session.rawRef !in db.blobs then Err(ForeignKeyViolation)
    else Ok(db.(sessions := db.sessions[uid := session]))
  }

  function UpdateSessionRow(db: Db, uid: string, fingerprint: string, rawRef: string): Result<Db, SqlError> {
    if uid !in db.sessions then Ok(db)
    else if rawRef !in db.blobs then Err(ForeignKeyViolation)
    else Ok(db.(sessions := db.sessions[uid := db.sessions[uid].(fingerprint := fingerprint, rawRef := rawRef)]))
  }

  /** Decrement, read back, and delete the row once nothing is counted; reports the freed address. */
  function DecrementBlobRef(db: Db, addr: string): Result<(Db, Option<string>), SqlError> {
    if addr !in db.blobs then Err(NoRow)
    else
      var refcount := db.blobs[addr] - 1;
      if refcount > 0 then Ok((db.(blobs := db.blobs[addr := refcount]), None))
      else if IsReferenced(db, addr) then Err(ForeignKeyViolation)
      else Ok((db.(blobs := db.blobs - {addr}), Some(addr)))
  }

  // ---------- transactions ----------

  function InsertSession(db: Db, uid: string, key: SourceKey, fingerprint: string, rawRef: string)
    : Result<Db, SqlError>
  {
    InsertSessionRow(IncrementBlobRef(db, rawRef), uid, Session(key, fingerprint, rawRef))
  }

  function ReplaceSession(db: Db, existing: string, oldRef: string, fingerprint: string, rawRef: string)
    : Result<(Db, Option<string>), SqlError>
  {
    match UpdateSessionRow(IncrementBlobRef(db, rawRef), existing, fingerprint, rawRef)
    case Err(e) => Err(e)
    case Ok(updated) => DecrementBlobRef(updated, oldRef)
  }

  function ReferencedBlobs(db: Db): set<string> {
    set a | a in db.blobs && db.blobs[a] > 0
  }

  // ---------- what the counts mean ----------

  function Referrers(sessions: map<string, Session>, addr: string): set<string> {
    set u | u in sessions && sessions[u].rawRef == addr
  }

  function Refcount(db: Db, addr: string): int {
    if addr in db.blobs then db.blobs[addr] else 0
  }

  /** Every refcount is the number of sessions with that raw_ref, and only counted blobs have rows. */
  ghost predicate CountsAreExact(db: Db) {
    && (forall a :: Refcount(db, a) == |Referrers(db.sessions, a)|)
    && (forall a :: a in db.blobs ==> db.blobs[a] > 0)
  }

  ghost predicate SessionsOk(sessions: map<string, Session>) {
    && (forall u :: u in sessions ==> sessions[u].rawRef == sessions[u].fingerprint)
    && (forall u, v :: u in sessions && v in sessions && sessions[u].key == sessions[v].key ==> u == v)
  }

  ghost predicate DbInv(db: Db) {
    CountsAreExact(db) && SessionsOk(db.sessions)
  }

  function One(condition: bool): int {
    if condition then 1 else 0
  }

  /** Pointing session `uid` at `addr` moves exactly that session between referrer sets. */
  lemma ReferrersAfterUpdate(sessions: map<string, Session>, uid: string, session: Session, a: string)
    ensures |Referrers(sessions[uid := session], a)| == |Referrers(sessions, a)| + One(session.rawRef == a)
            - One(uid in sessions && sessions[uid].rawRef == a)
  {
    var before, after := Referrers(sessions, a), Referrers(sessions[uid := session], a);
    if session.rawRef == a {
      assert after == before + {uid};
    } else {
      assert after == before - {uid};
    }
  }

  lemma ReferencedIffCounted(db: Db, a: string)
    requires CountsAreExact(db)
    ensures IsReferenced(db, a) <==> a in db.blobs
  {
    assert Refcount(db, a) == |Referrers(db.sessions, a)|;
    if u :| u in db.sessions && db.sessions[u].rawRef == a {
      assert u in Referrers(db.sessions, a);
    }
    if a in db.blobs {
      var u :| u in Referrers(db.sessions, a);
    }
  }

  /** Inserting a new session for a new key always commits and keeps the counts exact. */
  lemma InsertCommits(db: Db, uid: string, key: SourceKey, fingerprint: string)
    requires DbInv(db) && uid !in db.sessions && !HasKey(db, key)
    ensures
      var r := InsertSession(db, uid, key, fingerprint, fingerprint);
      && r.Ok? && DbInv(r.value)
      && r.value.sessions == db.sessions[uid := Session(key, fingerprint, fingerprint)]
  {
    var session := Session(key, fingerprint, fingerprint);
    assert !HasKey(IncrementBlobRef(db, fingerprint), key);
    var db' := InsertSession(db, uid, key, fingerprint, fingerprint).value;
    forall a ensures Refcount(db', a) == |Referrers(db'.sessions, a)| {
      ReferrersAfterUpdate(db.sessions, uid, session, a);
      assert Refcount(db, a) == |Referrers(db.sessions, a)|;
    }
  }

  /** And an insert is refused for one of two reasons, with nothing written. */
  lemma InsertFailsExactly(db: Db, uid: string, key: SourceKey, fingerprint: string)
    ensures var r := InsertSession(db, uid, key, fingerprint, fingerprint);
      && (r == Err(PrimaryKeyViolation) <==> uid in db.sessions)
      && (r == Err(UniqueViolation) <==>
            uid !in db.sessions && exists u :: u in db.sessions && db.sessions[u].key == key)
      && (r.Ok? <==> uid !in db.sessions && forall u :: u in db.sessions ==> db.sessions[u].key != key)
  {
    assert IncrementBlobRef(db, fingerprint).sessions == db.sessions;
  }

  /**
   Replacing a stored session always commits: the DELETE of a row that reached zero never breaks
   the foreign key, and the freed address is reported exactly when nobody references it any more.
   */
  lemma ReplaceCommits(db: Db, uid: string, fingerprint: string)
    requires DbInv(db) && uid in db.sessions
    ensures
      var old_ := db.sessions[uid];
      var r := ReplaceSession(db, uid, old_.rawRef, fingerprint, fingerprint);
      && r.Ok? && DbInv(r.value.0)
      && r.value.0.sessions == db.sessions[uid := old_.(fingerprint := fingerprint, rawRef := fingerprint)]
      && r.value.1 == if IsReferenced(r.value.0, old_.rawRef) then None else Some(old_.rawRef)
  {
    var old_ := db.sessions[uid];
    var session := old_.(fingerprint := fingerprint, rawRef := fingerprint);
    var updated := IncrementBlobRef(db, fingerprint).(sessions := db.sessions[uid := session]);
    assert UpdateSessionRow(IncrementBlobRef(db, fingerprint), uid, fingerprint, fingerprint) == Ok(updated);
    forall a ensures Refcount(updated, a) == |Referrers(updated.sessions, a)| + One(a == old_.rawRef) {
      ReferrersAfterUpdate(db.sessions, uid, session, a);
      assert Refcount(db, a) == |Referrers(db.sessions, a)|;
    }
    DecrementSettles(updated, old_.rawRef);
  }

  /** With one count too many at `addr`, the decrement restores exactness without a constraint error. */
  lemma DecrementSettles(db: Db, addr: string)
    requires forall a :: Refcount(db, a) == |Referrers(db.sessions, a)| + One(a == addr)
    requires forall a :: a in db.blobs ==> db.blobs[a] > 0
    ensures
      var r := DecrementBlobRef(db, addr);
      && r.Ok? && CountsAreExact(r.value.0) && r.value.0.sessions == db.sessions
      && r.value.1 == if IsReferenced(r.value.0, addr) then None else Some(addr)
  {
    assert Refcount(db, addr) == |Referrers(db.sessions, addr)| + 1;
    if u :| u in db.sessions && db.sessions[u].rawRef == addr {
      assert u in Referrers(db.sessions, addr);
    }
    var db' := DecrementBlobRef(db, addr).value.0;
    forall a ensures Refcount(db', a) == |Referrers(db'.sessions, a)| {
      assert Refcount(db, a) == |Referrers(db.sessions, a)| + One(a == addr);
    }
    ReferencedIffCounted(db', addr);
  }
}
