/**
 The `operations` table: one method per transaction, and the guarded writes they commit.
 `now` and freshly drawn ids are parameters.
 */
module OperationsStore {
  import opened Wrappers
  import opened OperationsTypes
  import opened TextOrder

  // ---------- ORDER BY submitted_at ASC, id ASC, on the stored text ----------

  predicate Precedes(a: Operation, b: Operation) {
    if a.submittedAt == b.submittedAt then LexLeq(a.id, b.id) else LexLeq(a.submittedAt, b.submittedAt)
  }

  lemma PrecedesTotal(a: Operation, b: Operation)
    ensures Precedes(a, b) || Precedes(b, a)
  {
    LexTotal(a.submittedAt, b.submittedAt);
    LexTotal(a.id, b.id);
  }

  lemma PrecedesTransitive(a: Operation, b: Operation, c: Operation)
    requires Precedes(a, b) && Precedes(b, c)
    ensures Precedes(a, c)
  {
    LexTotal(a.submittedAt, b.submittedAt);
    LexTotal(b.submittedAt, c.submittedAt);
    if a.submittedAt == b.submittedAt == c.submittedAt {
      LexTransitive(a.id, b.id, c.id);
    } else {
      LexTransitive(a.submittedAt, b.submittedAt, c.submittedAt);
    }
  }

  // ---------- queries ----------

  datatype Selection = QueuedOf(kind: Kind) | UnstartedCancelOf(kind: Kind)

  predicate Matches(sel: Selection, row: Operation) {
    && row.key.kind == sel.kind
    && match sel
       case QueuedOf(_) => row.status.Queued?
       case UnstartedCancelOf(_) => row.status.CancelRequested? && row.startedAt.None?
  }

  predicate NoneMatch(rows: seq<Operation>, sel: Selection) {
    forall i :: 0 <= i < |rows| ==> !Matches(sel, rows[i])
  }

  /** Row `i` is what `ORDER BY submitted_at, id LIMIT 1` selects. */
  predicate IsFirst(rows: seq<Operation>, sel: Selection, i: nat) {
    && i < |rows| && Matches(sel, rows[i])
    && forall j :: 0 <= j < |rows| && Matches(sel, rows[j]) ==> Precedes(rows[i], rows[j])
  }

  predicate HasId(rows: seq<Operation>, id: string) {
    exists i :: 0 <= i < |rows| && rows[i].id == id
  }

  predicate KeyBlocked(rows: seq<Operation>, key: Key) {
    exists i :: 0 <= i < |rows| && Blocks(rows[i], key)
  }

  predicate Blocks(row: Operation, key: Key) {
    row.key == key && IsBlocking(row.status)
  }

  // ---------- guarded writes ----------

  datatype Write =
    | ToRunning
    | ToCancelRequested
    | ToCancelled(result: Option<string>)
    | ToSucceeded(value: string)
    | ToFailed(error: string)
    | ToInterrupted

  predicate Guard(w: Write, s: Status) {
    match w
    case ToRunning => s.Queued?
    case ToCancelRequested => s.Queued? || s.Running?
    case ToCancelled(_) => s.CancelRequested?
    case _ => s.Running? || s.CancelRequested?
  }

  function Coalesce(old_: Option<string>, now: string): Option<string> {
    if old_.Some? then old_ else Some(now)
  }

  function Apply(w: Write, row: Operation, now: string): Operation {
    match w
    case ToRunning => row.(status := Running, startedAt := Coalesce(row.startedAt, now))
    case ToCancelRequested =>
      row.(status := CancelRequested, cancelRequestedAt := Coalesce(row.cancelRequestedAt, now))
    case ToCancelled(result) =>
      row.(status := Cancelled, finishedAt := Some(now), resultJson := result, errorJson := None)
    case ToSucceeded(value) =>
      row.(status := Succeeded, finishedAt := Some(now), resultJson := Some(value), errorJson := None)
    case ToFailed(error) =>
      row.(status := Failed, finishedAt := Some(now), resultJson := None, errorJson := Some(error))
    case ToInterrupted => row.(status := Interrupted, finishedAt := Coalesce(row.finishedAt, now))
  }

  /** `UPDATE ... WHERE id = ? AND <guard>` committed `w` on exactly row `i`. */
  ghost predicate Committed(rows: seq<Operation>, rows': seq<Operation>, i: nat, w: Write, now: string) {
    && i < |rows|
    && Guard(w, rows[i].status)
    && rows' == rows[i := Apply(w, rows[i], now)]
  }

  /** The outcome of a guarded write addressed by id: one row hit and returned, or nothing. */
  ghost predicate WriteById(rows: seq<Operation>, rows': seq<Operation>, id: string, w: Write, now: string,
                            updated: Option<Operation>) {
    match updated
    case Some(row) => exists i: nat :: Committed(rows, rows', i, w, now) && rows[i].id == id && row == rows'[i]
    case None => rows' == rows && forall i :: 0 <= i < |rows| && rows[i].id == id ==> !Guard(w, rows[i].status)
  }

  /** The outcome of a guarded write addressed by an ordered selection. */
  ghost predicate WriteFirst(rows: seq<Operation>, rows': seq<Operation>, sel: Selection, w: Write, now: string,
                             updated: Option<Operation>) {
    match updated
    case Some(row) => exists i: nat :: IsFirst(rows, sel, i) && Committed(rows, rows', i, w, now) && row == rows'[i]
    case None => rows' == rows && NoneMatch(rows, sel)
  }

  function NewRow(id: string, key: Key, paramsJson: string, now: string): Operation {
    Operation(id, key, Queued, paramsJson, None, None, now, None, None, None)
  }

  /** INSERT under the primary key and the partial unique index. */
  ghost predicate InsertRow(rows: seq<Operation>, rows': seq<Operation>, row: Operation, inserted: bool) {
    && inserted == (!HasId(rows, row.id) && !KeyBlocked(rows, row.key))
    && rows' == if inserted then rows + [row] else rows
  }

  /** The row an idempotency lookup returns: blocking, with the key, newest first. */
  ghost predicate FoundByKey(rows: seq<Operation>, key: Key, found: Option<Operation>) {
    match found
    case Some(row) =>
      && (exists i :: 0 <= i < |rows| && row == rows[i] && Blocks(rows[i], key))
      && forall j :: 0 <= j < |rows| && Blocks(rows[j], key) ==> Precedes(rows[j], row)
    case None => !KeyBlocked(rows, key)
  }

  ghost predicate FoundById(rows: seq<Operation>, id: string, found: Option<Operation>) {
    match found
    case Some(row) => row in rows && row.id == id
    case None => !HasId(rows, id)
  }

  /** `reconcile_interrupted` touches every started or cancel-requested row and nothing else. */
  function Reconciled(rows: seq<Operation>, now: string): (rows': seq<Operation>)
    ensures |rows'| == |rows|
    ensures forall i :: 0 <= i < |rows| ==>
      rows'[i] == if Guard(ToInterrupted, rows[i].status) then Apply(ToInterrupted, rows[i], now) else rows[i]
  {
    seq(|rows|, i requires 0 <= i < |rows| =>
      if Guard(ToInterrupted, rows[i].status) then Apply(ToInterrupted, rows[i], now) else rows[i])
  }

  datatype CancelOutcome = Requested(row: Operation) | Conflict(row: Operation) | NotFound

  ghost predicate RequestedCancel(rows: seq<Operation>, rows': seq<Operation>, id: string, now: string,
                                  outcome: CancelOutcome) {
    match outcome
    case Requested(row) => WriteById(rows, rows', id, ToCancelRequested, now, Some(row))
    case Conflict(row) => rows' == rows && row in rows && row.id == id && !Guard(ToCancelRequested, row.status)
    case NotFound => rows' == rows && !HasId(rows, id)
  }

  class OperationsStore {
    var rows: seq<Operation>

    ghost predicate Valid()
      reads this
    {
      forall i, j :: 0 <= i < j < |rows| ==> rows[i].id != rows[j].id
    }

    constructor ()
      ensures Valid() && rows == []
    {
      rows := [];
    }

    /** The index `SELECT ... ORDER BY submitted_at, id LIMIT 1` lands on, or `|rows|`. */
    method SelectFirst(sel: Selection) returns (best: nat)
      ensures best <= |rows|
      ensures best < |rows| ==> IsFirst(rows, sel, best)
      ensures best == |rows| ==> NoneMatch(rows, sel)
    {
      best := |rows|;
      for i := 0 to |rows|
        invariant best <= |rows|
        invariant best == |rows| ==> forall j :: 0 <= j < i ==> !Matches(sel, rows[j])
        invariant best < |rows| ==> best < i && Matches(sel, rows[best])
        invariant best < |rows| ==>
          forall j :: 0 <= j < i && Matches(sel, rows[j]) ==> Precedes(rows[best], rows[j])
      {
        if Matches(sel, rows[i]) {
          PrecedesTotal(rows[i], rows[i]);
          if best == |rows| {
            best := i;
          } else {
            PrecedesTotal(rows[best], rows[i]);
            if !Precedes(rows[best], rows[i]) {
              forall j | 0 <= j < i && Matches(sel, rows[j]) ensures Precedes(rows[i], rows[j]) {
                PrecedesTransitive(rows[i], rows[best], rows[j]);
              }
              best := i;
            }
          }
        }
      }
    }

    method SelectById(id: string) returns (at: nat)
      ensures at <= |rows|
      ensures at < |rows| ==> rows[at].id == id
      ensures at == |rows| ==> !HasId(rows, id)
    {
      at := 0;
      while at < |rows| && rows[at].id != id
        invariant at <= |rows|
        invariant forall j :: 0 <= j < at ==> rows[j].id != id
      {
        at := at + 1;
      }
    }

    /** `find_by_idempotency_key`: ORDER BY submitted_at DESC, id DESC LIMIT 1. */
    method FindByIdempotencyKey(key: Key) returns (found: Option<Operation>)
      ensures FoundByKey(rows, key, found)
      ensures found.Some? ==> found.value in rows && found.value.key == key
      ensures found.Some? ==> var s := found.value.status; s in {Queued, Running, CancelRequested, Succeeded}
      ensures found.Some? ==> forall row :: row in rows && row.key == key && IsBlocking(row.status) ==>
        if row.submittedAt == found.value.submittedAt then LexLeq(row.id, found.value.id)
        else LexLeq(row.submittedAt, found.value.submittedAt)
      ensures found.None? ==> forall row :: row in rows && row.key == key ==>
        row.status in {Failed, Cancelled, Interrupted}
    {
      found := None;
      for i := 0 to |rows|
        invariant found.None? ==> forall j :: 0 <= j < i ==> !Blocks(rows[j], key)
        invariant found.Some? ==> exists j :: 0 <= j < i && found.value == rows[j] && Blocks(rows[j], key)
        invariant found.Some? ==>
          forall j :: 0 <= j < i && Blocks(rows[j], key) ==> Precedes(rows[j], found.value)
      {
        if Blocks(rows[i], key) {
          PrecedesTotal(rows[i], rows[i]);
          if found.None? {
            found := Some(rows[i]);
          } else {
            PrecedesTotal(found.value, rows[i]);
            if Precedes(found.value, rows[i]) {
              forall j | 0 <= j < i && Blocks(rows[j], key) ensures Precedes(rows[j], rows[i]) {
                PrecedesTransitive(rows[j], found.value, rows[i]);
              }
              found := Some(rows[i]);
            }
          }
        }
      }
    }

    method GetById(id: string) returns (found: Option<Operation>)
      ensures FoundById(rows, id, found)
    {
      var at := SelectById(id);
      found := if at < |rows| then Some(rows[at]) else None;
    }

    method IsCancelRequested(id: string) returns (requested: bool)
      requires Valid()
      ensures requested <==> exists i :: 0 <= i < |rows| && rows[i].id == id && rows[i].status.CancelRequested?
    {
      var at := SelectById(id);
      requested := at < |rows| && rows[at].status.CancelRequested?;
    }

    method Insert(row: Operation) returns (inserted: bool)
      requires Valid()
      modifies this
      ensures Valid()
      ensures InsertRow(old(rows), rows, row, inserted)
      ensures rows == if inserted then old(rows) + [row] else old(rows)
      ensures inserted <==> forall other :: other in old(rows) ==>
        other.id != row.id && (other.key == row.key ==> other.status in {Failed, Cancelled, Interrupted})
    {
      var at := SelectById(row.id);
      var blocking := FindByIdempotencyKey(row.key);
      inserted := at == |rows| && blocking.None?;
      if inserted {
        rows := rows + [row];
      }
    }

    method ClaimNextQueued(kind: Kind, now: string) returns (claimed: Option<Operation>)
      requires Valid()
      modifies this
      ensures Valid()
      ensures WriteFirst(old(rows), rows, QueuedOf(kind), ToRunning, now, claimed)
      ensures claimed.None? ==> rows == old(rows) && forall row :: row in rows ==>
        !(row.key.kind == kind && row.status == Queued)
      ensures claimed.Some? ==> claimed.value.status == Running && claimed.value.key.kind == kind
      ensures claimed.Some? ==> forall row :: row in old(rows) && row.key.kind == kind && row.status == Queued ==>
        if row.submittedAt == claimed.value.submittedAt then LexLeq(claimed.value.id, row.id)
        else LexLeq(claimed.value.submittedAt, row.submittedAt)
      ensures claimed.Some? ==> exists i ::
        && 0 <= i < |old(rows)| && rows == old(rows)[i := claimed.value] && old(rows)[i].status == Queued
        && claimed.value == old(rows)[i].(status := Running, startedAt :=
             if old(rows)[i].startedAt.Some? then old(rows)[i].startedAt else Some(now))
    {
      var at := SelectFirst(QueuedOf(kind));
      if at == |rows| {
        return None;
      }
      rows := rows[at := rows[at].(status := Running, startedAt := Coalesce(rows[at].startedAt, now))];
      return Some(rows[at]);
    }

    method CompleteNextQueuedCancellation(kind: Kind, now: string) returns (cancelled: Option<Operation>)
      requires Valid()
      modifies this
      ensures Valid()
      ensures WriteFirst(old(rows), rows, UnstartedCancelOf(kind), ToCancelled(None), now, cancelled)
      ensures cancelled.None? ==> rows == old(rows) && forall row :: row in rows ==>
        !(row.key.kind == kind && row.status == CancelRequested && row.startedAt == None)
      ensures cancelled.Some? ==> forall row |
        row in old(rows) && row.key.kind == kind && row.status == CancelRequested && row.startedAt == None ::
        if row.submittedAt == cancelled.value.submittedAt then LexLeq(cancelled.value.id, row.id)
        else LexLeq(cancelled.value.submittedAt, row.submittedAt)
      ensures cancelled.Some? ==> exists i ::
        && 0 <= i < |old(rows)| && rows == old(rows)[i := cancelled.value]
        && old(rows)[i].status == CancelRequested && old(rows)[i].startedAt == None && old(rows)[i].key.kind == kind
        && cancelled.value == old(rows)[i].(
             status := Cancelled, finishedAt := Some(now), resultJson := None, errorJson := None)
    {
      var at := SelectFirst(UnstartedCancelOf(kind));
      if at == |rows| {
        return None;
      }
      ghost var before := rows;
      cancelled := CompleteCancelled(rows[at].id, None, now);
      assert Guard(ToCancelled(None), before[at].status);
      assert Committed(before, rows, at, ToCancelled(None), now);
    }

    method RequestCancel(id: string, now: string) returns (outcome: CancelOutcome)
      requires Valid()
      modifies this
      ensures Valid()
      ensures RequestedCancel(old(rows), rows, id, now, outcome)
      ensures outcome.NotFound? <==> forall row :: row in old(rows) ==> row.id != id
      ensures !outcome.Requested? ==> rows == old(rows)
      ensures forall i :: 0 <= i < |old(rows)| && old(rows)[i].id == id ==>
        if old(rows)[i].status in {Queued, Running} then
          && outcome == Requested(rows[i]) && rows == old(rows)[i := rows[i]]
          && rows[i] == old(rows)[i].(status := CancelRequested, cancelRequestedAt :=
               if old(rows)[i].cancelRequestedAt.Some? then old(rows)[i].cancelRequestedAt else Some(now))
        else outcome == Conflict(old(rows)[i])
    {
      var at := SelectById(id);
      if at == |rows| {
        return NotFound;
      }
      var existing := rows[at];
      if !(existing.status.Queued? || existing.status.Running?) {
        return Conflict(existing);
      }
      rows := rows[at := existing.(status := CancelRequested,
                                   cancelRequestedAt := Coalesce(existing.cancelRequestedAt, now))];
      return Requested(rows[at]);
    }

    method CompleteCancelled(id: string, result: Option<string>, now: string) returns (updated: Option<Operation>)
      requires Valid()
      modifies this
      ensures Valid()
      ensures WriteById(old(rows), rows, id, ToCancelled(result), now, updated)
      ensures updated.Some? <==> exists row :: row in old(rows) && row.id == id && row.status == CancelRequested
      ensures updated.None? ==> rows == old(rows)
      ensures forall i :: 0 <= i < |old(rows)| && old(rows)[i].id == id && updated.Some? ==>
        && rows == old(rows)[i := updated.value]
        && updated.value == old(rows)[i].(
             status := Cancelled, finishedAt := Some(now), resultJson := result, errorJson := None)
    {
      var at := SelectById(id);
      if at == |rows| || !rows[at].status.CancelRequested? {
        return None;
      }
      rows := rows[at := rows[at].(status := Cancelled, finishedAt := Some(now),
                                   resultJson := result, errorJson := None)];
      return Some(rows[at]);
    }

    method CompleteTerminalConditional(id: string, w: Write, now: string) returns (updated: Option<Operation>)
      requires Valid() && (w.ToSucceeded? || w.ToFailed?)
      modifies this
      ensures Valid()
      ensures WriteById(old(rows), rows, id, w, now, updated)
      ensures updated.Some? <==>
        exists row :: row in old(rows) && row.id == id && row.status in {Running, CancelRequested}
      ensures updated.None? ==> rows == old(rows)
      ensures forall i :: 0 <= i < |old(rows)| && old(rows)[i].id == id && updated.Some? ==>
        && rows == old(rows)[i := updated.value]
        && updated.value == old(rows)[i].(
             status := updated.value.status, finishedAt := Some(now),
             resultJson := updated.value.resultJson, errorJson := updated.value.errorJson)
      ensures updated.Some? && w.ToSucceeded? ==>
        && updated.value.status == Succeeded
        && updated.value.resultJson == Some(w.value) && updated.value.errorJson == None
      ensures updated.Some? && w.ToFailed? ==>
        && updated.value.status == Failed
        && updated.value.errorJson == Some(w.error) && updated.value.resultJson == None
    {
      var at := SelectById(id);
      if at == |rows| || !(rows[at].status.Running? || rows[at].status.CancelRequested?) {
        return None;
      }
      rows := rows[at := rows[at].(
        status := if w.ToSucceeded? then Succeeded else Failed,
        finishedAt := Some(now),
        resultJson := if w.ToSucceeded? then Some(w.value) else None,
        errorJson := if w.ToFailed? then Some(w.error) else None)];
      return Some(rows[at]);
    }

    method ReconcileInterrupted(now: string)
      requires Valid()
      modifies this
      ensures Valid()
      ensures rows == Reconciled(old(rows), now)
      ensures |rows| == |old(rows)| && forall i :: 0 <= i < |rows| ==>
        if old(rows)[i].status in {Running, CancelRequested} then
          rows[i] == old(rows)[i].(status := Interrupted, finishedAt :=
            if old(rows)[i].finishedAt.Some? then old(rows)[i].finishedAt else Some(now))
        else rows[i] == old(rows)[i]
    {
      for i := 0 to |rows|
        invariant |rows| == |old(rows)|
        invariant forall j :: 0 <= j < i ==> rows[j] == Reconciled(old(rows), now)[j]
        invariant forall j :: i <= j < |rows| ==> rows[j] == old(rows)[j]
        invariant forall j :: 0 <= j < |rows| ==> rows[j].id == old(rows)[j].id
      {
        if rows[i].status.Running? || rows[i].status.CancelRequested? {
          rows := rows[i := rows[i].(status := Interrupted, finishedAt := Coalesce(rows[i].finishedAt, now))];
        }
      }
    }
  }
}
