/** What every committed write keeps, and what it changes for good. */
module OperationsLedger {
  import opened Wrappers
  import opened OperationsTypes
  import opened OperationsStore

  predicate UniqueIds(rows: seq<Operation>) {
    forall i, j :: 0 <= i < j < |rows| ==> rows[i].id != rows[j].id
  }

  /** The partial unique index. */
  predicate IndexHolds(rows: seq<Operation>) {
    forall i, j :: 0 <= i < j < |rows| && IsBlocking(rows[i].status) && IsBlocking(rows[j].status) ==>
      rows[i].key != rows[j].key
  }

  predicate RowInv(row: Operation) {
    && (row.finishedAt.Some? <==> IsTerminal(row.status))
    && !(row.resultJson.Some? && row.errorJson.Some?)
    && (row.resultJson.Some? || row.errorJson.Some? ==> IsTerminal(row.status))
    && (row.status.Queued? <==> row.startedAt.None? && row.cancelRequestedAt.None?)
    && (row.status.Running? ==> row.startedAt.Some? && row.cancelRequestedAt.None?)
    && (row.status.CancelRequested? || row.status.Cancelled? ==> row.cancelRequestedAt.Some?)
    && (row.status == Succeeded ==> row.resultJson.Some? && row.errorJson == None)
    && (row.status == Failed ==> row.errorJson.Some? && row.resultJson == None)
    && (row.status == Cancelled ==> row.errorJson == None)
    && (row.status == Interrupted ==> row.resultJson == None && row.errorJson == None)
  }

  predicate LedgerInv(rows: seq<Operation>) {
    UniqueIds(rows) && IndexHolds(rows) && forall i :: 0 <= i < |rows| ==> RowInv(rows[i])
  }

  function Rank(s: Status): nat {
    match s
    case Queued => 3
    case Running => 2
    case CancelRequested => 1
    case _ => 0
  }

  function RankSum(rows: seq<Operation>): nat {
    if rows == [] then 0 else RankSum(rows[..|rows| - 1]) + Rank(rows[|rows| - 1].status)
  }

  // ---------- single rows ----------

  /** The irreversible facts of one row's life: identity, rank descent, and never starting late. */
  predicate RowEvolves(row: Operation, row': Operation) {
    && row'.id == row.id && row'.key == row.key
    && row'.paramsJson == row.paramsJson && row'.submittedAt == row.submittedAt
    && (row' == row || Rank(row'.status) < Rank(row.status))
    && (!row.status.Queued? ==> row'.startedAt == row.startedAt)
    && (row.cancelRequestedAt.Some? ==> row'.cancelRequestedAt == row.cancelRequestedAt)
  }

  /** Every guarded write lowers the rank by a positive amount and keeps a row well formed. */
  lemma ApplyLowersRank(w: Write, row: Operation, now: string)
    requires RowInv(row) && Guard(w, row.status)
    ensures RowInv(Apply(w, row, now)) && RowEvolves(row, Apply(w, row, now))
    ensures Rank(Apply(w, row, now).status) < Rank(row.status)
  {
  }

  // ---------- whole tables ----------

  predicate Evolves(rows: seq<Operation>, rows': seq<Operation>) {
    |rows| <= |rows'| && forall i :: 0 <= i < |rows| ==> RowEvolves(rows[i], rows'[i])
  }

  lemma EvolvesTransitive(a: seq<Operation>, b: seq<Operation>, c: seq<Operation>)
    requires Evolves(a, b) && Evolves(b, c)
    ensures Evolves(a, c)
  {
    forall i | 0 <= i < |a| ensures RowEvolves(a[i], c[i]) {
      assert RowEvolves(a[i], b[i]) && RowEvolves(b[i], c[i]);
    }
  }

  lemma {:induction false} RankSumUpdate(rows: seq<Operation>, i: nat, row: Operation)
    requires i < |rows|
    ensures RankSum(rows[i := row]) == RankSum(rows) - Rank(rows[i].status) + Rank(row.status)
  {
    var n := |rows| - 1;
    if i == n {
      assert rows[i := row][..n] == rows[..n];
    } else {
      assert rows[i := row][..n] == rows[..n][i := row];
      RankSumUpdate(rows[..n], i, row);
    }
  }

  /**
   An UPDATE can never raise the unique-index error: each guarded write keeps the index, the
   primary key and every row well formed, and strictly lowers the ledger's total rank.
   */
  lemma WriteKeepsLedger(rows: seq<Operation>, rows': seq<Operation>, i: nat, w: Write, now: string)
    requires LedgerInv(rows) && Committed(rows, rows', i, w, now)
    ensures LedgerInv(rows') && Evolves(rows, rows')
    ensures RankSum(rows') < RankSum(rows)
  {
    ApplyLowersRank(w, rows[i], now);
    RankSumUpdate(rows, i, Apply(w, rows[i], now));
  }

  /** INSERT is refused exactly when accepting it would break the primary key or the index. */
  lemma InsertRefusedExactly(rows: seq<Operation>, row: Operation)
    requires UniqueIds(rows) && IndexHolds(rows) && row.status.Queued?
    ensures UniqueIds(rows + [row]) <==> !HasId(rows, row.id)
    ensures IndexHolds(rows + [row]) <==> !KeyBlocked(rows, row.key)
  {
    var grown := rows + [row];
    if i :| 0 <= i < |rows| && rows[i].id == row.id {
      assert grown[i].id == grown[|rows|].id;
    }
    if i :| 0 <= i < |rows| && Blocks(rows[i], row.key) {
      assert grown[i].key == grown[|rows|].key && IsBlocking(grown[i].status);
    }
  }

  lemma InsertKeepsLedger(rows: seq<Operation>, rows': seq<Operation>, id: string, key: Key, paramsJson: string,
                          now: string)
    requires LedgerInv(rows) && InsertRow(rows, rows', NewRow(id, key, paramsJson, now), true)
    ensures LedgerInv(rows') && Evolves(rows, rows')
    ensures RankSum(rows') == RankSum(rows) + 3
  {
    InsertRefusedExactly(rows, NewRow(id, key, paramsJson, now));
    assert rows'[..|rows|] == rows;
  }

  /** Restart: reconciliation keeps the ledger and leaves only queued or terminal rows behind. */
  lemma {:induction false} ReconcileKeepsLedger(rows: seq<Operation>, now: string)
    requires LedgerInv(rows)
    ensures LedgerInv(Reconciled(rows, now)) && Evolves(rows, Reconciled(rows, now))
    ensures forall i :: 0 <= i < |rows| ==>
      Reconciled(rows, now)[i].status.Queued? || IsTerminal(Reconciled(rows, now)[i].status)
  {
  }

  /** Each row reconciliation changes is one committed transition, paid for by rank. */
  lemma {:induction false} ReconcileLowersRank(rows: seq<Operation>, now: string)
    ensures RankSum(Reconciled(rows, now)) + Touched(rows) <= RankSum(rows)
  {
    if rows != [] {
      var n := |rows| - 1;
      assert Reconciled(rows, now)[..n] == Reconciled(rows[..n], now);
      ReconcileLowersRank(rows[..n], now);
    }
  }

  /** How many rows reconciliation rewrites: the count its UPDATE returns. */
  function Touched(rows: seq<Operation>): nat {
    if rows == [] then 0
    else Touched(rows[..|rows| - 1]) + if Guard(ToInterrupted, rows[|rows| - 1].status) then 1 else 0
  }

  /** With the index in force, the lookup by key has one possible answer. */
  lemma LookupIsUnique(rows: seq<Operation>, key: Key, winner: Operation, found: Option<Operation>)
    requires LedgerInv(rows) && winner in rows && Blocks(winner, key)
    requires FoundByKey(rows, key, found)
    ensures found == Some(winner)
  {
    var w :| 0 <= w < |rows| && rows[w] == winner;
    assert Blocks(rows[w], key);
  }
}
