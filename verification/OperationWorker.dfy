/**
 One turn of a worker's loop, run to completion against the store and the broadcaster. The one thing
 the outside world can do to the claimed operation meanwhile, request its cancellation, is done here
 between any two of the worker's own store calls. The announcements are the worker's: the canceller
 makes its own, of the row it marked, which is a step of OperationsSystem and not made here.
 */
module OperationWorker {
  import opened Wrappers
  import opened OperationsTypes
  import opened OperationsStore
  import opened OperationsLedger
  import opened OperationsSystem
  import opened Broadcaster
  import opened TextOrder

  /**
   When a cancel request for the claimed operation arrives, if one does: before the checkpoint that
   precedes the handler, before the one that follows it, or after that one and before the last write.
   */
  datatype CancelRequest = Never | BeforeCheckpoint | DuringHandler | BeforeWrite

  /** What one turn makes of a claimed row, from the handler's verdict and the cancel request. */
  function Finish(claimed: Operation, completion: Completion, request: CancelRequest, now: string): Operation {
    var wanted := if request.Never? then claimed else Apply(ToCancelRequested, claimed, now);
    if request.BeforeCheckpoint? then Apply(ToCancelled(None), wanted, now)
    else match completion
      case Success(result) =>
        Apply(if request.DuringHandler? then ToCancelled(None) else ToSucceeded(result), wanted, now)
      case Failure(error) => Apply(ToFailed(error), wanted, now)
      case Cancellation(partial) => Apply(ToCancelled(partial), wanted, now)
  }

  predicate RowIs(rows: seq<Operation>, i: nat, row: Operation) {
    i < |rows| && rows[i] == row
  }

  /** A guarded write addressed by id hits the row that has it. */
  lemma HitsTheRow(rows: seq<Operation>, rows': seq<Operation>, i: nat, w: Write, now: string,
                   updated: Option<Operation>)
    requires LedgerInv(rows) && i < |rows| && Guard(w, rows[i].status)
    requires WriteById(rows, rows', rows[i].id, w, now, updated)
    ensures Committed(rows, rows', i, w, now) && updated == Some(rows'[i]) && LedgerInv(rows')
  {
    assert updated.Some?;
    var j: nat :| Committed(rows, rows', j, w, now) && rows[j].id == rows[i].id && updated.value == rows'[j];
    assert j == i;
    WriteKeepsLedger(rows, rows', i, w, now);
  }

  lemma FirstIsUnique(rows: seq<Operation>, sel: Selection, i: nat, j: nat)
    requires UniqueIds(rows) && IsFirst(rows, sel, i) && IsFirst(rows, sel, j)
    ensures i == j
  {
    LexTotal(rows[i].submittedAt, rows[j].submittedAt);
    LexTotal(rows[i].id, rows[j].id);
  }

  /** An ordered write hits the first matching row and no other. */
  lemma HitsTheFirst(rows: seq<Operation>, rows': seq<Operation>, sel: Selection, w: Write, now: string,
                     updated: Option<Operation>) returns (i: nat)
    requires LedgerInv(rows) && WriteFirst(rows, rows', sel, w, now, updated) && updated.Some?
    ensures IsFirst(rows, sel, i) && forall j: nat :: IsFirst(rows, sel, j) ==> j == i
    ensures Committed(rows, rows', i, w, now) && updated == Some(rows'[i]) && LedgerInv(rows') && !NoneMatch(rows, sel)
  {
    i :| IsFirst(rows, sel, i) && Committed(rows, rows', i, w, now) && updated.value == rows'[i];
    forall j: nat | IsFirst(rows, sel, j) ensures j == i {
      FirstIsUnique(rows, sel, i, j);
    }
    WriteKeepsLedger(rows, rows', i, w, now);
  }

  class OperationWorker {
    const kind: Kind
    const store: OperationsStore
    const broadcaster: OperationsBroadcaster

    constructor (kind: Kind, store: OperationsStore, broadcaster: OperationsBroadcaster)
      ensures this.kind == kind && this.store == store && this.broadcaster == broadcaster
    {
      this.kind, this.store, this.broadcaster := kind, store, broadcaster;
    }

    ghost predicate Valid()
      reads store, broadcaster
    {
      store.Valid() && broadcaster.Valid() && LedgerInv(store.rows)
    }

    /** Another caller's `request_cancel` of the claimed row, without the announcement that caller makes of it. */
    method CancelArrives(ghost i: nat, id: string, now: string)
      requires Valid() && i < |store.rows| && store.rows[i].id == id && store.rows[i].status.Running?
      modifies store
      ensures Valid() && Committed(old(store.rows), store.rows, i, ToCancelRequested, now)
    {
      var reply := store.RequestCancel(id, now);
      var rows := old(store.rows);
      assert reply.Requested?;
      HitsTheRow(rows, store.rows, i, ToCancelRequested, now, Some(reply.row));
    }

    /** `complete_operation`, after the success checkpoint: one write that hits the row, and its announcement. */
    method CompleteOperation(ghost i: nat, id: string, w: Write, now: string)
      requires Valid() && i < |store.rows| && store.rows[i].id == id && Guard(w, store.rows[i].status)
      requires w.ToSucceeded? || w.ToFailed? || w.ToCancelled?
      modifies store, broadcaster
      ensures Valid() && Committed(old(store.rows), store.rows, i, w, now)
      ensures broadcaster.log == old(broadcaster.log) + [store.rows[i]]
    {
      var updated: Option<Operation>;
      if w.ToCancelled? {
        updated := store.CompleteCancelled(id, w.result, now);
      } else {
        updated := store.CompleteTerminalConditional(id, w, now);
      }
      HitsTheRow(old(store.rows), store.rows, i, w, now, updated);
      if updated.Some? {
        var seqNo := broadcaster.Publish(updated.value);
      }
    }

    /** The write a handler's verdict leads to; success is checked once more for a cancel request. */
    method VerdictWrite(id: string, completion: Completion) returns (w: Write)
      requires Valid()
      ensures w == if completion.Success? && CancelIsRequested(store.rows, id) then ToCancelled(None)
                   else WriteOf(completion)
    {
      if completion.Success? {
        var requested := store.IsCancelRequested(id);
        if requested {
          return ToCancelled(None);
        }
      }
      return WriteOf(completion);
    }

    /** From the claim on: checkpoint, handler, completion. */
    method RunClaimed(ghost i: nat, claimed: Operation, completion: Completion, request: CancelRequest, now: string)
      requires Valid() && RowIs(store.rows, i, claimed) && claimed.status.Running?
      requires completion.Cancellation? ==> request.DuringHandler?
      modifies store, broadcaster
      ensures Valid() && store.rows == old(store.rows)[i := Finish(claimed, completion, request, now)]
      ensures broadcaster.log == old(broadcaster.log) + [Finish(claimed, completion, request, now)]
      ensures store.rows[i].status ==
        if completion.Cancellation? || request.BeforeCheckpoint? || (completion.Success? && request.DuringHandler?)
        then Cancelled else if completion.Success? then Succeeded else Failed
      ensures store.rows[i].status == Succeeded ==> completion == Success(store.rows[i].resultJson.value)
      ensures store.rows[i].status == Failed ==> completion == Failure(store.rows[i].errorJson.value)
      ensures store.rows[i].status == Cancelled ==> store.rows[i].errorJson == None
      ensures store.rows[i].status == Cancelled ==>
        store.rows[i].resultJson
        == if completion.Cancellation? && !request.BeforeCheckpoint? then completion.partial else None
      ensures store.rows[i] == claimed.(
        status := store.rows[i].status, finishedAt := Some(now), resultJson := store.rows[i].resultJson,
        errorJson := store.rows[i].errorJson, cancelRequestedAt := store.rows[i].cancelRequestedAt)
    {
      if request.BeforeCheckpoint? {
        CancelArrives(i, claimed.id, now);
      }
      var requested := store.IsCancelRequested(claimed.id);
      assert store.rows[i].id == claimed.id;
      assert requested <==> store.rows[i].status.CancelRequested?;
      if requested {
        CompleteOperation(i, claimed.id, ToCancelled(None), now);
        return;
      }
      if request.DuringHandler? {
        CancelArrives(i, claimed.id, now);
      }
      var w := VerdictWrite(claimed.id, completion);
      assert CancelIsRequested(store.rows, claimed.id) <==> store.rows[i].status.CancelRequested?;
      if request.BeforeWrite? {
        CancelArrives(i, claimed.id, now);
      }
      CompleteOperation(i, claimed.id, w, now);
    }

    /**
     One turn. It finishes the first operation cancelled before it started, or else takes the first
     queued one all the way to a terminal status; with neither it does nothing. No other row changes,
     and what it announces are the rows it committed itself; a canceller's announcement is not among them.
     */
    method RunOnce(completion: Completion, request: CancelRequest, now: string) returns (worked: bool)
      requires Valid() && (completion.Cancellation? ==> request.DuringHandler?)
      modifies store, broadcaster
      ensures Valid()
      ensures worked <==>
        !NoneMatch(old(store.rows), UnstartedCancelOf(kind)) || !NoneMatch(old(store.rows), QueuedOf(kind))
      ensures !worked ==> store.rows == old(store.rows) && broadcaster.log == old(broadcaster.log)
      ensures forall i: nat :: IsFirst(old(store.rows), UnstartedCancelOf(kind), i) ==>
        var cancelled := Apply(ToCancelled(None), old(store.rows)[i], now);
        store.rows == old(store.rows)[i := cancelled] && broadcaster.log == old(broadcaster.log) + [cancelled]
      ensures forall i: nat ::
        NoneMatch(old(store.rows), UnstartedCancelOf(kind)) && IsFirst(old(store.rows), QueuedOf(kind), i) ==>
        var claimed := Apply(ToRunning, old(store.rows)[i], now);
        var done := Finish(claimed, completion, request, now);
        store.rows == old(store.rows)[i := done] && broadcaster.log == old(broadcaster.log) + [claimed] + [done]
    {
      var cancelled := store.CompleteNextQueuedCancellation(kind, now);
      if cancelled.Some? {
        ghost var c :=
          HitsTheFirst(old(store.rows), store.rows, UnstartedCancelOf(kind), ToCancelled(None), now, cancelled);
        var seqNo := broadcaster.Publish(cancelled.value);
        return true;
      }
      var claimed := store.ClaimNextQueued(kind, now);
      if claimed.None? {
        return false;
      }
      ghost var i := HitsTheFirst(old(store.rows), store.rows, QueuedOf(kind), ToRunning, now, claimed);
      var seqNo := broadcaster.Publish(claimed.value);
      RunClaimed(i, claimed.value, completion, request, now);
      return true;
    }
  }
}
