/**
 The SSE broadcaster: a sequence counter, a replay ring and a lossy live channel behind one
 lock. Each locked section is one method; `log` is the unbounded history the ring stands for.
 */
module Broadcaster {
  import opened Wrappers
  import opened OperationsTypes

  const RING_BUFFER_CAPACITY: nat := 200
  const BROADCAST_CHANNEL_CAPACITY: nat := 256
  const U64_MODULUS: nat := 0x1_0000_0000_0000_0000

  type U64 = n: nat | n < U64_MODULUS

  datatype Event = Event(operation: Operation, seqNo: nat)

  datatype Subscription = Subscription(
    backlog: seq<Event>, lastBacklogSeq: Option<nat>, receiver: nat, resync: bool)

  /** What one `recv` on the live channel yields, with the receiver's next position. */
  datatype Received =
    | Delivered(event: Event, next: nat)
    | Lagged(skipped: nat, next: nat)
    | Empty

  /** The events of the history with lo <= seqNo < hi; the first event ever has seqNo 1. */
  function Slice(log: seq<Operation>, lo: nat, hi: nat): (events: seq<Event>)
    requires 1 <= lo <= hi <= |log| + 1
    ensures |events| == hi - lo
    ensures forall i :: 0 <= i < hi - lo ==> events[i] == Event(log[lo - 1 + i], lo + i)
  {
    seq(hi - lo, i requires 0 <= i < hi - lo => Event(log[lo - 1 + i], lo + i))
  }

  /** The smallest seqNo among the last `capacity` events. */
  function OldestKept(log: seq<Operation>, capacity: nat): nat {
    if |log| <= capacity then 1 else |log| - capacity + 1
  }

  predicate Evicted(log: seq<Operation>, seqNo: nat) {
    1 <= seqNo < OldestKept(log, RING_BUFFER_CAPACITY)
  }

  function WrappingSucc(n: U64): U64 { (n + 1) % U64_MODULUS }

  /** A client at `clientSeq` must start over: what it needs next has left the ring. */
  predicate NeedsResync(log: seq<Operation>, clientSeq: U64) {
    |log| > 0 && WrappingSucc(clientSeq) < OldestKept(log, RING_BUFFER_CAPACITY)
  }

  /** The reply to a subscriber, as a function of the whole history rather than of the ring. */
  function SubscribeToLog(log: seq<Operation>, lastEventId: Option<U64>): Subscription {
    if lastEventId.None? then
      Subscription([], None, |log| + 1, false)
    else if NeedsResync(log, lastEventId.value) then
      Subscription([], None, |log| + 1, true)
    else if lastEventId.value >= |log| then
      Subscription([], None, |log| + 1, false)
    else
      var from := lastEventId.value + 1;
      Subscription(Slice(log, from, |log| + 1), Some(|log|), |log| + 1, false)
  }

  /** A receiver whose next event is `next` sees it unless it fell a full channel behind. */
  function RecvFromLog(log: seq<Operation>, next: nat): Received
    requires 1 <= next <= |log| + 1
  {
    var oldest := OldestKept(log, BROADCAST_CHANNEL_CAPACITY);
    if next == |log| + 1 then Empty
    else if next < oldest then Lagged(oldest - next, oldest)
    else Delivered(Event(log[next - 1], next), next + 1)
  }

  /** Dropping the front of a full window and pushing the new event keeps "the last `capacity` events". */
  lemma SlideWindow(log: seq<Operation>, operation: Operation, capacity: nat)
    requires capacity > 0
    ensures
      var window := Slice(log, OldestKept(log, capacity), |log| + 1);
      var kept := if |window| >= capacity then window[1..] else window;
      var log' := log + [operation];
      kept + [Event(operation, |log| + 1)] == Slice(log', OldestKept(log', capacity), |log'| + 1)
  {
  }

  class OperationsBroadcaster {
    var nextSeq: nat
    var buffer: seq<Event>
    var retained: seq<Event>  // the slots of the broadcast channel
    ghost var log: seq<Operation>

    ghost predicate Valid()
      reads this
    {
      && nextSeq == |log| + 1
      && buffer == Slice(log, OldestKept(log, RING_BUFFER_CAPACITY), |log| + 1)
      && retained == Slice(log, OldestKept(log, BROADCAST_CHANNEL_CAPACITY), |log| + 1)
    }

    constructor ()
      ensures Valid() && log == [] && nextSeq == 1
    {
      nextSeq := 1;
      buffer, retained := [], [];
      log := [];
    }

    /** Number the transition, keep it for replay, send it live: one critical section. */
    method Publish(operation: Operation) returns (seqNo: nat)
      requires Valid()
      modifies this
      ensures Valid()
      ensures log == old(log) + [operation]
      ensures seqNo == old(nextSeq) == |log|
    {
      seqNo := nextSeq;
      nextSeq := nextSeq + 1;
      var event := Event(operation, seqNo);
      if |buffer| >= RING_BUFFER_CAPACITY {
        buffer := buffer[1..];
      }
      buffer := buffer + [event];
      retained := (if |retained| >= BROADCAST_CHANNEL_CAPACITY then retained[1..] else retained) + [event];
      SlideWindow(log, operation, RING_BUFFER_CAPACITY);
      SlideWindow(log, operation, BROADCAST_CHANNEL_CAPACITY);
      log := log + [operation];
    }

    /** Attach a receiver and answer `Last-Event-ID` from the ring. */
    method Subscribe(lastEventId: Option<U64>) returns (subscription: Subscription)
      requires Valid()
      ensures subscription == SubscribeToLog(log, lastEventId)
      ensures subscription.receiver == |log| + 1
      ensures lastEventId == None ==> subscription.backlog == [] && !subscription.resync
      ensures subscription.resync ==> subscription.backlog == []
      ensures subscription.lastBacklogSeq == if subscription.backlog == [] then None else Some(|log|)
      ensures forall i :: 0 <= i < |subscription.backlog| ==>
        && lastEventId.Some? && subscription.backlog[i].seqNo == lastEventId.value + 1 + i
        && 1 <= subscription.backlog[i].seqNo <= |log|
        && subscription.backlog[i].operation == log[subscription.backlog[i].seqNo - 1]
    {
      var receiver := nextSeq;
      var backlog: seq<Event>, resync := [], false;
      if lastEventId.Some? && |buffer| > 0 {
        var clientSeq := lastEventId.value;
        if WrappingSucc(clientSeq) < buffer[0].seqNo {
          resync := true;
        } else {
          for i := 0 to |buffer|
            invariant clientSeq >= buffer[0].seqNo + i - 1 ==> backlog == []
            invariant clientSeq < buffer[0].seqNo + i - 1 ==>
              clientSeq + 1 >= buffer[0].seqNo && backlog == Slice(log, clientSeq + 1, buffer[0].seqNo + i)
          {
            if buffer[i].seqNo > clientSeq {
              backlog := backlog + [buffer[i]];
            }
          }
        }
      }
      var lastBacklogSeq := if |backlog| > 0 then Some(backlog[|backlog| - 1].seqNo) else None;
      subscription := Subscription(backlog, lastBacklogSeq, receiver, resync);
    }

    /** One `recv` by a receiver standing at `next`. */
    method Recv(next: nat) returns (received: Received)
      requires Valid() && 1 <= next <= nextSeq
      ensures received == RecvFromLog(log, next)
      ensures received == Empty <==> next == |log| + 1
      ensures received.Lagged? <==> next + 256 <= |log|
      ensures received.Lagged? ==> received.next == |log| - 255 && received.skipped == received.next - next
      ensures received.Delivered? ==> received == Delivered(Event(log[next - 1], next), next + 1)
    {
      if next == nextSeq {
        return Empty;
      }
      var oldest := retained[0].seqNo;
      if next < oldest {
        return Lagged(oldest - next, oldest);
      }
      return Delivered(retained[next - oldest], next + 1);
    }
  }

  /** The reply field by field: what is replayed, where the live tail starts, and that a fresh client gets no replay. */
  lemma SubscriptionIsExact(log: seq<Operation>, lastEventId: Option<U64>)
    ensures var s := SubscribeToLog(log, lastEventId);
      && s.receiver == |log| + 1
      && (lastEventId == None ==> s.backlog == [] && !s.resync)
      && (s.resync ==> s.backlog == [])
      && s.lastBacklogSeq == (if s.backlog == [] then None else Some(s.backlog[|s.backlog| - 1].seqNo))
      && (s.backlog != [] ==> s.backlog[|s.backlog| - 1].seqNo == |log|)
      && (forall i :: 0 <= i < |s.backlog| ==>
            && lastEventId.Some? && s.backlog[i].seqNo == lastEventId.value + 1 + i
            && s.backlog[i].seqNo <= |log| && s.backlog[i].operation == log[s.backlog[i].seqNo - 1])
  {
  }

  /**
   For a client that is behind the counter, `subscribe` signals resync exactly when some event
   the client has not seen was evicted; otherwise replay completes the client's prefix to the
   whole history.
   */
  lemma SubscribeIsComplete(log: seq<Operation>, clientSeq: U64)
    requires clientSeq <= |log| < U64_MODULUS - 1
    ensures
      var s := SubscribeToLog(log, Some(clientSeq));
      && (s.resync <==> exists e :: clientSeq < e && Evicted(log, e))
      && (!s.resync ==> Slice(log, 1, clientSeq + 1) + s.backlog == Slice(log, 1, |log| + 1))
  {
    assert WrappingSucc(clientSeq) == clientSeq + 1;
    if NeedsResync(log, clientSeq) {
      assert Evicted(log, clientSeq + 1);
    }
  }

  /** A client ahead of the counter (it outlived the previous broadcaster) is never told to resync
      unless its id is the largest representable one, where the increment wraps to zero. */
  lemma SubscribeAheadOfCounter(log: seq<Operation>, clientSeq: U64)
    requires clientSeq > |log|
    ensures
      var s := SubscribeToLog(log, Some(clientSeq));
      && s.backlog == []
      && (s.resync <==> |log| > 0 && clientSeq == U64_MODULUS - 1)
  {
    if clientSeq < U64_MODULUS - 1 {
      assert WrappingSucc(clientSeq) == clientSeq + 1;
    }
  }
}
