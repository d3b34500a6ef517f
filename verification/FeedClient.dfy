/** The client hook's mutable refs: resume cursor, backoff ladder and polling fallback, over one mount of the hook. */
module FeedClient {
  import opened Wrappers
  import opened OperationsFeed

  const BACKOFF_LADDER_MS: seq<nat> := [1_000, 2_000, 5_000, 10_000, 30_000]
  const POLLING_ACTIVATION_THRESHOLD: nat := |BACKOFF_LADDER_MS|

  datatype FeedStatus = Connecting | Streaming | Polling | Reconnecting

  function BackoffDelayMs(failureIndex: nat): nat {
    BACKOFF_LADDER_MS[if failureIndex < |BACKOFF_LADDER_MS| then failureIndex else |BACKOFF_LADDER_MS| - 1]
  }

  /** How long the retries alone have taken when the `failures`-th consecutive error arrives. */
  function OutageMs(failures: nat): nat {
    if failures <= 1 then 0 else OutageMs(failures - 1) + BackoffDelayMs(failures - 2)
  }

  /** How the refetch after a resync ends: an abort rejects it, unless its response had already arrived. */
  datatype Refetch = Arrived | Aborted | Broken

  /** The refs at one moment; `retryInMs` is the delay a pending reconnect timer was set with. */
  datatype Client = Client(
    mounted: bool, sourceOpen: bool, retryInMs: Option<nat>, lastEventSeq: Option<nat>, failureCount: nat,
    polling: bool, status: FeedStatus, resyncFetch: Option<nat>, refetches: nat)

  const START := Client(true, true, None, None, 0, false, Connecting, None, 0)

  // ---------- what each callback makes of the refs ----------

  function Retried(c: Client): Client {
    c.(retryInMs := None, sourceOpen := c.mounted || c.sourceOpen)
  }

  /** A snapshot or a transition proves that the stream is up; a resync does not touch the backoff. */
  function FrameTaken(c: Client, frame: Frame): Client {
    if !c.mounted then c
    else if frame.Resync? then c.(lastEventSeq := None, resyncFetch := Some(c.refetches), refetches := c.refetches + 1)
    else
      c.(lastEventSeq := CursorAfter(c.lastEventSeq, frame), failureCount := 0, polling := false, status := Streaming)
  }

  function RefetchEnded(c: Client, n: nat, outcome: Refetch): Client {
    c.(status := if c.mounted && outcome.Arrived? then Streaming else c.status,
       resyncFetch := if c.resyncFetch == Some(n) then None else c.resyncFetch)
  }

  function Errored(c: Client): Client {
    if !c.mounted then c
    else
      var polls := c.polling || c.failureCount >= POLLING_ACTIVATION_THRESHOLD;
      c.(sourceOpen := false, retryInMs := Some(BackoffDelayMs(c.failureCount)), failureCount := c.failureCount + 1,
         polling := polls, status := if c.polling then c.status else if polls then Polling else Reconnecting)
  }

  function Unmounted(c: Client): Client {
    c.(mounted := false, sourceOpen := false, retryInMs := None, polling := false, resyncFetch := None)
  }

  /** A closed stream delivers neither frames nor errors. */
  predicate CanDeliver(c: Client) {
    c.mounted ==> c.sourceOpen
  }

  /**
   While mounted, either a stream is open or a reconnect timer is pending, and polling runs exactly
   while the whole ladder has been climbed without a frame. After the unmount nothing is left running.
   */
  predicate IsCoherent(c: Client) {
    && (if c.mounted then
          && (c.polling <==> c.failureCount > POLLING_ACTIVATION_THRESHOLD)
          && (c.sourceOpen <==> c.retryInMs.None?)
        else !c.polling && !c.sourceOpen && c.retryInMs.None?)
    && (c.resyncFetch.Some? ==> c.mounted && c.resyncFetch.value < c.refetches)
  }

  // ---------- the callbacks ----------

  class FeedClientRefs {
    var mounted: bool
    var sourceOpen: bool
    var retryInMs: Option<nat>
    var lastEventSeq: Option<nat>
    var failureCount: nat
    var polling: bool
    var status: FeedStatus
    /** The refetch that the next resync or the unmount aborts; `refetches` numbers them. */
    var resyncFetch: Option<nat>
    var refetches: nat

    function State(): Client
      reads this
    {
      Client(mounted, sourceOpen, retryInMs, lastEventSeq, failureCount, polling, status, resyncFetch, refetches)
    }

    ghost predicate Valid()
      reads this
    {
      IsCoherent(State())
    }

    /** The mount: it connects at once, with nothing to resume from. */
    constructor ()
      ensures Valid() && State() == START
    {
      mounted, sourceOpen, retryInMs, lastEventSeq, failureCount := true, true, None, None, 0;
      polling, status, resyncFetch, refetches := false, Connecting, None, 0;
    }

    /** The reconnect timer: it resumes from the cursor, and does nothing once unmounted. */
    method OnRetryTimer() returns (resumeFrom: Option<nat>)
      requires Valid()
      modifies this`sourceOpen, this`retryInMs
      ensures Valid() && State() == Retried(old(State()))
      ensures sourceOpen == mounted
      ensures resumeFrom == if mounted then lastEventSeq else None
    {
      retryInMs, resumeFrom := None, None;
      if mounted {
        sourceOpen := true;
        resumeFrom := lastEventSeq;
      }
    }

    /** The three named listeners; the cursor moves exactly as in the protocol model, and a resync starts a refetch. */
    method OnFrame(frame: Frame)
      requires Valid() && (mounted ==> sourceOpen)
      modifies this
      ensures Valid() && State() == FrameTaken(old(State()), frame)
      ensures sourceOpen == old(sourceOpen) && mounted == old(mounted)
      ensures lastEventSeq == if mounted then CursorAfter(old(lastEventSeq), frame) else old(lastEventSeq)
      ensures mounted && frame.Snapshot? ==> lastEventSeq == old(lastEventSeq)
      ensures mounted && frame.Transition? ==> lastEventSeq == Some(
        if old(lastEventSeq) == None || old(lastEventSeq).value < frame.event.seqNo then frame.event.seqNo
        else old(lastEventSeq).value)
      ensures mounted && frame.Resync? ==> lastEventSeq == None
      ensures mounted && !frame.Resync? ==> failureCount == 0 && status == Streaming
      ensures !mounted || frame.Resync? ==> failureCount == old(failureCount) && status == old(status)
      ensures mounted && frame.Resync? ==> refetches == old(refetches) + 1 && resyncFetch == Some(old(refetches))
      ensures !mounted || !frame.Resync? ==> refetches == old(refetches) && resyncFetch == old(resyncFetch)
    {
      if !mounted {
        return;
      }
      match frame {
        case Resync =>
          resyncFetch := Some(refetches);
          refetches := refetches + 1;
          lastEventSeq := None;
        case Snapshot(_) =>
          failureCount, polling, status := 0, false, Streaming;
        case Transition(event) =>
          if lastEventSeq.None? || event.seqNo > lastEventSeq.value {
            lastEventSeq := Some(event.seqNo);
          }
          failureCount, polling, status := 0, false, Streaming;
      }
    }

    /** The rest of `handleResync`, when refetch `n` ends: one that arrived makes the status streaming. */
    method OnRefetched(n: nat, outcome: Refetch)
      requires Valid() && n < refetches
      modifies this`status, this`resyncFetch
      ensures Valid() && State() == RefetchEnded(old(State()), n, outcome)
      ensures status == if mounted && outcome.Arrived? then Streaming else old(status)
      ensures resyncFetch == if old(resyncFetch) == Some(n) then None else old(resyncFetch)
    {
      if outcome.Arrived? && mounted {
        status := Streaming;
      }
      if resyncFetch == Some(n) {
        resyncFetch := None;
      }
    }

    /** `onerror`. */
    method OnError()
      requires Valid() && (mounted ==> sourceOpen)
      modifies this
      ensures Valid() && State() == Errored(old(State()))
      ensures mounted == old(mounted) && lastEventSeq == old(lastEventSeq) && !sourceOpen
      ensures retryInMs == if mounted then Some(BackoffDelayMs(old(failureCount))) else None
      ensures failureCount == old(failureCount) + if mounted then 1 else 0
    {
      if mounted {
        HandleError();
      }
    }

    /** `handleError`: close, climb the ladder, and fall back to polling past its last rung. */
    method HandleError()
      requires Valid() && mounted && sourceOpen
      modifies this
      ensures Valid() && State() == Errored(old(State()))
      ensures mounted && !sourceOpen
      ensures lastEventSeq == old(lastEventSeq) && resyncFetch == old(resyncFetch) && refetches == old(refetches)
      ensures failureCount == old(failureCount) + 1
      ensures retryInMs == Some(BackoffDelayMs(old(failureCount)))
      ensures OutageMs(failureCount + 1) == OutageMs(failureCount) + retryInMs.value
      ensures status == if polling then (if old(polling) then old(status) else Polling) else Reconnecting
    {
      sourceOpen := false;
      var failureIndex := failureCount;
      failureCount := failureIndex + 1;
      var delay := BackoffDelayMs(failureIndex);
      if failureIndex >= POLLING_ACTIVATION_THRESHOLD && !polling {
        status := Polling;
        polling := true;
      } else if !polling {
        status := Reconnecting;
      }
      retryInMs := Some(delay);
    }

    /** The clean-up of the hook's one effect. */
    method Unmount()
      requires Valid()
      modifies this
      ensures Valid() && State() == Unmounted(old(State()))
      ensures !mounted && !polling && !sourceOpen && retryInMs == None && resyncFetch == None
      ensures status == old(status) && lastEventSeq == old(lastEventSeq) && failureCount == old(failureCount)
    {
      mounted, retryInMs, polling, resyncFetch, sourceOpen := false, None, false, None, false;
    }
  }

  // ---------- the ladder ----------

  /** Past its last rung the ladder sums to 48 s, and each further error adds 30 s. */
  lemma {:induction false} LadderSum(failures: nat)
    requires failures > POLLING_ACTIVATION_THRESHOLD
    ensures OutageMs(failures) == 48_000 + 30_000 * (failures - POLLING_ACTIVATION_THRESHOLD - 1)
  {
    if failures == POLLING_ACTIVATION_THRESHOLD + 1 {
      LadderRungs();
    } else {
      LadderSum(failures - 1);
    }
  }

  lemma LadderRungs()
    ensures OutageMs(1) == 0 && OutageMs(2) == 1_000 && OutageMs(3) == 3_000
    ensures OutageMs(4) == 8_000 && OutageMs(5) == 18_000 && OutageMs(6) == 48_000
  {
    assert OutageMs(1) == 0;
    assert OutageMs(2) == 1_000;
    assert OutageMs(3) == 3_000;
    assert OutageMs(4) == 8_000;
    assert OutageMs(5) == 18_000;
  }

  /** The retries have taken 48 s exactly when the threshold is passed. */
  lemma ThresholdIs48Seconds(failures: nat)
    ensures OutageMs(failures) >= 48_000 <==> failures > POLLING_ACTIVATION_THRESHOLD
  {
    LadderRungs();
    if failures > POLLING_ACTIVATION_THRESHOLD {
      LadderSum(failures);
    }
  }

  // ---------- streaming with no stream ----------

  /** An error does not stop the refetch of the resync before it. */
  method StreamingWithoutASource() returns (refs: FeedClientRefs)
    ensures refs.Valid() && refs.mounted && refs.status == Streaming && !refs.sourceOpen && !refs.polling
  {
    refs := new FeedClientRefs();
    refs.OnFrame(Resync);
    refs.OnError();
    refs.OnRefetched(0, Arrived);
  }

  /** And while polling, an error leaves the status that a refetch set as it was. */
  method StreamingWhilePolling() returns (refs: FeedClientRefs)
    ensures refs.Valid() && refs.mounted && refs.status == Streaming && !refs.sourceOpen && refs.polling
  {
    refs := new FeedClientRefs();
    for i := 0 to POLLING_ACTIVATION_THRESHOLD + 1
      invariant refs.Valid() && refs.mounted && refs.sourceOpen
      invariant refs.failureCount == i && refs.refetches == 0
    {
      refs.OnError();
      var resumeFrom := refs.OnRetryTimer();
    }
    refs.OnFrame(Resync);
    refs.OnRefetched(0, Arrived);
    refs.OnError();
  }
}
