/** Whole lives of the client hook: what its status says of the stream, and how long an outage lasts before it polls. */
module FeedHistory {
  import opened Wrappers
  import opened OperationsFeed
  import opened FeedClient

  datatype Happening =
    | GotFrame(frame: Frame)
    | GotError
    | TimerFired
    | RefetchOver(n: nat, outcome: Refetch)
    | LeftPage

  /** One callback, at a time in milliseconds. */
  datatype Timed = Timed(at: nat, what: Happening)

  function Step(c: Client, what: Happening): Client {
    match what
    case GotFrame(frame) => FrameTaken(c, frame)
    case GotError => Errored(c)
    case TimerFired => Retried(c)
    case RefetchOver(n, outcome) => RefetchEnded(c, n, outcome)
    case LeftPage => Unmounted(c)
  }

  function After(history: seq<Timed>): Client {
    if history == [] then START
    else Step(After(history[..|history| - 1]), history[|history| - 1].what)
  }

  predicate IsOver(history: seq<Timed>, n: nat) {
    exists t :: 0 <= t < |history| && history[t].what.RefetchOver? && history[t].what.n == n
  }

  function Now(history: seq<Timed>): nat {
    if history == [] then 0 else history[|history| - 1].at
  }

  function LastErrorAt(history: seq<Timed>): nat {
    if history == [] then 0
    else
      var last := history[|history| - 1];
      if last.what.GotError? then last.at else LastErrorAt(history[..|history| - 1])
  }

  /** What may happen next: an open stream delivers, a timer waits its delay, a refetch ends once. */
  predicate CanHappen(history: seq<Timed>, next: Timed) {
    && var c := After(history);
    && Now(history) <= next.at
    && match next.what
       case GotFrame(_) => CanDeliver(c)
       case GotError => CanDeliver(c)
       case TimerFired => c.retryInMs.Some? && LastErrorAt(history) + c.retryInMs.value <= next.at
       case RefetchOver(n, _) => n < c.refetches && !IsOver(history, n)
       case LeftPage => c.mounted
  }

  predicate IsHistory(history: seq<Timed>) {
    history != [] ==>
      && IsHistory(history[..|history| - 1])
      && CanHappen(history[..|history| - 1], history[|history| - 1])
  }

  // ---------- what the events alone say ----------

  /** A snapshot or a transition. */
  predicate IsSignOfLife(what: Happening) {
    what.GotFrame? && !what.frame.Resync?
  }

  predicate IsArrival(what: Happening) {
    what.RefetchOver? && what.outcome.Arrived?
  }

  /** Errors since the last sign of life. */
  function Failures(history: seq<Timed>): nat {
    if history == [] then 0
    else
      var before, last := history[..|history| - 1], history[|history| - 1].what;
      if IsSignOfLife(last) then 0 else Failures(before) + if last.GotError? then 1 else 0
  }

  /** When the first of those errors came. */
  function FailingSince(history: seq<Timed>): nat {
    if history == [] then 0
    else
      var before, last := history[..|history| - 1], history[|history| - 1];
      if last.what.GotError? && Failures(before) == 0 then last.at else FailingSince(before)
  }

  /** An error that no reconnect followed. */
  predicate EndsClosed(history: seq<Timed>) {
    history != [] &&
    var last := history[|history| - 1].what;
    last.GotError? || (!last.TimerFired? && EndsClosed(history[..|history| - 1]))
  }

  predicate SawLife(history: seq<Timed>) {
    exists t :: 0 <= t < |history| && IsSignOfLife(history[t].what)
  }

  /** Nothing since `t` set the status anew: no sign of life, and no error but past the whole ladder. */
  predicate StandsSince(history: seq<Timed>, t: nat) {
    && t < |history| && IsArrival(history[t].what)
    && forall u :: t < u < |history| ==>
         && !IsSignOfLife(history[u].what)
         && (history[u].what.GotError? ==> Failures(history[..u]) > POLLING_ACTIVATION_THRESHOLD)
  }

  ghost predicate ArrivalStands(history: seq<Timed>) {
    exists t :: StandsSince(history, t)
  }

  /** The status the events call for. */
  ghost function StatusOf(history: seq<Timed>): FeedStatus {
    if ArrivalStands(history) || (Failures(history) == 0 && SawLife(history)) then Streaming
    else if Failures(history) > POLLING_ACTIVATION_THRESHOLD then Polling
    else if Failures(history) > 0 then Reconnecting
    else Connecting
  }

  // ---------- one event more ----------

  lemma OneMore(before: seq<Timed>, last: Timed)
    ensures var history := before + [last];
      && history[..|history| - 1] == before && history[|history| - 1] == last
  {
  }

  lemma StandingGoesOn(before: seq<Timed>, last: Timed)
    ensures ArrivalStands(before + [last])
        <==> IsArrival(last.what)
             || (ArrivalStands(before) && !IsSignOfLife(last.what)
                 && (last.what.GotError? ==> Failures(before) > POLLING_ACTIVATION_THRESHOLD))
  {
    var history, n := before + [last], |before|;
    assert history[..n] == before;
    assert forall u :: 0 <= u < n ==> history[u] == before[u] && history[..u] == before[..u];
    if IsArrival(last.what) {
      assert StandsSince(history, n);
    } else if ArrivalStands(history) {
      var t :| StandsSince(history, t);
      assert t != n && StandsSince(before, t);
    }
    if ArrivalStands(before) && !IsSignOfLife(last.what)
       && (last.what.GotError? ==> Failures(before) > POLLING_ACTIVATION_THRESHOLD) {
      var t :| StandsSince(before, t);
      assert StandsSince(history, t);
    }
  }

  lemma LifeGoesOn(before: seq<Timed>, last: Timed)
    ensures SawLife(before + [last]) <==> SawLife(before) || IsSignOfLife(last.what)
  {
    var history, n := before + [last], |before|;
    assert history[n] == last && forall u :: 0 <= u < n ==> history[u] == before[u];
  }

  /** The refs agree with the events. */
  ghost predicate Agrees(history: seq<Timed>, c: Client) {
    && IsCoherent(c)
    && (c.mounted ==>
          && c.failureCount == Failures(history) && (c.sourceOpen <==> !EndsClosed(history))
          && (EndsClosed(history) ==> Failures(history) > 0)
          && c.status == StatusOf(history))
  }

  lemma EventKeepsAgreement(before: seq<Timed>, last: Timed)
    requires Agrees(before, After(before)) && CanHappen(before, last)
    ensures Agrees(before + [last], After(before + [last]))
  {
    OneMore(before, last);
    StandingGoesOn(before, last);
    LifeGoesOn(before, last);
  }

  lemma {:induction false} HistoryAgrees(history: seq<Timed>)
    requires IsHistory(history)
    ensures Agrees(history, After(history))
    decreases |history|
  {
    if history != [] {
      var before, last := history[..|history| - 1], history[|history| - 1];
      HistoryAgrees(before);
      EventKeepsAgreement(before, last);
      assert before + [last] == history;
    }
  }

  // ---------- what the status says ----------

  /** In every history the status, the failure count and the stream are those the events call for. */
  lemma StatusIsExact(history: seq<Timed>)
    requires IsHistory(history) && After(history).mounted
    ensures var c := After(history);
      && c.status == StatusOf(history) && c.failureCount == Failures(history)
      && (c.sourceOpen <==> !EndsClosed(history)) && (c.sourceOpen <==> c.retryInMs.None?)
  {
    HistoryAgrees(history);
  }

  /** A mounted hook that says it is streaming has a stream. */
  predicate TellsTheTruth(c: Client) {
    c.mounted && c.status.Streaming? ==> c.sourceOpen
  }

  /** Which callback makes the status untrue, from any state in which it is true. */
  lemma BreaksTheTruthExactlyWhen(c: Client, what: Happening)
    requires IsCoherent(c) && TellsTheTruth(c) && (what.GotFrame? || what.GotError? ==> CanDeliver(c))
    ensures !TellsTheTruth(Step(c, what)) <==>
      match what
      case RefetchOver(_, outcome) => c.mounted && outcome.Arrived? && !c.sourceOpen
      case GotError => c.mounted && c.polling && c.status.Streaming?
      case _ => false
  {
  }

  /**
   Over whole histories: the status is streaming with no stream open exactly when the stream is closed
   and the arrival of a refetch still stands, that is, no snapshot or transition came after it, and
   every error after it came when more than five had come before it since the last sign of life.
   */
  lemma StreamingWithoutAStreamExactlyWhen(history: seq<Timed>)
    requires IsHistory(history) && After(history).mounted
    ensures !TellsTheTruth(After(history)) <==> EndsClosed(history) && ArrivalStands(history)
  {
    HistoryAgrees(history);
  }

  // ---------- how long an outage lasts before polling ----------

  lemma {:induction false} OutageLastsItsRetries(history: seq<Timed>)
    requires IsHistory(history) && After(history).mounted
    ensures LastErrorAt(history) <= Now(history)
    ensures Failures(history) > 0 ==>
      && FailingSince(history) + OutageMs(Failures(history)) <= LastErrorAt(history)
      && (After(history).retryInMs.Some? ==>
            After(history).retryInMs == Some(BackoffDelayMs(Failures(history) - 1)))
      && (After(history).sourceOpen ==>
            FailingSince(history) + OutageMs(Failures(history) + 1) <= Now(history))
    decreases |history|
  {
    if history != [] {
      var before := history[..|history| - 1];
      HistoryAgrees(history);
      HistoryAgrees(before);
      OutageLastsItsRetries(before);
    }
  }

  /**
   Polling runs exactly when the retries since the last sign of life add up to 48 s, and by then at
   least as much time has passed since the first of those errors.
   */
  lemma PollingNeedsLongOutage(history: seq<Timed>)
    requires IsHistory(history) && After(history).mounted
    ensures After(history).polling <==> OutageMs(Failures(history)) >= 48_000
    ensures Failures(history) > 0 ==> FailingSince(history) + OutageMs(Failures(history)) <= Now(history)
    ensures After(history).polling ==> FailingSince(history) + 48_000 <= Now(history)
  {
    HistoryAgrees(history);
    OutageLastsItsRetries(history);
    ThresholdIs48Seconds(Failures(history));
  }
}
