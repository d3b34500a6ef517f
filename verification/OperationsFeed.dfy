/**
 One SSE client against the broadcaster: publishes, subscriptions, the per-connection bridge
 task, the wire, receiver lag, disconnects and resumed reconnects, in any interleaving within
 one broadcaster lifetime.
 */
module OperationsFeed {
  import opened Wrappers
  import opened OperationsTypes
  import opened Broadcaster

  datatype Frame = Snapshot(operation: Operation) | Transition(event: Event) | Resync

  datatype Connection =
    | Closed
    | Requested(lastEventId: Option<nat>)
    | Subscribed(subscription: Subscription)
    | Open(pending: seq<Frame>, lastBacklogSeq: Option<nat>, next: nat, done: bool, wire: seq<Frame>)

  /** What the client has processed, in order. */
  datatype Mark = Seen(event: Event) | Resynced

  datatype Feed = Feed(
    log: seq<Operation>, connection: Connection, cursor: Option<nat>, history: seq<Mark>)

  // ---------- the client's cursor ----------

  function Advance(cursor: Option<nat>, seqNo: nat): Option<nat> {
    if cursor.None? || seqNo > cursor.value then Some(seqNo) else cursor
  }

  function CursorAfter(cursor: Option<nat>, frame: Frame): Option<nat> {
    match frame
    case Snapshot(_) => cursor
    case Transition(event) => Advance(cursor, event.seqNo)
    case Resync => None
  }

  function HistoryAfter(history: seq<Mark>, frame: Frame): seq<Mark> {
    match frame
    case Snapshot(_) => history
    case Transition(event) => history + [Seen(event)]
    case Resync => history + [Resynced]
  }

  // ---------- steps ----------

  function Frames(events: seq<Event>): (frames: seq<Frame>)
    ensures |frames| == |events|
    ensures forall i :: 0 <= i < |events| ==> frames[i] == Transition(events[i])
  {
    seq(|events|, i requires 0 <= i < |events| => Transition(events[i]))
  }

  function Snapshots(rows: seq<Operation>): (frames: seq<Frame>)
    ensures |frames| == |rows|
    ensures forall i :: 0 <= i < |rows| ==> frames[i] == Snapshot(rows[i])
  {
    seq(|rows|, i requires 0 <= i < |rows| => Snapshot(rows[i]))
  }

  ghost predicate Init(s: Feed) {
    s == Feed([], Closed, None, [])
  }

  ghost predicate Publish(s: Feed, s': Feed, operation: Operation) {
    |s.log| < U64_MODULUS - 2 && s' == s.(log := s.log + [operation])
  }

  /** `connect`: the resume id is frozen into the URL of the new EventSource. */
  ghost predicate Connect(s: Feed, s': Feed) {
    s.connection.Closed? && s' == s.(connection := Requested(s.cursor))
  }

  /** The handler subscribes first ... */
  ghost predicate Subscribe(s: Feed, s': Feed) {
    && s.connection.Requested?
    && (s.connection.lastEventId.Some? ==> s.connection.lastEventId.value < U64_MODULUS)
    && s' == s.(connection := Subscribed(SubscribeToLog(s.log, s.connection.lastEventId)))
  }

  /** ... then reads the database, and queues resync, snapshot rows and backlog in that order. */
  ghost predicate ReadSnapshot(s: Feed, s': Feed, rows: seq<Operation>) {
    && s.connection.Subscribed?
    && var sub := s.connection.subscription;
       var pending := (if sub.resync then [Resync] else []) + Snapshots(rows) + Frames(sub.backlog);
       s' == s.(connection := Open(pending, sub.lastBacklogSeq, sub.receiver, false, []))
  }

  ghost predicate BridgeSend(s: Feed, s': Feed) {
    && s.connection.Open?
    && var c := s.connection;
    && |c.pending| > 0
    && s' == s.(connection := c.(pending := c.pending[1..], wire := c.wire + [c.pending[0]]))
  }

  predicate IsDuplicate(lastBacklogSeq: Option<nat>, event: Event) {
    lastBacklogSeq.Some? && event.seqNo <= lastBacklogSeq.value
  }

  ghost predicate BridgeRecv(s: Feed, s': Feed) {
    && s.connection.Open?
    && var c := s.connection;
    && |c.pending| == 0 && !c.done && 1 <= c.next <= |s.log| + 1
    && match RecvFromLog(s.log, c.next)
       case Empty => false
       case Lagged(_, _) => s' == s.(connection := c.(done := true, wire := c.wire + [Resync]))
       case Delivered(event, next) =>
         s' == s.(connection :=
           if IsDuplicate(c.lastBacklogSeq, event) then c.(next := next)
           else c.(next := next, wire := c.wire + [Transition(event)]))
  }

  ghost predicate Deliver(s: Feed, s': Feed) {
    && s.connection.Open?
    && var c := s.connection;
    && |c.wire| > 0
    && s' == Feed(s.log, c.(wire := c.wire[1..]),
                  CursorAfter(s.cursor, c.wire[0]), HistoryAfter(s.history, c.wire[0]))
  }

  /** Network failure, end of stream or unmount: everything still in flight is lost. */
  ghost predicate Disconnect(s: Feed, s': Feed) {
    !s.connection.Closed? && s' == s.(connection := Closed)
  }

  ghost predicate Next(s: Feed, s': Feed) {
    || (exists operation :: Publish(s, s', operation))
    || Connect(s, s')
    || Subscribe(s, s')
    || (exists rows :: ReadSnapshot(s, s', rows))
    || BridgeSend(s, s')
    || BridgeRecv(s, s')
    || Deliver(s, s')
    || Disconnect(s, s')
  }

  /** A run from the start: each state follows from the one before it. */
  ghost predicate Run(trace: seq<Feed>) {
    && |trace| > 0
    && if |trace| == 1 then Init(trace[0])
       else Run(trace[..|trace| - 1]) && Next(trace[|trace| - 2], trace[|trace| - 1])
  }

  ghost function Last(trace: seq<Feed>): Feed
    requires |trace| > 0
  {
    trace[|trace| - 1]
  }

  // ---------- the invariant ----------

  function After(frames: seq<Frame>, cursor: Option<nat>): Option<nat> {
    if frames == [] then cursor else After(frames[1..], CursorAfter(cursor, frames[0]))
  }

  /** Processing `frames` from `cursor` never skips and never repeats a transition. */
  predicate Chained(frames: seq<Frame>, cursor: Option<nat>) {
    frames != [] ==>
      && (frames[0].Transition? && cursor.Some? ==> frames[0].event.seqNo == cursor.value + 1)
      && Chained(frames[1..], CursorAfter(cursor, frames[0]))
  }

  ghost predicate Faithful(log: seq<Operation>, event: Event) {
    1 <= event.seqNo <= |log| && event == Event(log[event.seqNo - 1], event.seqNo)
  }

  ghost predicate FaithfulFrames(log: seq<Operation>, frames: seq<Frame>) {
    forall f :: f in frames && f.Transition? ==> Faithful(log, f.event)
  }

  /** A cursor left by every frame in flight is the one the next live event continues. */
  predicate Meets(cursor: Option<nat>, next: nat) {
    cursor.Some? ==> cursor.value + 1 == next
  }

  ghost predicate ConnectionInv(s: Feed) {
    match s.connection
    case Closed => true
    case Requested(id) => id == s.cursor
    case Subscribed(sub) =>
      && 1 <= sub.receiver <= |s.log| + 1
      && (sub.lastBacklogSeq.Some? ==> sub.lastBacklogSeq.value < sub.receiver)
      && FaithfulFrames(s.log, Frames(sub.backlog))
      && var cursor := if sub.resync then None else s.cursor;
      && Chained(Frames(sub.backlog), cursor)
      && Meets(After(Frames(sub.backlog), cursor), sub.receiver)
    case Open(pending, lastBacklogSeq, next, done, wire) =>
      && 1 <= next <= |s.log| + 1
      && (lastBacklogSeq.Some? ==> lastBacklogSeq.value < next)
      && FaithfulFrames(s.log, wire + pending)
      && Chained(wire + pending, s.cursor)
      && (!done ==> Meets(After(wire + pending, s.cursor), next))
  }

  ghost predicate GapFree(history: seq<Mark>) {
    forall i :: 0 < i < |history| && history[i - 1].Seen? && history[i].Seen? ==>
      history[i].event.seqNo == history[i - 1].event.seqNo + 1
  }

  ghost predicate CursorIsLastSeen(s: Feed) {
    s.cursor == if |s.history| > 0 && s.history[|s.history| - 1].Seen?
                then Some(s.history[|s.history| - 1].event.seqNo) else None
  }

  ghost predicate Inv(s: Feed) {
    && |s.log| < U64_MODULUS - 1
    && (s.cursor.Some? ==> s.cursor.value <= |s.log|)
    && CursorIsLastSeen(s)
    && GapFree(s.history)
    && (forall m :: m in s.history && m.Seen? ==> Faithful(s.log, m.event))
    && ConnectionInv(s)
  }

  lemma {:induction false} ChainedAppend(a: seq<Frame>, b: seq<Frame>, cursor: Option<nat>)
    ensures After(a + b, cursor) == After(b, After(a, cursor))
    ensures Chained(a + b, cursor) <==> Chained(a, cursor) && Chained(b, After(a, cursor))
  {
    if a == [] {
      assert a + b == b;
    } else {
      assert (a + b)[1..] == a[1..] + b;
      ChainedAppend(a[1..], b, CursorAfter(cursor, a[0]));
    }
  }

  lemma {:induction false} ChainedSnapshots(rows: seq<Operation>, cursor: Option<nat>)
    ensures Chained(Snapshots(rows), cursor) && After(Snapshots(rows), cursor) == cursor
  {
    if rows != [] {
      assert Snapshots(rows)[1..] == Snapshots(rows[1..]);
      ChainedSnapshots(rows[1..], cursor);
    }
  }

  /** A replayed slice continues the cursor just before it and leaves the cursor at its end. */
  lemma {:induction false} ChainedSlice(log: seq<Operation>, lo: nat, hi: nat)
    requires 1 <= lo <= hi <= |log| + 1
    ensures Chained(Frames(Slice(log, lo, hi)), Some(lo - 1))
    ensures After(Frames(Slice(log, lo, hi)), Some(lo - 1)) == Some(hi - 1)
    decreases hi - lo
  {
    if lo < hi {
      assert Frames(Slice(log, lo, hi))[1..] == Frames(Slice(log, lo + 1, hi));
      ChainedSlice(log, lo + 1, hi);
    }
  }

  lemma SubscribeKeepsInv(s: Feed, s': Feed)
    requires Inv(s) && Subscribe(s, s')
    ensures Inv(s')
  {
    var sub := s'.connection.subscription;
    if sub.backlog != [] {
      ChainedSlice(s.log, s.cursor.value + 1, |s.log| + 1);
    } else {
      assert Frames(sub.backlog) == [];
    }
  }

  lemma ReadSnapshotKeepsInv(s: Feed, s': Feed, rows: seq<Operation>)
    requires Inv(s) && ReadSnapshot(s, s', rows)
    ensures Inv(s')
  {
    var sub := s.connection.subscription;
    var head := if sub.resync then [Resync] else [];
    var cursor := if sub.resync then None else s.cursor;
    if sub.resync {
      assert head[1..] == [];
      assert After(head, s.cursor) == After([], None) == None;
    }
    ChainedSnapshots(rows, cursor);
    ChainedAppend(head, Snapshots(rows), s.cursor);
    ChainedAppend(head + Snapshots(rows), Frames(sub.backlog), s.cursor);
    assert [] + s'.connection.pending == head + Snapshots(rows) + Frames(sub.backlog);
  }

  lemma BridgeKeepsInv(s: Feed, s': Feed)
    requires Inv(s) && (BridgeSend(s, s') || BridgeRecv(s, s'))
    ensures Inv(s')
  {
    var c, c' := s.connection, s'.connection;
    if BridgeSend(s, s') {
      assert c'.wire + c'.pending == c.wire + c.pending;
    } else {
      BridgeRecvKeepsInv(s, s');
    }
  }

  lemma BridgeRecvKeepsInv(s: Feed, s': Feed)
    requires Inv(s) && BridgeRecv(s, s')
    ensures Inv(s')
  {
    var c, c' := s.connection, s'.connection;
    assert c.wire + c.pending == c.wire && c'.wire + c'.pending == c'.wire;
    if c'.wire != c.wire {
      ChainedAppend(c.wire, [c'.wire[|c.wire|]], s.cursor);
    }
  }

  lemma DeliverKeepsInv(s: Feed, s': Feed)
    requires Inv(s) && Deliver(s, s')
    ensures Inv(s')
  {
    var c, c' := s.connection, s'.connection;
    assert (c.wire + c.pending)[1..] == c'.wire + c'.pending;
    assert c.wire[0] in c.wire + c.pending;
    forall f | f in c'.wire + c'.pending ensures f in c.wire + c.pending {
    }
  }

  lemma PublishKeepsInv(s: Feed, s': Feed, operation: Operation)
    requires Inv(s) && Publish(s, s', operation)
    ensures Inv(s')
  {
  }

  lemma ConnectKeepsInv(s: Feed, s': Feed)
    requires Inv(s) && (Connect(s, s') || Disconnect(s, s'))
    ensures Inv(s')
  {
  }

  lemma NextKeepsInv(s: Feed, s': Feed)
    requires Inv(s) && Next(s, s')
    ensures Inv(s')
  {
    if operation :| Publish(s, s', operation) {
      PublishKeepsInv(s, s', operation);
    } else if Connect(s, s') || Disconnect(s, s') {
      ConnectKeepsInv(s, s');
    } else if Subscribe(s, s') {
      SubscribeKeepsInv(s, s');
    } else if rows :| ReadSnapshot(s, s', rows) {
      ReadSnapshotKeepsInv(s, s', rows);
    } else if BridgeSend(s, s') || BridgeRecv(s, s') {
      BridgeKeepsInv(s, s');
    } else if Deliver(s, s') {
      DeliverKeepsInv(s, s');
    }
  }

  lemma {:induction false} RunKeepsInv(trace: seq<Feed>)
    requires Run(trace)
    ensures Inv(Last(trace))
    decreases |trace|
  {
    if |trace| > 1 {
      var prefix := trace[..|trace| - 1];
      RunKeepsInv(prefix);
      NextKeepsInv(Last(prefix), Last(trace));
    }
  }

  // ---------- what the client may rely on ----------

  predicate AllSeen(history: seq<Mark>, i: nat, j: nat)
    requires j < |history|
  {
    forall k :: i <= k <= j ==> history[k].Seen?
  }

  lemma {:induction false} SeenRunIsInterval(history: seq<Mark>, i: nat, j: nat)
    requires i <= j < |history| && GapFree(history)
    requires AllSeen(history, i, j)
    ensures history[j].event.seqNo == history[i].event.seqNo + (j - i)
    decreases j - i
  {
    if i < j {
      SeenRunIsInterval(history, i, j - 1);
    }
  }

  lemma SeenRunIsSlice(log: seq<Operation>, history: seq<Mark>, i: nat, k: nat)
    requires i <= k < |history| && GapFree(history) && AllSeen(history, i, k)
    requires Faithful(log, history[i].event) && Faithful(log, history[k].event)
    ensures history[i].event.seqNo + (k - i) <= |log|
    ensures history[k].event == Event(log[history[i].event.seqNo + (k - i) - 1], history[i].event.seqNo + (k - i))
  {
    SeenRunIsInterval(history, i, k);
  }

  lemma SliceAt(log: seq<Operation>, first: nat, n: nat, k: nat)
    requires 1 <= first && first + n <= |log| && k <= n
    ensures Slice(log, first, first + n + 1)[k] == Event(log[first + k - 1], first + k)
  {
  }

  lemma SeenIsFaithful(s: Feed, i: nat, j: nat)
    requires Inv(s) && i <= j < |s.history| && AllSeen(s.history, i, j)
    ensures forall k :: i <= k <= j ==> Faithful(s.log, s.history[k].event)
    ensures GapFree(s.history)
  {
    assert forall k :: 0 <= k < |s.history| ==> s.history[k] in s.history;
  }

  /**
   In every run, the transitions processed between two resync marks (or from the start), across
   any number of disconnects and reconnects, are exactly a contiguous slice of everything that
   was ever published: nothing skipped, repeated, reordered or altered.
   */
  lemma EndToEndGapFreedom(trace: seq<Feed>, i: nat, j: nat)
    requires Run(trace)
    requires i <= j < |Last(trace).history| && AllSeen(Last(trace).history, i, j)
    ensures
      var s := Last(trace);
      var first := s.history[i].event.seqNo;
      && 1 <= first && first + (j - i) <= |s.log|
      && forall k :: i <= k <= j ==> s.history[k].event == Slice(s.log, first, first + (j - i) + 1)[k - i]
  {
    RunKeepsInv(trace);
    var s := Last(trace);
    SeenIsFaithful(s, i, j);
    SeenRunIsSlice(s.log, s.history, i, j);
    var first := s.history[i].event.seqNo;
    forall k | i <= k <= j ensures s.history[k].event == Slice(s.log, first, first + (j - i) + 1)[k - i] {
      SeenRunIsSlice(s.log, s.history, i, k);
      SliceAt(s.log, first, j - i, k - i);
    }
  }

  /** The bridge's "already delivered as backlog" branch is dead code. */
  lemma DedupeNeverFires(trace: seq<Feed>)
    requires Run(trace) && Last(trace).connection.Open?
    ensures
      var s := Last(trace);
      var c := s.connection;
      && 1 <= c.next <= |s.log| + 1
      && (RecvFromLog(s.log, c.next).Delivered? ==>
          !IsDuplicate(c.lastBacklogSeq, RecvFromLog(s.log, c.next).event))
  {
    RunKeepsInv(trace);
  }

  /** Once nothing is in flight on a healthy connection, a client with a cursor is fully caught up. */
  lemma DrainedClientIsCurrent(trace: seq<Feed>)
    requires Run(trace) && Last(trace).connection.Open? && Last(trace).cursor.Some?
    requires
      var c := Last(trace).connection;
      !c.done && c.wire == [] && c.pending == [] && c.next == |Last(trace).log| + 1
    ensures Last(trace).cursor == Some(|Last(trace).log|)
  {
    RunKeepsInv(trace);
    assert [] + Last(trace).connection.pending == [];
  }

  // ---------- what a fresh client sees ----------

  ghost predicate OnlyAfter(frames: seq<Frame>, base: nat) {
    forall f :: f in frames && f.Transition? ==> f.event.seqNo > base
  }

  /** A cursor from before `base` is one the broadcaster will answer with a resync. */
  ghost predicate IsStale(log: seq<Operation>, cursor: Option<nat>, base: nat) {
    cursor.Some? ==> cursor.value >= base || |log| > 200 + cursor.value
  }

  ghost predicate FreshConnection(s: Feed, base: nat) {
    match s.connection
    case Closed => true
    case Requested(id) => id == s.cursor
    case Subscribed(sub) => sub.receiver > base && OnlyAfter(Frames(sub.backlog), base)
    case Open(pending, _, next, _, wire) => next > base && OnlyAfter(wire + pending, base)
  }

  /** Everything processed from position `from` of the history on was published after `base`. */
  ghost predicate Fresh(s: Feed, from: nat, base: nat) {
    && base <= |s.log| && IsStale(s.log, s.cursor, base) && FreshConnection(s, base)
    && from <= |s.history|
    && forall k :: from <= k < |s.history| && s.history[k].Seen? ==> s.history[k].event.seqNo > base
  }

  lemma SubscribeStaysFresh(s: Feed, s': Feed, from: nat, base: nat)
    requires Inv(s) && Fresh(s, from, base) && Subscribe(s, s')
    ensures Fresh(s', from, base)
  {
    SubscriptionIsExact(s.log, s.connection.lastEventId);
    var sub := s'.connection.subscription;
    if s.cursor.Some? && s.cursor.value < base {
      SubscribeIsComplete(s.log, s.cursor.value);
      assert Evicted(s.log, s.cursor.value + 1);
    }
  }

  lemma OpenStaysFresh(s: Feed, s': Feed, from: nat, base: nat)
    requires Inv(s) && Fresh(s, from, base)
    requires BridgeSend(s, s') || BridgeRecv(s, s') || exists rows :: ReadSnapshot(s, s', rows)
    ensures Fresh(s', from, base)
  {
    var c' := s'.connection;
    if rows :| ReadSnapshot(s, s', rows) {
      assert [] + c'.pending == c'.pending;
    } else if BridgeSend(s, s') {
      assert c'.wire + c'.pending == s.connection.wire + s.connection.pending;
    }
  }

  lemma DeliverStaysFresh(s: Feed, s': Feed, from: nat, base: nat)
    requires Fresh(s, from, base) && Deliver(s, s')
    ensures Fresh(s', from, base)
  {
    var c, c' := s.connection, s'.connection;
    assert c.wire[0] in c.wire + c.pending;
    assert forall f :: f in c'.wire + c'.pending ==> f in c.wire + c.pending;
  }

  lemma NextStaysFresh(s: Feed, s': Feed, from: nat, base: nat)
    requires Inv(s) && Fresh(s, from, base) && Next(s, s')
    ensures Fresh(s', from, base)
  {
    if operation :| Publish(s, s', operation) {
    } else if Connect(s, s') || Disconnect(s, s') {
    } else if Subscribe(s, s') {
      SubscribeStaysFresh(s, s', from, base);
    } else if Deliver(s, s') {
      DeliverStaysFresh(s, s', from, base);
    } else {
      OpenStaysFresh(s, s', from, base);
    }
  }

  lemma StartsFresh(s: Feed, s': Feed)
    requires Inv(s) && Subscribe(s, s')
    requires s.connection.lastEventId == None || s'.connection.subscription.resync
    ensures Fresh(s', |s.history|, |s.log|)
  {
    SubscriptionIsExact(s.log, s.connection.lastEventId);
    if s.cursor.Some? {
      SubscribeIsComplete(s.log, s.cursor.value);
    }
  }

  lemma {:induction false} RunStaysFresh(trace: seq<Feed>, t: nat)
    requires Run(trace) && t + 1 < |trace| && Subscribe(trace[t], trace[t + 1])
    requires trace[t].connection.lastEventId == None || trace[t + 1].connection.subscription.resync
    ensures Fresh(Last(trace), |trace[t].history|, |trace[t].log|)
    decreases |trace|
  {
    var prefix := trace[..|trace| - 1];
    RunKeepsInv(prefix);
    if t + 2 == |trace| {
      StartsFresh(Last(prefix), Last(trace));
    } else {
      RunStaysFresh(prefix, t);
      NextStaysFresh(Last(prefix), Last(trace), |trace[t].history|, |trace[t].log|);
    }
  }

  /**
   A client that connects with no cursor, or is told to resync when it subscribes, processes from then on
   only what was published after that subscription, through any number of later reconnects.
   */
  lemma FreshClientsSeeOnlyNewEvents(trace: seq<Feed>, t: nat, k: nat)
    requires Run(trace) && t + 1 < |trace| && Subscribe(trace[t], trace[t + 1])
    requires trace[t].cursor == None || trace[t + 1].connection.subscription.resync
    requires |trace[t].history| <= k < |Last(trace).history| && Last(trace).history[k].Seen?
    ensures Last(trace).history[k].event.seqNo > |trace[t].log|
  {
    PrefixRuns(trace, t + 1);
    RunKeepsInv(trace[..t + 1]);
    RunStaysFresh(trace, t);
  }

  lemma {:induction false} PrefixRuns(trace: seq<Feed>, n: nat)
    requires Run(trace) && 0 < n <= |trace|
    ensures Run(trace[..n])
    decreases |trace|
  {
    if n == |trace| {
      assert trace[..n] == trace;
    } else {
      PrefixRuns(trace[..|trace| - 1], n);
      assert trace[..|trace| - 1][..n] == trace[..n];
    }
  }

  // ---------- the order of frames on a connection ----------

  /** A resync comes first, or last when the receiver lagged; snapshot rows come before any transition. */
  ghost predicate InOrder(frames: seq<Frame>, done: bool) {
    && (forall k :: 0 <= k < |frames| && frames[k].Resync? ==> k == 0 || (done && k == |frames| - 1))
    && (forall j, k :: 0 <= j < k < |frames| && frames[j].Transition? ==> !frames[k].Snapshot?)
  }

  ghost predicate FramesInOrder(s: Feed) {
    s.connection.Open? ==> InOrder(s.connection.wire + s.connection.pending, s.connection.done)
  }

  lemma BridgeKeepsOrder(s: Feed, s': Feed)
    requires FramesInOrder(s) && (BridgeSend(s, s') || BridgeRecv(s, s'))
    ensures FramesInOrder(s')
  {
    var c, c' := s.connection, s'.connection;
    if BridgeSend(s, s') {
      assert c'.wire + c'.pending == c.wire + c.pending;
    } else {
      assert c.wire + c.pending == c.wire && c'.wire + c'.pending == c'.wire;
    }
  }

  /** Where each frame of an opening connection stands. */
  lemma OpeningFrame(head: seq<Frame>, rows: seq<Operation>, events: seq<Event>, k: nat)
    requires k < |head| + |rows| + |events|
    ensures var frames := head + Snapshots(rows) + Frames(events);
      frames[k] == if k < |head| then head[k]
                   else if k < |head| + |rows| then Snapshot(rows[k - |head|])
                   else Transition(events[k - |head| - |rows|])
  {
  }

  lemma OpeningInOrder(head: seq<Frame>, rows: seq<Operation>, events: seq<Event>)
    requires head == [] || head == [Resync]
    ensures InOrder(head + Snapshots(rows) + Frames(events), false)
  {
    var frames := head + Snapshots(rows) + Frames(events);
    forall k | 0 <= k < |frames| ensures frames[k].Resync? ==> k == 0 {
      OpeningFrame(head, rows, events, k);
    }
    forall j, k | 0 <= j < k < |frames| && frames[j].Transition? ensures !frames[k].Snapshot? {
      OpeningFrame(head, rows, events, j);
      OpeningFrame(head, rows, events, k);
    }
  }

  lemma SnapshotKeepsOrder(s: Feed, s': Feed, rows: seq<Operation>)
    requires ReadSnapshot(s, s', rows)
    ensures FramesInOrder(s')
  {
    var sub, pending := s.connection.subscription, s'.connection.pending;
    OpeningInOrder(if sub.resync then [Resync] else [], rows, sub.backlog);
    assert [] + pending == pending;
  }

  lemma DeliverKeepsOrder(s: Feed, s': Feed)
    requires FramesInOrder(s) && Deliver(s, s')
    ensures FramesInOrder(s')
  {
    var before, after := s.connection.wire + s.connection.pending, s'.connection.wire + s'.connection.pending;
    assert after == before[1..];
    assert forall k :: 0 <= k < |after| ==> after[k] == before[k + 1];
  }

  lemma NextKeepsOrder(s: Feed, s': Feed)
    requires FramesInOrder(s) && Next(s, s')
    ensures FramesInOrder(s')
  {
    if rows :| ReadSnapshot(s, s', rows) {
      SnapshotKeepsOrder(s, s', rows);
    } else if BridgeSend(s, s') || BridgeRecv(s, s') {
      BridgeKeepsOrder(s, s');
    } else if Deliver(s, s') {
      DeliverKeepsOrder(s, s');
    } else if operation :| Publish(s, s', operation) {
    } else {
      assert Connect(s, s') || Subscribe(s, s') || Disconnect(s, s');
    }
  }

  /** In every run, what is on the way to a client keeps that order. */
  lemma {:induction false} FramesStayInOrder(trace: seq<Feed>)
    requires Run(trace)
    ensures FramesInOrder(Last(trace))
    decreases |trace|
  {
    if |trace| > 1 {
      var s, s' := trace[|trace| - 2], trace[|trace| - 1];
      FramesStayInOrder(trace[..|trace| - 1]);
      NextKeepsOrder(s, s');
    }
  }
}
