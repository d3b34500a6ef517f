/** The top-level walk that turns the hint stream into rows, and why no message is lost or shown twice. */
module TranscriptRows {
  import opened Wrappers
  import opened Transcript
  import opened HintEmission
  import opened HintPasses
  import opened HintRuns
  import opened Sequences

  datatype Row =
    | HintRow(hint: RenderHint)
    | GroupRow(head: RenderHint, members: seq<RenderHint>)
    | ClusterRow(head: RenderHint)

  predicate IsGroupEntry(h: RenderHint) {
    h.GroupMember? || h.GroupTextMember?
  }

  /** The walk over the members behind a head: same head pointer, and no more calls than the head announces. */
  function TakeMembers(rest: seq<RenderHint>, indices: seq<nat>, seen: nat): (taken: seq<RenderHint>)
    ensures forall i :: 0 <= i < |taken| ==> IsGroupEntry(taken[i])
  {
    if rest == [] || !IsGroupEntry(rest[0]) || indices == [] || rest[0].groupHeadIndex != indices[0] then []
    else if rest[0].GroupMember? then
      if seen >= |indices| then [] else [rest[0]] + TakeMembers(rest[1..], indices, seen + 1)
    else [rest[0]] + TakeMembers(rest[1..], indices, seen)
  }

  /** The row one hint opens, if it opens one. */
  function RowOf(h: RenderHint, rest: seq<RenderHint>): seq<Row> {
    if h.ClusterMember? || IsGroupEntry(h) then []
    else if h.ClusterHead? then [ClusterRow(h)]
    else if h.GroupHead? then [GroupRow(h, TakeMembers(rest, h.messageIndices, 0))]
    else [HintRow(h)]
  }

  /** The rows of a hint stream. */
  function Walk(hints: seq<RenderHint>): seq<Row> {
    if hints == [] then [] else RowOf(hints[0], hints[1..]) + Walk(hints[1..])
  }

  lemma WalkAt(hints: seq<RenderHint>, i: nat)
    requires i < |hints|
    ensures Walk(hints[i..]) == RowOf(hints[i], hints[i + 1..]) + Walk(hints[i + 1..])
  {
    assert hints[i..][0] == hints[i] && hints[i..][1..] == hints[i + 1..];
  }

  lemma WalkCons(h: RenderHint, rest: seq<RenderHint>)
    ensures Walk([h] + rest) == RowOf(h, rest) + Walk(rest)
  {
    assert ([h] + rest)[0] == h && ([h] + rest)[1..] == rest;
  }

  lemma TakeAt(hints: seq<RenderHint>, j: nat, indices: seq<nat>, seen: nat)
    requires j < |hints| && IsGroupEntry(hints[j]) && indices != [] && hints[j].groupHeadIndex == indices[0]
    requires hints[j].GroupMember? ==> seen < |indices|
    ensures TakeMembers(hints[j..], indices, seen)
         == [hints[j]] + TakeMembers(hints[j + 1..], indices, if hints[j].GroupMember? then seen + 1 else seen)
  {
    assert hints[j..][0] == hints[j] && hints[j..][1..] == hints[j + 1..];
  }

  method CollectMembers(hints: seq<RenderHint>, i: nat) returns (members: seq<RenderHint>)
    requires i < |hints| && hints[i].GroupHead?
    ensures members == TakeMembers(hints[i + 1..], hints[i].messageIndices, 0)
  {
    var indices := hints[i].messageIndices;
    ghost var all := TakeMembers(hints[i + 1..], indices, 0);
    members := [];
    var lifecycleSeen: nat := 0;
    var j := i + 1;
    while j < |hints| && IsGroupEntry(hints[j])
      invariant i < j <= |hints|
      invariant all == members + TakeMembers(hints[j..], indices, lifecycleSeen)
    {
      var candidate := hints[j];
      assert hints[j..][0] == candidate;
      if indices == [] || candidate.groupHeadIndex != indices[0] {
        return;
      }
      if candidate.GroupMember? && lifecycleSeen >= |indices| {
        return;
      }
      TakeAt(hints, j, indices, lifecycleSeen);
      ghost var seen := if candidate.GroupMember? then lifecycleSeen + 1 else lifecycleSeen;
      Associate(members, [candidate], TakeMembers(hints[j + 1..], indices, seen));
      if candidate.GroupMember? {
        lifecycleSeen := lifecycleSeen + 1;
      }
      members := members + [candidate];
      j := j + 1;
    }
  }

  method RenderTopLevelHints(hints: seq<RenderHint>) returns (rows: seq<Row>)
    ensures rows == Walk(hints)
  {
    ghost var all := Walk(hints);
    rows := [];
    for i := 0 to |hints|
      invariant all == rows + Walk(hints[i..])
    {
      WalkAt(hints, i);
      Associate(rows, RowOf(hints[i], hints[i + 1..]), Walk(hints[i + 1..]));
      var hint := hints[i];
      if hint.ClusterMember? {
        continue;
      }
      if hint.ClusterHead? {
        rows := rows + [ClusterRow(hint)];
        continue;
      }
      if IsGroupEntry(hint) {
        continue;
      }
      if hint.GroupHead? {
        var members := CollectMembers(hints, i);
        rows := rows + [GroupRow(hint, members)];
        continue;
      }
      rows := rows + [HintRow(hint)];
    }
  }

  // ---------- what a row shows ----------

  function UnlabelAll(hints: seq<RenderHint>): (plain: seq<RenderHint>)
    ensures |plain| == |hints|
  {
    seq(|hints|, i requires 0 <= i < |hints| => Unlabel(hints[i]))
  }

  /** The first-pass hints a row shows. */
  function Shown(row: Row): seq<RenderHint> {
    match row
    case HintRow(h) => [h]
    case GroupRow(_, members) => UnlabelAll(members)
    case ClusterRow(head) =>
      if head.ClusterHead? && |head.messageIndices| == |head.members| then
        seq(|head.members|, i requires 0 <= i < |head.members| => MetadataRow(head.messageIndices[i], head.members[i]))
      else []
  }

  function AllShown(rows: seq<Row>): seq<RenderHint> {
    if rows == [] then [] else Shown(rows[0]) + AllShown(rows[1..])
  }

  function CallIndices(members: seq<RenderHint>): seq<nat> {
    if members == [] then []
    else
      var last := members[|members| - 1];
      CallIndices(members[..|members| - 1]) + if last.GroupMember? then [last.messageIndex] else []
  }

  /** Every member of a row points at the head. */
  predicate AllPointAt(members: seq<RenderHint>, headIndex: nat) {
    forall i :: 0 <= i < |members| ==> IsGroupEntry(members[i]) && members[i].groupHeadIndex == headIndex
  }

  /** The badge of a group counts the calls shown under it, and its members all point at it. */
  predicate RowAgreesWithHead(row: Row) {
    match row
    case HintRow(h) => !h.GroupHead? && !IsGroupEntry(h) && !h.ClusterHead? && !h.ClusterMember?
    case GroupRow(head, members) =>
      && head.GroupHead? && |head.messageIndices| >= GROUP_THRESHOLD
      && CallIndices(members) == head.messageIndices && AllPointAt(members, head.messageIndices[0])
    case ClusterRow(head) =>
      head.ClusterHead? && |head.messageIndices| == |head.members| >= METADATA_COLLAPSE_THRESHOLD
  }

  predicate AllAgree(rows: seq<Row>) {
    forall i :: 0 <= i < |rows| ==> RowAgreesWithHead(rows[i])
  }

  /** Hints as the first pass emits them. */
  predicate Plain(hints: seq<RenderHint>) {
    forall i :: 0 <= i < |hints| ==> IsPlain(hints[i])
  }

  predicate IsPlain(h: RenderHint) {
    !h.GroupHead? && !IsGroupEntry(h) && !h.ClusterHead? && !h.ClusterMember?
  }

  lemma {:induction false} ShownAppend(a: seq<Row>, b: seq<Row>)
    ensures AllShown(a + b) == AllShown(a) + AllShown(b)
  {
    if a == [] {
      assert a + b == b;
    } else {
      assert (a + b)[0] == a[0] && (a + b)[1..] == a[1..] + b;
      ShownAppend(a[1..], b);
    }
  }

  // ---------- the walk over what the passes emit ----------

  /** `front` became `rows`, whatever follows. */
  predicate Shows(rows: seq<Row>, front: seq<RenderHint>) {
    AllShown(rows) == front && AllAgree(rows)
  }

  predicate StartsFresh(hints: seq<RenderHint>) {
    hints != [] ==> !IsGroupEntry(hints[0])
  }

  lemma {:induction false} WalkPlain(front: seq<RenderHint>, rest: seq<RenderHint>) returns (rows: seq<Row>)
    requires Plain(front)
    ensures Walk(front + rest) == rows + Walk(rest) && Shows(rows, front)
  {
    if front == [] {
      assert front + rest == rest;
      rows := [];
    } else {
      WalkAt(front + rest, 0);
      assert (front + rest)[0..] == front + rest && (front + rest)[1..] == front[1..] + rest;
      assert IsPlain(front[0]);
      var tail := WalkPlain(front[1..], rest);
      rows := [HintRow(front[0])] + tail;
      assert rows[1..] == tail;
      assert front == [front[0]] + front[1..];
    }
  }

  lemma {:induction false} WalkSkipsMembers(members: seq<RenderHint>, rest: seq<RenderHint>)
    requires forall i :: 0 <= i < |members| ==> IsGroupEntry(members[i]) || members[i].ClusterMember?
    ensures Walk(members + rest) == Walk(rest)
  {
    if members == [] {
      assert members + rest == rest;
    } else {
      assert (members + rest)[0] == members[0] && (members + rest)[1..] == members[1..] + rest;
      WalkSkipsMembers(members[1..], rest);
    }
  }

  lemma {:induction false} CallIndicesFront(members: seq<RenderHint>)
    requires members != []
    ensures CallIndices(members)
         == (if members[0].GroupMember? then [members[0].messageIndex] else []) + CallIndices(members[1..])
  {
    var n := |members| - 1;
    if n > 0 {
      CallIndicesFront(members[..n]);
      assert members[..n][1..] == members[1..][..n - 1] && members[1..][n - 1] == members[n];
    }
  }

  lemma {:induction false} TakesAllMembers(members: seq<RenderHint>, indices: seq<nat>, seen: nat,
                                           rest: seq<RenderHint>)
    requires StartsFresh(rest) && indices != [] && AllPointAt(members, indices[0])
    requires seen + |CallIndices(members)| <= |indices|
    ensures TakeMembers(members + rest, indices, seen) == members
  {
    if members == [] {
      assert members + rest == rest;
    } else {
      var all := members + rest;
      assert all[0] == members[0] && all[1..] == members[1..] + rest;
      assert members == [members[0]] + members[1..];
      CallIndicesFront(members);
      TakesAllMembers(members[1..], indices, if members[0].GroupMember? then seen + 1 else seen, rest);
    }
  }

  lemma {:induction false} CallIndicesOfMembers(p: Pass, run: seq<RenderHint>, members: seq<RenderHint>, headIndex: nat)
    requires p.Grouping? && AllInRun(p, run) && |members| == |run|
    requires forall i :: 0 <= i < |run| ==> members[i] == Relabel(run[i], headIndex)
    ensures CallIndices(members) == Indices(Lifecycles(run))
  {
    if run != [] {
      var n := |run| - 1;
      assert InRun(p, run[n]);
      CallIndicesOfMembers(p, run[..n], members[..n], headIndex);
    }
  }

  lemma UnlabelMembers(p: Pass, run: seq<RenderHint>)
    requires AllInRun(p, run) && Qualifies(p, run)
    ensures UnlabelAll(Members(p, run)) == run
  {
    forall i | 0 <= i < |run| ensures Unlabel(Members(p, run)[i]) == run[i] {
      assert InRun(p, run[i]);
    }
  }

  lemma MembersPointAtHead(p: Pass, run: seq<RenderHint>)
    requires p.Grouping? && AllInRun(p, run) && Qualifies(p, run)
    ensures AllPointAt(Members(p, run), HeadIndex(p, run))
  {
    forall i | 0 <= i < |run|
      ensures IsGroupEntry(Members(p, run)[i]) && Members(p, run)[i].groupHeadIndex == HeadIndex(p, run)
    {
      assert InRun(p, run[i]);
    }
  }

  lemma ShownOne(row: Row, front: seq<RenderHint>)
    requires Shown(row) == front && RowAgreesWithHead(row)
    ensures Shows([row], front)
  {
    assert [row][1..] == [] && front + [] == front;
  }

  lemma WalkGroup(p: Pass, run: seq<RenderHint>, rest: seq<RenderHint>) returns (rows: seq<Row>)
    requires p.Grouping? && AllInRun(p, run) && Qualifies(p, run) && StartsFresh(rest)
    ensures Walk(Flush(p, run) + rest) == rows + Walk(rest) && Shows(rows, run)
  {
    var head, members := Head(p, run), Members(p, run);
    Associate([head], members, rest);
    WalkCons(head, members + rest);
    CallIndicesOfMembers(p, run, members, HeadIndex(p, run));
    MembersPointAtHead(p, run);
    TakesAllMembers(members, head.messageIndices, 0, rest);
    WalkSkipsMembers(members, rest);
    UnlabelMembers(p, run);
    ShownOne(GroupRow(head, members), run);
    rows := [GroupRow(head, members)];
  }

  lemma WalkCluster(run: seq<RenderHint>, rest: seq<RenderHint>) returns (rows: seq<Row>)
    requires AllInRun(Clustering, run) && Qualifies(Clustering, run)
    ensures Walk(Flush(Clustering, run) + rest) == rows + Walk(rest) && Shows(rows, run)
  {
    var head, members := Head(Clustering, run), Members(Clustering, run);
    Associate([head], members, rest);
    WalkCons(head, members + rest);
    forall i | 0 <= i < |run|
      ensures members[i].ClusterMember? && MetadataRow(head.messageIndices[i], head.members[i]) == run[i]
    {
      assert InRun(Clustering, run[i]);
    }
    WalkSkipsMembers(members, rest);
    ShownOne(ClusterRow(head), run);
    rows := [ClusterRow(head)];
  }

  lemma WalkFlushed(p: Pass, run: seq<RenderHint>, rest: seq<RenderHint>) returns (rows: seq<Row>)
    requires AllInRun(p, run) && Plain(run) && StartsFresh(rest)
    ensures Walk(Flush(p, run) + rest) == rows + Walk(rest) && Shows(rows, run)
  {
    if !Qualifies(p, run) {
      rows := WalkPlain(run, rest);
    } else if p.Grouping? {
      rows := WalkGroup(p, run, rest);
    } else {
      rows := WalkCluster(run, rest);
    }
  }

  // ---------- the whole stream ----------

  function BothPasses(byIndex: Index, hints: seq<RenderHint>): seq<RenderHint> {
    Collapse(Clustering, Collapse(Grouping(byIndex), hints))
  }

  /** The stream splits into fronts that both passes handle on their own. */
  lemma NextFront(byIndex: Index, hints: seq<RenderHint>)
    returns (front: seq<RenderHint>, rest: seq<RenderHint>, flushed: seq<RenderHint>, p: Pass)
    requires hints != []
    ensures hints == front + rest && front != []
    ensures BothPasses(byIndex, hints) == flushed + BothPasses(byIndex, rest)
    ensures p.Grouping? ==> p == Grouping(byIndex)
    ensures if AllInRun(p, front) then flushed == Flush(p, front) else flushed == front
  {
    var g := Grouping(byIndex);
    p := if InRun(g, hints[0]) then g else Clustering;
    front, rest := FrontOf(p, hints);
    flushed := CollapsedFront(p, front);
    if AllInRun(p, front) {
      if p == g {
        BothPassesFlush(g, Clustering, front, rest);
      } else {
        BothPassesFlush(Clustering, g, front, rest);
      }
    } else {
      BothPassesSkip(g, Clustering, front[0], rest);
    }
  }

  lemma BothPassesStartFresh(byIndex: Index, hints: seq<RenderHint>)
    requires Plain(hints)
    ensures StartsFresh(BothPasses(byIndex, hints))
  {
    if hints != [] {
      var front, rest, flushed, p := NextFront(byIndex, hints);
      assert IsPlain(hints[0]) && hints[0] == front[0];
    }
  }

  lemma PlainParts(a: seq<RenderHint>, b: seq<RenderHint>)
    requires Plain(a + b)
    ensures Plain(a) && Plain(b)
  {
    assert forall i :: 0 <= i < |a| ==> (a + b)[i] == a[i];
    forall i | 0 <= i < |b| ensures IsPlain(b[i]) {
      assert (a + b)[|a| + i] == b[i];
    }
  }

  /** The rows show the hints they were made from, each once and in order. */
  lemma {:induction false} RowsShowEveryHint(byIndex: Index, hints: seq<RenderHint>)
    requires Plain(hints)
    ensures Shows(Walk(BothPasses(byIndex, hints)), hints)
    decreases |hints|
  {
    if hints != [] {
      var front, rest, flushed, p := NextFront(byIndex, hints);
      PlainParts(front, rest);
      BothPassesStartFresh(byIndex, rest);
      var tail := BothPasses(byIndex, rest);
      var rows;
      if AllInRun(p, front) {
        rows := WalkFlushed(p, front, tail);
      } else {
        rows := WalkPlain(front, tail);
      }
      ShownAppend(rows, Walk(tail));
      RowsShowEveryHint(byIndex, rest);
    }
  }

  // ---------- message indices ----------

  /** The messages a first-pass hint stands for: a paired result counts with its call. */
  function Visits(h: RenderHint): seq<nat> {
    match h
    case Lifecycle(index, Some(pair), _) => [index, pair]
    case Lifecycle(index, None, _) => [index]
    case Standalone(index, _, _) => [index]
    case BoundaryRow(index) => [index]
    case WarningOnly(index, _) => [index]
    case MetadataRow(index, _) => [index]
    case _ => []
  }

  function AllVisits(hints: seq<RenderHint>): seq<nat> {
    if hints == [] then [] else Visits(hints[0]) + AllVisits(hints[1..])
  }

  /** A blank user or assistant turn with no warning of its own gets no row. */
  predicate IsDropped(messages: seq<Message>, warnings: seq<ParseWarning>, i: nat)
    requires i < |messages|
  {
    IsBlankTurn(messages[i]) && Attached(warnings, |messages|, messages[i].messageIndex) == []
  }

  function KeptIndices(messages: seq<Message>, warnings: seq<ParseWarning>, i: nat): seq<nat>
    requires i <= |messages|
    decreases |messages| - i
  {
    if i == |messages| then []
    else
      (if IsDropped(messages, warnings, i) then [] else [messages[i].messageIndex])
      + KeptIndices(messages, warnings, i + 1)
  }

  lemma {:induction false} BaseHintsArePlain(messages: seq<Message>, warnings: seq<ParseWarning>, i: nat)
    requires i <= |messages|
    ensures Plain(BaseHints(messages, warnings, i))
    decreases |messages| - i
  {
    if i < |messages| {
      BaseHintsArePlain(messages, warnings, i + 1);
      var own := if IsConsumed(messages, i) then [] else HintOf(messages, warnings, i);
      assert |own| <= 1 && (|own| == 1 ==> IsPlain(own[0]));
    }
  }

  lemma {:induction false} VisitsAppend(a: seq<RenderHint>, b: seq<RenderHint>)
    ensures AllVisits(a + b) == AllVisits(a) + AllVisits(b)
  {
    if a == [] {
      assert a + b == b;
    } else {
      assert (a + b)[0] == a[0] && (a + b)[1..] == a[1..] + b;
      VisitsAppend(a[1..], b);
    }
  }

  lemma {:induction false} BaseHintsVisit(messages: seq<Message>, warnings: seq<ParseWarning>, i: nat)
    requires i <= |messages|
    ensures AllVisits(BaseHints(messages, warnings, i))
         == KeptIndices(messages, warnings, if i < |messages| && IsConsumed(messages, i) then i + 1 else i)
    decreases |messages| - i
  {
    if i < |messages| {
      var rest := BaseHints(messages, warnings, i + 1);
      BaseHintsVisit(messages, warnings, i + 1);
      if IsConsumed(messages, i) {
        assert BaseHints(messages, warnings, i) == rest;
      } else {
        VisitsAppend(HintOf(messages, warnings, i), rest);
        VisitsOfOne(messages, warnings, i);
      }
    }
  }

  function PairVisits(messages: seq<Message>, i: nat): seq<nat>
    requires i < |messages|
  {
    [messages[i].messageIndex] + if IsPaired(messages, i) then [messages[i + 1].messageIndex] else []
  }

  lemma VisitsOfOne(messages: seq<Message>, warnings: seq<ParseWarning>, i: nat)
    requires i < |messages| && !IsConsumed(messages, i)
    ensures var own := HintOf(messages, warnings, i);
      AllVisits(own) == if IsDropped(messages, warnings, i) then [] else PairVisits(messages, i)
  {
  }

  /** Message index `k` lies at position `i` or later and is not dropped. */
  predicate IsKept(messages: seq<Message>, warnings: seq<ParseWarning>, base: nat, i: nat, k: nat) {
    base + i <= k < base + |messages| && !IsDropped(messages, warnings, k - base)
  }

  predicate IsIncreasing(indices: seq<nat>) {
    forall a, b :: 0 <= a < b < |indices| ==> indices[a] < indices[b]
  }

  lemma {:induction false} KeptIsExact(messages: seq<Message>, warnings: seq<ParseWarning>, base: nat, i: nat)
    requires IndexedFrom(messages, base) && i <= |messages|
    ensures IsIncreasing(KeptIndices(messages, warnings, i))
    ensures forall k: nat :: k in KeptIndices(messages, warnings, i) <==> IsKept(messages, warnings, base, i, k)
    decreases |messages| - i
  {
    if i < |messages| {
      KeptIsExact(messages, warnings, base, i + 1);
      var kept, rest := KeptIndices(messages, warnings, i), KeptIndices(messages, warnings, i + 1);
      if IsDropped(messages, warnings, i) {
        assert kept == rest;
        forall k: nat ensures k in kept <==> IsKept(messages, warnings, base, i, k) {
          assert k in rest <==> IsKept(messages, warnings, base, i + 1, k);
        }
      } else {
        assert kept == [base + i] + rest;
        forall b | 0 <= b < |rest| ensures base + i < rest[b] {
          assert rest[b] in rest;
          assert IsKept(messages, warnings, base, i + 1, rest[b]);
        }
        forall k: nat ensures k in kept <==> IsKept(messages, warnings, base, i, k) {
          assert k in kept <==> k == base + i || k in rest;
          assert k in rest <==> IsKept(messages, warnings, base, i + 1, k);
        }
      }
    }
  }

  function VisitedBy(rows: seq<Row>): seq<nat> {
    AllVisits(AllShown(rows))
  }

  /**
   Rendering loses and duplicates nothing. On a stream or a slice of one, the rows visit the
   messages in order, each once, and leave out exactly the blank turns with no warning.
   */
  lemma EveryMessageIsVisitedOnce(messages: seq<Message>, warnings: seq<ParseWarning>, base: nat)
    requires IndexedFrom(messages, base)
    ensures IsIncreasing(VisitedBy(Walk(HintsFor(messages, warnings))))
    ensures forall k: nat :: k in VisitedBy(Walk(HintsFor(messages, warnings)))
                        <==> IsKept(messages, warnings, base, 0, k)
  {
    var hints := BaseHints(messages, warnings, 0);
    BaseHintsArePlain(messages, warnings, 0);
    RowsShowEveryHint(ByIndex(messages), hints);
    BaseHintsVisit(messages, warnings, 0);
    KeptIsExact(messages, warnings, base, 0);
  }
}
