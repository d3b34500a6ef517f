/**
 Passes two and three: runs of tool calls collapse into groups, runs of metadata into clusters.
 Both are one algorithm, buffer a run and flush it at a delimiter, so it is specified once over
 `Pass` and its theorems hold for each.
 */
module HintPasses {
  import opened Wrappers
  import opened Transcript
  import opened HintEmission
  import opened Sequences

  const GROUP_THRESHOLD: nat := 2
  const METADATA_COLLAPSE_THRESHOLD: nat := 2

  type Index = map<nat, Message>  // messagesByIndex

  datatype Pass = Grouping(byIndex: Index) | Clustering

  // ---------- what a run is, and what it collapses to ----------

  predicate IsPassthrough(byIndex: Index, h: RenderHint)
    requires h.Standalone?
  {
    h.taskLifecycle.None? && h.messageIndex in byIndex && byIndex[h.messageIndex].kind.Assistant?
  }

  predicate InRun(p: Pass, h: RenderHint) {
    match p
    case Grouping(byIndex) => h.Lifecycle? || (h.Standalone? && IsPassthrough(byIndex, h))
    case Clustering => h.MetadataRow?
  }

  predicate AllInRun(p: Pass, run: seq<RenderHint>) {
    forall i :: 0 <= i < |run| ==> InRun(p, run[i])
  }

  function Lifecycles(run: seq<RenderHint>): (calls: seq<RenderHint>)
    ensures forall i :: 0 <= i < |calls| ==> calls[i].Lifecycle?
    ensures |calls| <= |run|
  {
    if run == [] then []
    else Lifecycles(run[..|run| - 1]) + if run[|run| - 1].Lifecycle? then [run[|run| - 1]] else []
  }

  predicate Qualifies(p: Pass, run: seq<RenderHint>) {
    match p
    case Grouping(_) => |Lifecycles(run)| >= GROUP_THRESHOLD
    case Clustering => |run| >= METADATA_COLLAPSE_THRESHOLD
  }

  datatype Verdict = Pending | FailedCall | SucceededCall

  function VerdictOf(byIndex: Index, h: RenderHint): Verdict
    requires h.Lifecycle?
  {
    if h.pairWithIndex.None? || h.pairWithIndex.value !in byIndex
       || !byIndex[h.pairWithIndex.value].kind.ToolResult? then Pending
    else if DetectFailure(byIndex[h.pairWithIndex.value]) then FailedCall
    else SucceededCall
  }

  function Count(byIndex: Index, calls: seq<RenderHint>, v: Verdict): nat
    requires forall i :: 0 <= i < |calls| ==> calls[i].Lifecycle?
  {
    if calls == [] then 0
    else Count(byIndex, calls[..|calls| - 1], v) + if VerdictOf(byIndex, calls[|calls| - 1]) == v then 1 else 0
  }

  function AggregateStatus(byIndex: Index, calls: seq<RenderHint>): GroupStatus
    requires forall i :: 0 <= i < |calls| ==> calls[i].Lifecycle?
  {
    var pending, failed := Count(byIndex, calls, Pending), Count(byIndex, calls, FailedCall);
    if pending > 0 then InFlight(|calls|, pending)
    else if failed == 0 then AllSuccess(|calls|)
    else if Count(byIndex, calls, SucceededCall) == 0 then AllFailed(|calls|)
    else Mixed(|calls|, failed)
  }

  lemma {:induction false} CountIsZero(byIndex: Index, calls: seq<RenderHint>, v: Verdict)
    requires forall i :: 0 <= i < |calls| ==> calls[i].Lifecycle?
    ensures Count(byIndex, calls, v) == 0 <==> forall i :: 0 <= i < |calls| ==> VerdictOf(byIndex, calls[i]) != v
  {
    if calls != [] {
      var n := |calls| - 1;
      CountIsZero(byIndex, calls[..n], v);
      assert forall i :: 0 <= i < n ==> calls[..n][i] == calls[i];
    }
  }

  lemma {:induction false} CountsAddUp(byIndex: Index, calls: seq<RenderHint>)
    requires forall i :: 0 <= i < |calls| ==> calls[i].Lifecycle?
    ensures |calls|
         == Count(byIndex, calls, Pending) + Count(byIndex, calls, FailedCall) + Count(byIndex, calls, SucceededCall)
  {
    if calls != [] {
      CountsAddUp(byIndex, calls[..|calls| - 1]);
    }
  }

  /** The calls with one verdict. */
  ghost function CallsWith(byIndex: Index, calls: seq<RenderHint>, v: Verdict): set<nat>
    requires forall i :: 0 <= i < |calls| ==> calls[i].Lifecycle?
  {
    set i: nat | i < |calls| && VerdictOf(byIndex, calls[i]) == v
  }

  lemma {:induction false} CountIsTheirNumber(byIndex: Index, calls: seq<RenderHint>, v: Verdict)
    requires forall i :: 0 <= i < |calls| ==> calls[i].Lifecycle?
    ensures Count(byIndex, calls, v) == |CallsWith(byIndex, calls, v)|
  {
    if calls == [] {
      assert CallsWith(byIndex, calls, v) == {};
    } else {
      CountIsTheirNumber(byIndex, calls[..|calls| - 1], v);
      LastCallCounts(byIndex, calls, v);
    }
  }

  lemma {:induction false} LastCallCounts(byIndex: Index, calls: seq<RenderHint>, v: Verdict)
    requires calls != [] && forall i :: 0 <= i < |calls| ==> calls[i].Lifecycle?
    ensures |CallsWith(byIndex, calls, v)|
         == |CallsWith(byIndex, calls[..|calls| - 1], v)| + if VerdictOf(byIndex, calls[|calls| - 1]) == v then 1 else 0
  {
    var n: nat := |calls| - 1;
    var before, all := CallsWith(byIndex, calls[..n], v), CallsWith(byIndex, calls, v);
    forall i: nat ensures i in all <==> i in before || (i == n && VerdictOf(byIndex, calls[n]) == v) {
      assert i < n ==> calls[..n][i] == calls[i];
    }
    assert n !in before;
    assert all == if VerdictOf(byIndex, calls[n]) == v then before + {n} else before;
  }

  /** A call without its result makes the group in flight; else the status says whether all, none or some failed. */
  lemma AggregateStatusMeans(byIndex: Index, calls: seq<RenderHint>)
    requires calls != [] && forall i :: 0 <= i < |calls| ==> calls[i].Lifecycle?
    ensures var status := AggregateStatus(byIndex, calls);
      && status.total == |calls|
      && (status.InFlight? <==> exists i :: 0 <= i < |calls| && VerdictOf(byIndex, calls[i]).Pending?)
      && (status.AllSuccess? <==> forall i :: 0 <= i < |calls| ==> VerdictOf(byIndex, calls[i]).SucceededCall?)
      && (status.AllFailed? <==> forall i :: 0 <= i < |calls| ==> VerdictOf(byIndex, calls[i]).FailedCall?)
      && (status.Mixed? ==> 0 < status.failed < status.total)
      && (status.InFlight? ==> status.pending == |CallsWith(byIndex, calls, Pending)|)
      && (status.Mixed? ==> status.failed == |CallsWith(byIndex, calls, FailedCall)|)
  {
    CountIsTheirNumber(byIndex, calls, Pending);
    CountIsTheirNumber(byIndex, calls, FailedCall);
    CountIsZero(byIndex, calls, Pending);
    CountIsZero(byIndex, calls, FailedCall);
    CountIsZero(byIndex, calls, SucceededCall);
    CountsAddUp(byIndex, calls);
    assert calls[0].Lifecycle?;
  }

  function ToolNameOf(byIndex: Index, h: RenderHint): Option<string>
    requires h.Lifecycle?
  {
    if h.messageIndex in byIndex && byIndex[h.messageIndex].kind.ToolUse? then byIndex[h.messageIndex].toolName
    else None
  }

  /** Distinct tool names in order of first appearance. */
  function ToolNames(byIndex: Index, calls: seq<RenderHint>): seq<string>
    requires forall i :: 0 <= i < |calls| ==> calls[i].Lifecycle?
  {
    if calls == [] then []
    else
      var names := ToolNames(byIndex, calls[..|calls| - 1]);
      var name := ToolNameOf(byIndex, calls[|calls| - 1]);
      if name.None? || name.value in names then names else names + [name.value]
  }

  /** Every named tool is listed once, and nothing else is. */
  lemma {:induction false} ToolNamesAreDistinct(byIndex: Index, calls: seq<RenderHint>)
    requires forall i :: 0 <= i < |calls| ==> calls[i].Lifecycle?
    ensures var names := ToolNames(byIndex, calls);
      && (forall i, j :: 0 <= i < j < |names| ==> names[i] != names[j])
      && (forall name :: name in names <==> exists i :: 0 <= i < |calls| && ToolNameOf(byIndex, calls[i]) == Some(name))
  {
    if calls != [] {
      var n := |calls| - 1;
      ToolNamesAreDistinct(byIndex, calls[..n]);
      assert forall i :: 0 <= i < n ==> calls[..n][i] == calls[i];
      var before, names := ToolNames(byIndex, calls[..n]), ToolNames(byIndex, calls);
      assert names == before || (|names| == |before| + 1 && names[..|before|] == before && names[|before|] !in before);
      assert forall i :: 0 <= i < |before| ==> names[i] == before[i] && before[i] in before;
      forall name
        ensures name in names <==> exists i :: 0 <= i < |calls| && ToolNameOf(byIndex, calls[i]) == Some(name)
      {
        assert name in names <==> name in before || ToolNameOf(byIndex, calls[n]) == Some(name);
        if name in before {
          var i :| 0 <= i < n && ToolNameOf(byIndex, calls[..n][i]) == Some(name);
          assert calls[..n][i] == calls[i];
        }
        if i :| 0 <= i < n && ToolNameOf(byIndex, calls[i]) == Some(name) {
          assert calls[..n][i] == calls[i];
        }
      }
    }
  }

  /** `early` is named by some call before any call names `late`. */
  predicate NamedBefore(byIndex: Index, calls: seq<RenderHint>, early: string, late: string)
    requires forall i :: 0 <= i < |calls| ==> calls[i].Lifecycle?
  {
    exists i :: 0 <= i < |calls| && ToolNameOf(byIndex, calls[i]) == Some(early)
      && forall j :: 0 <= j <= i ==> ToolNameOf(byIndex, calls[j]) != Some(late)
  }

  /** They are listed in the order in which the calls first name them. */
  lemma {:induction false} ToolNamesAreInOrder(byIndex: Index, calls: seq<RenderHint>)
    requires forall i :: 0 <= i < |calls| ==> calls[i].Lifecycle?
    ensures var names := ToolNames(byIndex, calls);
      forall a, b :: 0 <= a < b < |names| ==> NamedBefore(byIndex, calls, names[a], names[b])
  {
    if calls != [] {
      var n := |calls| - 1;
      var before, names := ToolNames(byIndex, calls[..n]), ToolNames(byIndex, calls);
      ToolNamesAreInOrder(byIndex, calls[..n]);
      ToolNamesAreDistinct(byIndex, calls[..n]);
      assert forall i :: 0 <= i < n ==> calls[..n][i] == calls[i];
      forall a, b | 0 <= a < b < |names| ensures NamedBefore(byIndex, calls, names[a], names[b]) {
        if b < |before| {
          StaysNamedBefore(byIndex, calls, before[a], before[b]);
        } else {
          NewNameComesLast(byIndex, calls, before, a, names[b]);
        }
      }
    }
  }

  lemma {:induction false} StaysNamedBefore(byIndex: Index, calls: seq<RenderHint>, early: string, late: string)
    requires calls != [] && forall i :: 0 <= i < |calls| ==> calls[i].Lifecycle?
    requires NamedBefore(byIndex, calls[..|calls| - 1], early, late)
    ensures NamedBefore(byIndex, calls, early, late)
  {
    var before := calls[..|calls| - 1];
    var i :| 0 <= i < |before| && ToolNameOf(byIndex, before[i]) == Some(early)
             && forall j :: 0 <= j <= i ==> ToolNameOf(byIndex, before[j]) != Some(late);
    assert forall j :: 0 <= j <= i ==> before[j] == calls[j];
  }

  lemma {:induction false} NewNameComesLast(
    byIndex: Index, calls: seq<RenderHint>, before: seq<string>, a: nat, late: string)
    requires calls != [] && forall i :: 0 <= i < |calls| ==> calls[i].Lifecycle?
    requires before == ToolNames(byIndex, calls[..|calls| - 1]) && a < |before| && late !in before
    ensures NamedBefore(byIndex, calls, before[a], late)
  {
    var n := |calls| - 1;
    ToolNamesAreDistinct(byIndex, calls[..n]);
    assert before[a] in before;
    var i :| 0 <= i < n && ToolNameOf(byIndex, calls[..n][i]) == Some(before[a]);
    forall j | 0 <= j <= i ensures ToolNameOf(byIndex, calls[j]) != Some(late) {
      assert calls[..n][j] == calls[j];
    }
    assert calls[..n][i] == calls[i];
  }

  function Indices(run: seq<RenderHint>): (indices: seq<nat>)
    requires forall i :: 0 <= i < |run| ==> run[i].Lifecycle? || run[i].MetadataRow?
    ensures |indices| == |run|
    ensures forall i :: 0 <= i < |run| ==> indices[i] == run[i].messageIndex
  {
    seq(|run|, i requires 0 <= i < |run| => run[i].messageIndex)
  }

  function MembersOf(run: seq<RenderHint>): (members: seq<MetadataHint>)
    requires forall i :: 0 <= i < |run| ==> run[i].MetadataRow?
    ensures |members| == |run|
    ensures forall i :: 0 <= i < |run| ==> members[i] == run[i].metadata
  {
    seq(|run|, i requires 0 <= i < |run| => run[i].metadata)
  }

  function Head(p: Pass, run: seq<RenderHint>): RenderHint
    requires AllInRun(p, run) && Qualifies(p, run)
  {
    match p
    case Grouping(byIndex) =>
      var calls := Lifecycles(run);
      var names := ToolNames(byIndex, calls);
      GroupHead(Indices(calls), if names == [] then "" else names[0], names, AggregateStatus(byIndex, calls))
    case Clustering => ClusterHead(Indices(run), MembersOf(run))
  }

  /** The message index every member of the run points back to. */
  function HeadIndex(p: Pass, run: seq<RenderHint>): nat
    requires AllInRun(p, run) && Qualifies(p, run)
  {
    match p
    case Grouping(_) => Lifecycles(run)[0].messageIndex
    case Clustering => run[0].messageIndex
  }

  function Relabel(h: RenderHint, headIndex: nat): RenderHint
    requires h.Lifecycle? || h.Standalone? || h.MetadataRow?
  {
    match h
    case Lifecycle(index, pair, warnings) => GroupMember(index, pair, headIndex, warnings)
    case Standalone(index, warnings, _) => GroupTextMember(index, headIndex, warnings)
    case MetadataRow(index, metadata) => ClusterMember(index, headIndex, metadata)
  }

  function Members(p: Pass, run: seq<RenderHint>): (members: seq<RenderHint>)
    requires AllInRun(p, run) && Qualifies(p, run)
    ensures |members| == |run|
    ensures forall i :: 0 <= i < |run| ==> members[i] == Relabel(run[i], HeadIndex(p, run))
  {
    seq(|run|, i requires 0 <= i < |run| => Relabel(run[i], HeadIndex(p, run)))
  }

  function Flush(p: Pass, run: seq<RenderHint>): seq<RenderHint>
    requires AllInRun(p, run)
  {
    if Qualifies(p, run) then [Head(p, run)] + Members(p, run) else run
  }

  /** The pass with `buffer` holding the run read so far. */
  function CollapseFrom(p: Pass, buffer: seq<RenderHint>, hints: seq<RenderHint>): seq<RenderHint>
    requires AllInRun(p, buffer)
    decreases |hints|
  {
    if hints == [] then Flush(p, buffer)
    else if InRun(p, hints[0]) then CollapseFrom(p, buffer + [hints[0]], hints[1..])
    else Flush(p, buffer) + [hints[0]] + CollapseFrom(p, [], hints[1..])
  }

  function Collapse(p: Pass, hints: seq<RenderHint>): seq<RenderHint> {
    CollapseFrom(p, [], hints)
  }

  // ---------- the loops ----------

  function ByIndex(messages: seq<Message>): Index {
    if messages == [] then map[]
    else ByIndex(messages[..|messages| - 1])[messages[|messages| - 1].messageIndex := messages[|messages| - 1]]
  }

  method ComputeAggregateStatus(byIndex: Index, calls: seq<RenderHint>) returns (status: GroupStatus)
    requires forall i :: 0 <= i < |calls| ==> calls[i].Lifecycle?
    ensures status == AggregateStatus(byIndex, calls)
  {
    var pending, failed, succeeded := 0, 0, 0;
    for i := 0 to |calls|
      invariant pending == Count(byIndex, calls[..i], Pending)
      invariant failed == Count(byIndex, calls[..i], FailedCall)
      invariant succeeded == Count(byIndex, calls[..i], SucceededCall)
    {
      assert calls[..i + 1][..i] == calls[..i];
      var pair := calls[i].pairWithIndex;
      if pair.None? || pair.value !in byIndex || !byIndex[pair.value].kind.ToolResult? {
        pending := pending + 1;
      } else if DetectFailure(byIndex[pair.value]) {
        failed := failed + 1;
      } else {
        succeeded := succeeded + 1;
      }
    }
    assert calls[..|calls|] == calls;
    if pending > 0 {
      return InFlight(|calls|, pending);
    }
    if failed == 0 {
      return AllSuccess(|calls|);
    }
    if succeeded == 0 {
      return AllFailed(|calls|);
    }
    return Mixed(|calls|, failed);
  }

  method LifecycleMembers(buffer: seq<RenderHint>) returns (calls: seq<RenderHint>)
    ensures calls == Lifecycles(buffer)
  {
    calls := [];
    for i := 0 to |buffer|
      invariant calls == Lifecycles(buffer[..i])
    {
      assert buffer[..i + 1][..i] == buffer[..i];
      if buffer[i].Lifecycle? {
        calls := calls + [buffer[i]];
      }
    }
    assert buffer[..|buffer|] == buffer;
  }

  method DistinctToolNames(byIndex: Index, calls: seq<RenderHint>) returns (toolNames: seq<string>)
    requires forall i :: 0 <= i < |calls| ==> calls[i].Lifecycle?
    ensures toolNames == ToolNames(byIndex, calls)
  {
    toolNames := [];
    for i := 0 to |calls|
      invariant toolNames == ToolNames(byIndex, calls[..i])
    {
      assert calls[..i + 1][..i] == calls[..i];
      var name := ToolNameOf(byIndex, calls[i]);
      if name.Some? && name.value !in toolNames {
        toolNames := toolNames + [name.value];
      }
    }
    assert calls[..|calls|] == calls;
  }

  method RelabelGroup(buffer: seq<RenderHint>, groupHeadIndex: nat) returns (members: seq<RenderHint>)
    requires forall i :: 0 <= i < |buffer| ==> buffer[i].Lifecycle? || buffer[i].Standalone?
    ensures |members| == |buffer|
    ensures forall i :: 0 <= i < |buffer| ==> members[i] == Relabel(buffer[i], groupHeadIndex)
  {
    members := [];
    for i := 0 to |buffer|
      invariant |members| == i
      invariant forall k :: 0 <= k < i ==> members[k] == Relabel(buffer[k], groupHeadIndex)
    {
      var h := buffer[i];
      if h.Lifecycle? {
        members := members + [GroupMember(h.messageIndex, h.pairWithIndex, groupHeadIndex, h.warnings)];
      } else {
        members := members + [GroupTextMember(h.messageIndex, groupHeadIndex, h.warnings)];
      }
    }
  }

  /** `flush` of the grouping pass. */
  method FlushGroup(byIndex: Index, buffer: seq<RenderHint>) returns (out: seq<RenderHint>)
    requires AllInRun(Grouping(byIndex), buffer)
    ensures out == Flush(Grouping(byIndex), buffer)
  {
    var calls := LifecycleMembers(buffer);
    if |calls| < GROUP_THRESHOLD {
      return buffer;
    }
    var status := ComputeAggregateStatus(byIndex, calls);
    var toolNames := DistinctToolNames(byIndex, calls);
    var groupHeadIndex := calls[0].messageIndex;
    var members := RelabelGroup(buffer, groupHeadIndex);
    assert members == Members(Grouping(byIndex), buffer);
    return [GroupHead(Indices(calls), if toolNames == [] then "" else toolNames[0], toolNames, status)] + members;
  }

  lemma CollapseStep(p: Pass, buffer: seq<RenderHint>, hints: seq<RenderHint>, i: nat)
    requires AllInRun(p, buffer) && i < |hints|
    ensures CollapseFrom(p, buffer, hints[i..])
         == if InRun(p, hints[i]) then CollapseFrom(p, buffer + [hints[i]], hints[i + 1..])
            else Flush(p, buffer) + [hints[i]] + CollapseFrom(p, [], hints[i + 1..])
  {
    assert hints[i..][0] == hints[i] && hints[i..][1..] == hints[i + 1..];
  }

  method GroupLifecycles(hints: seq<RenderHint>, byIndex: Index) returns (out: seq<RenderHint>)
    ensures out == Collapse(Grouping(byIndex), hints)
  {
    var p := Grouping(byIndex);
    ghost var whole := Collapse(p, hints);
    out := [];
    var buffer: seq<RenderHint> := [];
    for i := 0 to |hints|
      invariant AllInRun(p, buffer)
      invariant whole == out + CollapseFrom(p, buffer, hints[i..])
    {
      CollapseStep(p, buffer, hints, i);
      var hint := hints[i];
      var buffered := hint.Lifecycle? || (hint.Standalone? && IsPassthrough(byIndex, hint));
      assert buffered == InRun(p, hint);
      if buffered {
        buffer := buffer + [hint];
      } else {
        var flushed := FlushGroup(byIndex, buffer);
        Reassociate(out, flushed, [hint], CollapseFrom(p, [], hints[i + 1..]));
        out := out + flushed + [hint];
        buffer := [];
      }
    }
    var flushed := FlushGroup(byIndex, buffer);
    out := out + flushed;
  }

  method FlushCluster(buffer: seq<RenderHint>) returns (out: seq<RenderHint>)
    requires AllInRun(Clustering, buffer)
    ensures out == Flush(Clustering, buffer)
  {
    if |buffer| < METADATA_COLLAPSE_THRESHOLD {
      return buffer;
    }
    var headIndex := buffer[0].messageIndex;
    out := [ClusterHead(Indices(buffer), MembersOf(buffer))];
    for i := 0 to |buffer|
      invariant out == [Head(Clustering, buffer)] + Members(Clustering, buffer)[..i]
    {
      out := out + [ClusterMember(buffer[i].messageIndex, headIndex, buffer[i].metadata)];
    }
  }

  method ClusterMetadata(hints: seq<RenderHint>) returns (out: seq<RenderHint>)
    ensures out == Collapse(Clustering, hints)
  {
    out := [];
    var buffer: seq<RenderHint> := [];
    for i := 0 to |hints|
      invariant AllInRun(Clustering, buffer)
      invariant Collapse(Clustering, hints) == out + CollapseFrom(Clustering, buffer, hints[i..])
    {
      CollapseStep(Clustering, buffer, hints, i);
      var hint := hints[i];
      if hint.MetadataRow? {
        buffer := buffer + [hint];
      } else {
        var flushed := FlushCluster(buffer);
        out := out + flushed + [hint];
        buffer := [];
      }
    }
    var flushed := FlushCluster(buffer);
    out := out + flushed;
  }

  /** The hint stream of a message stream. */
  function HintsFor(messages: seq<Message>, warnings: seq<ParseWarning>): seq<RenderHint> {
    Collapse(Clustering, Collapse(Grouping(ByIndex(messages)), BaseHints(messages, warnings, 0)))
  }

  method RenderHints(messages: seq<Message>, warnings: seq<ParseWarning>) returns (hints: seq<RenderHint>)
    ensures hints == HintsFor(messages, warnings)
  {
    if |messages| == 0 {
      return [];
    }
    var base := EmitHints(messages, warnings);
    var byIndex: Index := map[];
    for i := 0 to |messages|
      invariant byIndex == ByIndex(messages[..i])
    {
      assert messages[..i + 1][..i] == messages[..i];
      byIndex := byIndex[messages[i].messageIndex := messages[i]];
    }
    assert messages[..|messages|] == messages;
    var grouped := GroupLifecycles(base, byIndex);
    hints := ClusterMetadata(grouped);
  }
}
