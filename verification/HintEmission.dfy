/** The hint types, and the first pass: one hint per message, results paired with their calls. */
module HintEmission {
  import opened Wrappers
  import opened Transcript

  const TASK_STARTED_PREFIX := "task_started \U{B7} turn "
  const TASK_COMPLETE_PREFIX := "task_complete \U{B7} turn "

  datatype Classification = RenderNormally | CollapseByDefault | HideWithInspect | BannerOnly

  datatype InlineWarning = InlineWarning(
    reason: string, severity: Severity, category: WarningCategory, classification: Classification)

  datatype TaskLifecycle = Started | Complete

  datatype GroupStatus =
    | AllSuccess(total: nat)
    | Mixed(total: nat, failed: nat)
    | InFlight(total: nat, pending: nat)
    | AllFailed(total: nat)

  datatype MetadataHint = MetadataHint(category: MetaCategory, display: string, echoOf: Option<EchoOf>)

  /** An absent `warnings` field is the empty sequence. */
  datatype RenderHint =
    | Standalone(messageIndex: nat, warnings: seq<InlineWarning>, taskLifecycle: Option<TaskLifecycle>)
    | Lifecycle(messageIndex: nat, pairWithIndex: Option<nat>, warnings: seq<InlineWarning>)
    | GroupHead(messageIndices: seq<nat>, toolName: string, toolNames: seq<string>, aggregateStatus: GroupStatus)
    | GroupMember(messageIndex: nat, pairWithIndex: Option<nat>, groupHeadIndex: nat, warnings: seq<InlineWarning>)
    | GroupTextMember(messageIndex: nat, groupHeadIndex: nat, warnings: seq<InlineWarning>)
    | BoundaryRow(messageIndex: nat)
    | WarningOnly(messageIndex: nat, warnings: seq<InlineWarning>)
    | MetadataRow(messageIndex: nat, metadata: MetadataHint)
    | ClusterHead(messageIndices: seq<nat>, members: seq<MetadataHint>)
    | ClusterMember(messageIndex: nat, clusterHeadIndex: nat, metadata: MetadataHint)

  function ClassifyWarning(w: ParseWarning): Classification {
    match (w.severity, w.category)
    case (SeverityError, _) => RenderNormally
    case (SeverityInfo, _) => HideWithInspect
    case (SeverityWarning, Schema) => RenderNormally
    case (SeverityWarning, Payload) => RenderNormally
    case (SeverityWarning, Lexer) => CollapseByDefault
    case (SeverityWarning, Timestamp) => CollapseByDefault
    case (SeverityWarning, Meta) => BannerOnly
  }

  function Inline(w: ParseWarning): InlineWarning {
    InlineWarning(w.reason, w.severity, w.category, ClassifyWarning(w))
  }

  const STRAY :=
    InlineWarning("stray tool_result \U{2014} no preceding tool_use", SeverityWarning, Payload, RenderNormally)

  function BuildMetadataHint(m: Message): MetadataHint {
    var category := if m.metaCategory.Some? then m.metaCategory.value else Control;
    if category.Echo? then MetadataHint(category, "", m.echoOf) else MetadataHint(category, m.text, None)
  }

  /** A warning is routed inline when its index lies in the given stream length. */
  predicate Routed(w: ParseWarning, streamLength: nat) {
    w.messageIndex.Some? && 0 <= w.messageIndex.value < streamLength
  }

  /** The inline warnings routed to one message index, in source order. */
  function Attached(warnings: seq<ParseWarning>, streamLength: nat, index: nat): seq<InlineWarning> {
    if warnings == [] then []
    else
      var w := warnings[|warnings| - 1];
      Attached(warnings[..|warnings| - 1], streamLength, index)
      + if Routed(w, streamLength) && w.messageIndex.value == index then [Inline(w)] else []
  }

  // ---------- pass 1 as a function of the stream ----------

  /** Strict adjacency: a call is paired with the result right after it. */
  predicate IsPaired(messages: seq<Message>, i: nat) {
    i + 1 < |messages| && messages[i].kind.ToolUse? && messages[i + 1].kind.ToolResult?
  }

  predicate IsConsumed(messages: seq<Message>, i: nat) {
    i > 0 && IsPaired(messages, i - 1)
  }

  function TaskLifecycleOf(m: Message): Option<TaskLifecycle> {
    if !m.kind.SystemNote? then None
    else if StartsWith(m.text, TASK_STARTED_PREFIX) then Some(Started)
    else if StartsWith(m.text, TASK_COMPLETE_PREFIX) then Some(Complete)
    else None
  }

  predicate IsBlankTurn(m: Message) {
    (m.kind.User? || m.kind.Assistant?) && IsBlank(m.text)
  }

  predicate AllBannerOnly(ws: seq<InlineWarning>) {
    forall i :: 0 <= i < |ws| ==> ws[i].classification.BannerOnly?
  }

  /** The hint of message `i`, which is not a consumed result; blank turns may have none. */
  function HintOf(messages: seq<Message>, warnings: seq<ParseWarning>, i: nat): seq<RenderHint>
    requires i < |messages|
  {
    var m := messages[i];
    var attached := Attached(warnings, |messages|, m.messageIndex);
    match m.kind
    case Boundary => [BoundaryRow(m.messageIndex)]
    case Metadata => [MetadataRow(m.messageIndex, BuildMetadataHint(m))]
    case ToolUse =>
      if IsPaired(messages, i) then
        var partner := messages[i + 1].messageIndex;
        [Lifecycle(m.messageIndex, Some(partner), attached + Attached(warnings, |messages|, partner))]
      else [Lifecycle(m.messageIndex, None, attached)]
    case ToolResult => [Standalone(m.messageIndex, attached + [STRAY], None)]
    case _ =>
      if IsBlankTurn(m) then
        if attached == [] then [] else [WarningOnly(m.messageIndex, attached)]
      else if TaskLifecycleOf(m).None? && attached != [] && AllBannerOnly(attached) then
        [WarningOnly(m.messageIndex, attached)]
      else [Standalone(m.messageIndex, attached, TaskLifecycleOf(m))]
  }

  /** The hints of messages `i`, `i+1`, ... in order. */
  function BaseHints(messages: seq<Message>, warnings: seq<ParseWarning>, i: nat): seq<RenderHint>
    requires i <= |messages|
    decreases |messages| - i
  {
    if i == |messages| then []
    else (if IsConsumed(messages, i) then [] else HintOf(messages, warnings, i)) + BaseHints(messages, warnings, i + 1)
  }

  // ---------- pass 1 as the loops that compute it ----------

  function Bucket(byIndex: map<nat, seq<InlineWarning>>, index: nat): seq<InlineWarning> {
    if index in byIndex then byIndex[index] else []
  }

  /** Bucket warnings by message index. */
  method BucketWarnings(warnings: seq<ParseWarning>, streamLength: nat) returns (byIndex: map<nat, seq<InlineWarning>>)
    ensures forall i: nat :: Bucket(byIndex, i) == Attached(warnings, streamLength, i)
  {
    byIndex := map[];
    for k := 0 to |warnings|
      invariant forall i: nat :: Bucket(byIndex, i) == Attached(warnings[..k], streamLength, i)
    {
      assert warnings[..k + 1][..k] == warnings[..k];
      var w := warnings[k];
      if Routed(w, streamLength) {
        var at: nat := w.messageIndex.value;
        byIndex := byIndex[at := Bucket(byIndex, at) + [Inline(w)]];
      }
    }
    assert warnings[..|warnings|] == warnings;
  }

  /** `pairWith` and `consumedByPrev`, filled in one scan. */
  method ComputePairs(messages: seq<Message>) returns (pairWith: array<Option<nat>>, consumed: array<bool>)
    ensures pairWith.Length == consumed.Length == |messages|
    ensures fresh(pairWith) && fresh(consumed)
    ensures forall i :: 0 <= i < |messages| ==>
      pairWith[i] == if IsPaired(messages, i) then Some(messages[i + 1].messageIndex) else None
    ensures forall i :: 0 <= i < |messages| ==> consumed[i] == IsConsumed(messages, i)
  {
    pairWith := new Option<nat>[|messages|](_ => None);
    consumed := new bool[|messages|](_ => false);
    for i := 0 to |messages|
      invariant forall j :: 0 <= j < |messages| ==>
        pairWith[j] == if j < i && IsPaired(messages, j) then Some(messages[j + 1].messageIndex) else None
      invariant forall j :: 0 <= j < |messages| ==> consumed[j] == (j <= i && IsConsumed(messages, j))
    {
      if messages[i].kind.ToolUse? && i + 1 < |messages| && messages[i + 1].kind.ToolResult? {
        pairWith[i] := Some(messages[i + 1].messageIndex);
        consumed[i + 1] := true;
      }
    }
  }

  /** The branch taken for one message that was not consumed by the call before it. */
  method EmitOne(messages: seq<Message>, warnings: seq<ParseWarning>, i: nat,
                 attached: seq<InlineWarning>, partner: Option<nat>, partnerWarnings: seq<InlineWarning>)
    returns (emitted: seq<RenderHint>)
    requires i < |messages| && attached == Attached(warnings, |messages|, messages[i].messageIndex)
    requires partner == if IsPaired(messages, i) then Some(messages[i + 1].messageIndex) else None
    requires partnerWarnings == if partner.Some? then Attached(warnings, |messages|, partner.value) else []
    ensures emitted == HintOf(messages, warnings, i)
  {
    var m := messages[i];
    if m.kind.Boundary? {
      return [BoundaryRow(m.messageIndex)];
    }
    if m.kind.Metadata? {
      return [MetadataRow(m.messageIndex, BuildMetadataHint(m))];
    }
    if m.kind.ToolUse? {
      assert partner.None? ==> attached + partnerWarnings == attached;
      return [Lifecycle(m.messageIndex, partner, attached + partnerWarnings)];
    }
    if m.kind.ToolResult? {
      return [Standalone(m.messageIndex, attached + [STRAY], None)];
    }
    if IsBlankTurn(m) {
      return if attached != [] then [WarningOnly(m.messageIndex, attached)] else [];
    }
    var taskLifecycle := TaskLifecycleOf(m);
    if taskLifecycle.None? && attached != [] && AllBannerOnly(attached) {
      return [WarningOnly(m.messageIndex, attached)];
    }
    return [Standalone(m.messageIndex, attached, taskLifecycle)];
  }

  method EmitHints(messages: seq<Message>, warnings: seq<ParseWarning>) returns (hints: seq<RenderHint>)
    ensures hints == BaseHints(messages, warnings, 0)
  {
    var byIndex := BucketWarnings(warnings, |messages|);
    var pairWith, consumed := ComputePairs(messages);
    hints := [];
    for i := 0 to |messages|
      invariant BaseHints(messages, warnings, 0) == hints + BaseHints(messages, warnings, i)
      modifies {}
    {
      ghost var rest := BaseHints(messages, warnings, i + 1);
      if consumed[i] {
        assert BaseHints(messages, warnings, i) == rest;
      } else {
        var attached := Bucket(byIndex, messages[i].messageIndex);
        var partner := pairWith[i];
        var partnerWarnings := if partner.Some? then Bucket(byIndex, partner.value) else [];
        var emitted := EmitOne(messages, warnings, i, attached, partner, partnerWarnings);
        assert hints + (emitted + rest) == (hints + emitted) + rest;
        hints := hints + emitted;
      }
    }
  }
}
