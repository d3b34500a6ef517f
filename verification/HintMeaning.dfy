/** What becomes of each message, told from the messages and warnings alone. */
module HintMeaning {
  import opened Wrappers
  import opened Transcript
  import opened HintEmission
  import opened HintPasses
  import opened HintRuns
  import opened HintWarnings
  import opened TranscriptRows

  // ---------- white space and warnings ----------

  /** The white space of ECMAScript. */
  lemma {:induction false} WhiteSpaceIsExact(c: char)
    ensures IsSpace(c) <==>
      || 9 <= c as int <= 13 || 0x2000 <= c as int <= 0x200A
      || c as int in {32, 0xA0, 0x1680, 0x2028, 0x2029, 0x202F, 0x205F, 0x3000, 0xFEFF}
  {
  }

  /** Which warnings come to each way of showing them. */
  lemma {:induction false} ClassificationIsExact(w: ParseWarning)
    ensures ClassifyWarning(w) == HideWithInspect <==> w.severity == SeverityInfo
    ensures ClassifyWarning(w) == BannerOnly <==> w.severity == SeverityWarning && w.category == Meta
    ensures ClassifyWarning(w) == CollapseByDefault <==>
      w.severity == SeverityWarning && w.category in {Lexer, Timestamp}
    ensures ClassifyWarning(w) == RenderNormally <==>
      w.severity == SeverityError || (w.severity == SeverityWarning && w.category in {Schema, Payload})
  {
  }

  /** Warnings are attached in order to the message they name, one after the other, if it is in the stream. */
  lemma {:induction false} AttachedGrows(warnings: seq<ParseWarning>, w: ParseWarning, streamLength: nat, index: nat)
    ensures Attached([], streamLength, index) == []
    ensures Attached(warnings + [w], streamLength, index)
         == Attached(warnings, streamLength, index)
            + if w.messageIndex == Some(index) && index < streamLength
              then [InlineWarning(w.reason, w.severity, w.category, ClassifyWarning(w))] else []
  {
    assert (warnings + [w])[..|warnings|] == warnings;
  }

  lemma {:induction false} NothingAttached(warnings: seq<ParseWarning>, streamLength: nat, index: nat)
    ensures Attached(warnings, streamLength, index) != []
        <==> index < streamLength && exists w :: w in warnings && w.messageIndex == Some(index)
  {
    if warnings != [] {
      var n := |warnings| - 1;
      NothingAttached(warnings[..n], streamLength, index);
      AttachedGrows(warnings[..n], warnings[n], streamLength, index);
      assert warnings == warnings[..n] + [warnings[n]];
      assert forall w :: w in warnings <==> w in warnings[..n] || w == warnings[n];
    }
  }

  // ---------- what is emitted for one message ----------

  predicate FollowsCall(messages: seq<Message>, i: nat)
    requires i < |messages|
  {
    i > 0 && messages[i - 1].kind == ToolUse && messages[i].kind == ToolResult
  }

  predicate EmittedAt(messages: seq<Message>, warnings: seq<ParseWarning>, k: nat, h: RenderHint) {
    k < |messages| && !FollowsCall(messages, k) && h in HintOf(messages, warnings, k)
  }

  lemma {:induction false} EmittedFrom(messages: seq<Message>, warnings: seq<ParseWarning>, i: nat, h: RenderHint)
    requires i <= |messages|
    ensures h in BaseHints(messages, warnings, i) <==> exists k :: i <= k && EmittedAt(messages, warnings, k, h)
    decreases |messages| - i
  {
    if i < |messages| {
      EmittedFrom(messages, warnings, i + 1, h);
      assert FollowsCall(messages, i) <==> IsConsumed(messages, i);
      assert h in BaseHints(messages, warnings, i) <==>
        EmittedAt(messages, warnings, i, h) || h in BaseHints(messages, warnings, i + 1);
      if k :| i <= k && EmittedAt(messages, warnings, k, h) {
        assert k == i || i + 1 <= k;
      }
    }
  }

  /** A call and the result right after it make one hint; a result with no call before it is shown as stray. */
  lemma {:induction false} CallsAreEmitted(messages: seq<Message>, warnings: seq<ParseWarning>, i: nat)
    requires i < |messages|
    ensures var m, hints, n := messages[i], BaseHints(messages, warnings, 0), |messages|;
      var own := Attached(warnings, n, m.messageIndex);
      && (m.kind == ToolUse && i + 1 < n && messages[i + 1].kind == ToolResult ==>
            Lifecycle(m.messageIndex, Some(messages[i + 1].messageIndex),
                      own + Attached(warnings, n, messages[i + 1].messageIndex)) in hints)
      && (m.kind == ToolUse && (i + 1 == n || messages[i + 1].kind != ToolResult) ==>
            Lifecycle(m.messageIndex, None, own) in hints)
      && (m.kind == ToolResult && (i == 0 || messages[i - 1].kind != ToolUse) ==>
            Standalone(m.messageIndex, own + [InlineWarning(
              "stray tool_result \U{2014} no preceding tool_use", SeverityWarning, Payload, RenderNormally)], None)
            in hints)
  {
    forall h | EmittedAt(messages, warnings, i, h) ensures h in BaseHints(messages, warnings, 0) {
      EmittedFrom(messages, warnings, 0, h);
    }
    assert forall h :: h in HintOf(messages, warnings, i) && !FollowsCall(messages, i) ==>
      EmittedAt(messages, warnings, i, h);
  }

  /** Boundary and metadata rows, an echo row without its text. */
  lemma {:induction false} RowsAreEmitted(messages: seq<Message>, warnings: seq<ParseWarning>, i: nat)
    requires i < |messages|
    ensures var m, hints := messages[i], BaseHints(messages, warnings, 0);
      && (m.kind == Boundary ==> BoundaryRow(m.messageIndex) in hints)
      && (m.kind == Metadata && m.metaCategory == Some(Echo) ==>
            MetadataRow(m.messageIndex, MetadataHint(Echo, "", m.echoOf)) in hints)
      && (m.kind == Metadata && m.metaCategory != Some(Echo) ==>
            MetadataRow(m.messageIndex, MetadataHint(
              if m.metaCategory == None then Control else m.metaCategory.value, m.text, None)) in hints)
  {
    forall h | EmittedAt(messages, warnings, i, h) ensures h in BaseHints(messages, warnings, 0) {
      EmittedFrom(messages, warnings, 0, h);
    }
    assert forall h :: h in HintOf(messages, warnings, i) && !FollowsCall(messages, i) ==>
      EmittedAt(messages, warnings, i, h);
  }

  predicate HasText(m: Message) {
    exists p :: 0 <= p < |m.text| && !IsSpace(m.text[p])
  }

  /** Chapter markers keep their stamp whatever warnings they have. */
  predicate IsChapterMarker(m: Message) {
    m.kind == SystemNote
    && ("task_started \U{B7} turn " <= m.text || "task_complete \U{B7} turn " <= m.text)
  }

  /** A turn with text, a note or an unknown row is shown as it is, unless it only has warnings for the banner. */
  lemma {:induction false} TextIsEmitted(messages: seq<Message>, warnings: seq<ParseWarning>, i: nat)
    requires i < |messages|
    requires var m := messages[i];
      m.kind in {SystemNote, Unknown} || (m.kind in {User, Assistant} && HasText(m))
    ensures var m, hints := messages[i], BaseHints(messages, warnings, 0);
      var own := Attached(warnings, |messages|, m.messageIndex);
      if IsChapterMarker(m) then
        Standalone(m.messageIndex, own,
          Some(if "task_started \U{B7} turn " <= m.text then Started else Complete)) in hints
      else if own != [] && forall w :: w in own ==> w.classification == BannerOnly then
        WarningOnly(m.messageIndex, own) in hints
      else Standalone(m.messageIndex, own, None) in hints
  {
    var own := Attached(warnings, |messages|, messages[i].messageIndex);
    assert AllBannerOnly(own) <==> forall w :: w in own ==> w.classification == BannerOnly;
    assert IsBlank(messages[i].text) <==> !HasText(messages[i]);
    forall h | EmittedAt(messages, warnings, i, h) ensures h in BaseHints(messages, warnings, 0) {
      EmittedFrom(messages, warnings, 0, h);
    }
    assert forall h :: h in HintOf(messages, warnings, i) && !FollowsCall(messages, i) ==>
      EmittedAt(messages, warnings, i, h);
  }

  lemma {:induction false} BlankTurnWithWarnings(messages: seq<Message>, warnings: seq<ParseWarning>, i: nat)
    requires i < |messages| && messages[i].kind in {User, Assistant} && !HasText(messages[i])
    requires Attached(warnings, |messages|, messages[i].messageIndex) != []
    ensures WarningOnly(messages[i].messageIndex, Attached(warnings, |messages|, messages[i].messageIndex))
         in BaseHints(messages, warnings, 0)
  {
    var h := WarningOnly(messages[i].messageIndex, Attached(warnings, |messages|, messages[i].messageIndex));
    assert IsBlank(messages[i].text);
    assert HintOf(messages, warnings, i) == [h];
    EmittedFrom(messages, warnings, 0, h);
    assert EmittedAt(messages, warnings, i, h);
  }

  lemma {:induction false} BlankTurnIsInNoHint(
    messages: seq<Message>, warnings: seq<ParseWarning>, i: nat, k: nat, h: RenderHint)
    requires IndexedFrom(messages, 0) && i < |messages|
    requires messages[i].kind in {User, Assistant} && !HasText(messages[i]) && Attached(warnings, |messages|, i) == []
    requires EmittedAt(messages, warnings, k, h)
    ensures i !in Visits(h)
  {
    assert IsBlank(messages[i].text) && messages[i].messageIndex == i;
    assert HintOf(messages, warnings, i) == [];
    OnlyHint(messages, warnings, k, h);
    PairIsOf(messages, k);
  }

  lemma {:induction false} PairIsOf(messages: seq<Message>, k: nat)
    requires IndexedFrom(messages, 0) && k < |messages|
    ensures forall i :: i in PairVisits(messages, k) <==>
      i == k || (i == k + 1 < |messages| && messages[k].kind == ToolUse && messages[k + 1].kind == ToolResult)
  {
    assert messages[k].messageIndex == k && (k + 1 < |messages| ==> messages[k + 1].messageIndex == k + 1);
  }

  /** A blank turn has no row; its warnings, if any, are kept for the banner. */
  lemma {:induction false} BlankTurnIsEmitted(messages: seq<Message>, warnings: seq<ParseWarning>, i: nat)
    requires IndexedFrom(messages, 0) && i < |messages|
    requires messages[i].kind in {User, Assistant} && !HasText(messages[i])
    ensures var own, hints := Attached(warnings, |messages|, i), BaseHints(messages, warnings, 0);
      if own != [] then WarningOnly(i, own) in hints else forall h :: h in hints ==> i !in Visits(h)
  {
    assert messages[i].messageIndex == i;
    if Attached(warnings, |messages|, i) != [] {
      BlankTurnWithWarnings(messages, warnings, i);
    } else {
      forall h | h in BaseHints(messages, warnings, 0) ensures i !in Visits(h) {
        EmittedFrom(messages, warnings, 0, h);
        var k: nat :| EmittedAt(messages, warnings, k, h);
        BlankTurnIsInNoHint(messages, warnings, i, k, h);
      }
    }
  }

  // ---------- what rendering shows ----------

  /**
   Rendering a stream, or a slice of one, shows each message, but for user and assistant turns whose text
   is all white space and that no warning of the stream names.
   */
  lemma {:induction false} OnlyBlankTurnsAreDropped(
    messages: seq<Message>, warnings: seq<ParseWarning>, base: nat, i: nat)
    requires IndexedFrom(messages, base) && i < |messages|
    ensures base + i in VisitedBy(Walk(HintsFor(messages, warnings))) <==>
      || messages[i].kind !in {User, Assistant}
      || (exists p :: 0 <= p < |messages[i].text| && !IsSpace(messages[i].text[p]))
      || (base + i < |messages| && exists w :: w in warnings && w.messageIndex == Some(base + i))
  {
    VisitedUnlessDropped(messages, warnings, base, i);
    DroppedExactlyWhen(messages, warnings, base, i);
  }

  lemma {:induction false} DroppedExactlyWhen(messages: seq<Message>, warnings: seq<ParseWarning>, base: nat, i: nat)
    requires i < |messages| && messages[i].messageIndex == base + i
    ensures !IsDropped(messages, warnings, i) <==>
      || messages[i].kind !in {User, Assistant}
      || (exists p :: 0 <= p < |messages[i].text| && !IsSpace(messages[i].text[p]))
      || (base + i < |messages| && exists w :: w in warnings && w.messageIndex == Some(base + i))
  {
    NothingAttached(warnings, |messages|, base + i);
  }

  lemma {:induction false} VisitedUnlessDropped(
    messages: seq<Message>, warnings: seq<ParseWarning>, base: nat, i: nat)
    requires IndexedFrom(messages, base) && i < |messages|
    ensures messages[i].messageIndex == base + i
    ensures base + i in VisitedBy(Walk(HintsFor(messages, warnings))) <==> !IsDropped(messages, warnings, i)
  {
    EveryMessageIsVisitedOnce(messages, warnings, base);
    var k: nat := base + i;
    assert k in VisitedBy(Walk(HintsFor(messages, warnings))) <==> IsKept(messages, warnings, base, 0, k);
  }

  // ---------- what may be grouped ----------

  predicate Finds(byIndex: Index, index: nat, m: Message) {
    index in byIndex && byIndex[index] == m
  }

  lemma {:induction false} ByIndexFinds(messages: seq<Message>, base: nat, i: nat)
    requires IndexedFrom(messages, base) && i < |messages|
    ensures messages[i].messageIndex == base + i && Finds(ByIndex(messages), base + i, messages[i])
  {
    var n := |messages| - 1;
    if i < n {
      ByIndexFinds(messages[..n], base, i);
    }
  }

  /** A tool run is made of calls and of assistant text shown as it is; a metadata run, of metadata rows. */
  lemma {:induction false} RunsAreExact(
    messages: seq<Message>, warnings: seq<ParseWarning>, base: nat, i: nat, h: RenderHint)
    requires IndexedFrom(messages, base) && i < |messages| && h in HintOf(messages, warnings, i)
    ensures InRun(Grouping(ByIndex(messages)), h) <==>
      messages[i].kind == ToolUse || (messages[i].kind == Assistant && !h.WarningOnly?)
    ensures InRun(Clustering, h) <==> messages[i].kind == Metadata
  {
    ByIndexFinds(messages, base, i);
  }

  /** Two calls make a group, and two rows a cluster; fewer do not. */
  lemma {:induction false} QualifiesExactly(p: Pass, run: seq<RenderHint>)
    requires AllInRun(p, run)
    ensures p.Grouping? ==>
      (Qualifies(p, run) <==> exists i, j :: 0 <= i < j < |run| && run[i].Lifecycle? && run[j].Lifecycle?)
    ensures p.Clustering? ==> (Qualifies(p, run) <==> |run| >= 2)
  {
    if p.Grouping? {
      CallsCounted(run);
    }
  }

  lemma {:induction false} CallsCounted(run: seq<RenderHint>)
    ensures |Lifecycles(run)| > 0 <==> exists i :: 0 <= i < |run| && run[i].Lifecycle?
    ensures |Lifecycles(run)| > 1 <==>
      exists i, j :: 0 <= i < j < |run| && run[i].Lifecycle? && run[j].Lifecycle?
  {
    if run != [] {
      var n := |run| - 1;
      var before := run[..n];
      CallsCounted(before);
      assert forall i :: 0 <= i < n ==> before[i] == run[i];
      if i :| 0 <= i < n && before[i].Lifecycle? {
        assert run[i].Lifecycle? && (run[n].Lifecycle? ==> 0 <= i < n < |run|);
      }
    }
  }

  /** A call is judged by its own result, and named after its own message. */
  lemma {:induction false} CallIsJudgedByItsResult(
    messages: seq<Message>, warnings: seq<ParseWarning>, base: nat, i: nat, h: RenderHint)
    requires IndexedFrom(messages, base) && i < |messages| && messages[i].kind == ToolUse
    requires h in HintOf(messages, warnings, i)
    ensures h.Lifecycle? && ToolNameOf(ByIndex(messages), h) == messages[i].toolName
    ensures VerdictOf(ByIndex(messages), h) ==
      if i + 1 == |messages| || messages[i + 1].kind != ToolResult then Pending
      else if DetectFailure(messages[i + 1]) then FailedCall else SucceededCall
  {
    ByIndexFinds(messages, base, i);
    if i + 1 < |messages| {
      ByIndexFinds(messages, base, i + 1);
    }
  }

  /** What a head says of its run: its calls or rows in order, and the tools they use, first of all the first. */
  lemma {:induction false} HeadSaysWhatItsRunHolds(p: Pass, run: seq<RenderHint>)
    requires AllInRun(p, run) && Qualifies(p, run)
    ensures p.Grouping? ==>
      var head, calls := Head(p, run), Lifecycles(run);
      && head.GroupHead? && |head.messageIndices| == |calls|
      && (forall i :: 0 <= i < |calls| ==> head.messageIndices[i] == calls[i].messageIndex)
      && head.toolNames == ToolNames(p.byIndex, calls) && head.aggregateStatus == AggregateStatus(p.byIndex, calls)
      && head.toolName == if head.toolNames == [] then "" else head.toolNames[0]
    ensures p.Clustering? ==>
      var head := Head(p, run);
      && head.ClusterHead? && |head.messageIndices| == |head.members| == |run|
      && forall i :: 0 <= i < |run| ==> MetadataRow(head.messageIndices[i], head.members[i]) == run[i]
  {
    assert p.Clustering? ==> forall i :: 0 <= i < |run| ==> InRun(p, run[i]);
  }

  /** The calls of a run are its lifecycle hints, in order. */
  lemma {:induction false} CallsAreTheLifecycles(run: seq<RenderHint>, h: RenderHint)
    ensures Lifecycles(run + [h]) == Lifecycles(run) + if h.Lifecycle? then [h] else []
    ensures Lifecycles([]) == []
  {
    assert (run + [h])[..|run|] == run;
  }
}
