/** Which rows and warnings each line of a session file becomes, told from the shape of the line. */
module ParserMeaning {
  import opened Wrappers
  import opened Transcript
  import opened ParserOutput
  import Claude = ClaudeCodeParser
  import Codex = CodexParser
  import opened EchoLinks

  // ---------- the rows of one line ----------

  predicate IsRowOf(messages: seq<Message>, line: nat, m: Message) {
    m in messages && m.lineOrdinal == line
  }

  ghost predicate StepsKeepLines(step: (nat, nat) -> Output) {
    forall k: nat, i: nat :: Contract(step(k, i), i, k, k + 1)
  }

  /** In the output of all lines, the rows and warnings of a line are those of its own step. */
  lemma {:induction false} LineHasItsStep(step: (nat, nat) -> Output, n: nat, line: nat)
    requires StepsKeepLines(step) && line < n
    ensures var own := step(line, |Fold(step, line, 0).messages|);
      && (forall m :: IsRowOf(Fold(step, n, 0).messages, line, m) <==> m in own.messages)
      && (forall w :: w in Fold(step, n, 0).warnings && w.lineOrdinal == line <==> w in own.warnings)
  {
    var before := Fold(step, n - 1, 0);
    var last := step(n - 1, |before.messages|);
    FoldKeepsLines(step, n - 1);
    StepIsOnItsLine(step, n - 1, |before.messages|);
    EarlierLines(before, n - 1);
    if line < n - 1 {
      LineHasItsStep(step, n - 1, line);
    }
  }

  lemma {:induction false} StepIsOnItsLine(step: (nat, nat) -> Output, k: nat, i: nat)
    requires StepsKeepLines(step)
    ensures forall m :: m in step(k, i).messages ==> m.lineOrdinal == k
    ensures forall w :: w in step(k, i).warnings ==> w.lineOrdinal == k
  {
    assert Contract(step(k, i), i, k, k + 1);
  }

  lemma {:induction false} EarlierLines(out: Output, n: nat)
    requires Contract(out, 0, 0, n)
    ensures forall m :: m in out.messages ==> m.lineOrdinal < n
    ensures forall w :: w in out.warnings ==> w.lineOrdinal < n
  {
  }

  /** A line has no row. */
  predicate HasNoRow(messages: seq<Message>, line: nat) {
    forall m :: m in messages ==> m.lineOrdinal != line
  }

  /** `row` is the only one of its line. */
  ghost predicate IsOnlyRow(messages: seq<Message>, row: Message) {
    forall m :: m in messages && m.lineOrdinal == row.lineOrdinal <==> m == row
  }

  /** The only warnings of a line. */
  ghost predicate WarnsOnly(warnings: seq<ParseWarning>, line: nat, own: seq<ParseWarning>) {
    forall w :: w in warnings && w.lineOrdinal == line <==> w in own
  }

  // ---------- Claude Code ----------

  lemma {:induction false} ClaudeSteps(lines: seq<Claude.Line>)
    ensures StepsKeepLines(Claude.LineStep(lines))
  {
    forall k: nat, i: nat ensures Contract(Claude.LineStep(lines)(k, i), i, k, k + 1) {
      if k < |lines| {
        Claude.LineKeepsContract(lines[k], k, k == |lines| - 1, i);
      }
    }
  }

  lemma {:induction false} ClaudeLine(lines: seq<Claude.Line>, k: nat) returns (index: nat)
    requires k < |lines|
    ensures var own := Claude.LineOutput(lines[k], k, k == |lines| - 1, index);
      && (forall m :: IsRowOf(Claude.Parsed(lines).messages, k, m) <==> m in own.messages)
      && (forall w :: w in Claude.Parsed(lines).warnings && w.lineOrdinal == k <==> w in own.warnings)
  {
    ClaudeSteps(lines);
    LineHasItsStep(Claude.LineStep(lines), |lines|, k);
    index := |Fold(Claude.LineStep(lines), k, 0).messages|;
  }

  /** A line that is no object has no row; a blank one is forgiven at the end of the file only. */
  lemma {:induction false} ClaudeBrokenLine(lines: seq<Claude.Line>, k: nat)
    requires k < |lines| && !lines[k].Record?
    ensures HasNoRow(Claude.Parsed(lines).messages, k)
    ensures lines[k].Blank? ==> WarnsOnly(Claude.Parsed(lines).warnings, k,
      if k == |lines| - 1 then [] else [ParseWarning(k, SeverityError, Lexer, "empty line", None)])
    ensures lines[k].Malformed? ==> WarnsOnly(Claude.Parsed(lines).warnings, k,
      [ParseWarning(k, SeverityError, Lexer, "malformed JSON", None)])
    ensures lines[k].NotAnObject? ==> WarnsOnly(Claude.Parsed(lines).warnings, k,
      [ParseWarning(k, SeverityError, Lexer, "top-level JSON value is not an object", None)])
  {
    var index := ClaudeLine(lines, k);
    forall m | m in Claude.Parsed(lines).messages ensures m.lineOrdinal != k {
      assert !IsRowOf(Claude.Parsed(lines).messages, k, m);
    }
  }

  /** Every other record but a turn with a content array has one row, of the kind of the record. */
  lemma {:induction false} ClaudeRecordIsOneRow(lines: seq<Claude.Line>, k: nat) returns (index: nat)
    requires k < |lines| && lines[k].Record?
    ensures var messages, rawBytes := Claude.Parsed(lines).messages, lines[k].rawBytes;
      match lines[k].body
      case NoType(text) => IsOnlyRow(messages, Message(k, index, Unknown, text, None, None, rawBytes, None, None))
      case SystemRecord(text, bytes) =>
        IsOnlyRow(messages, Message(k, index, SystemNote, text, None, None, bytes, None, None))
      case MetadataRecord(category, text) =>
        IsOnlyRow(messages, Message(k, index, Metadata, text, None, None, rawBytes, Some(category), None))
      case UnknownType(_, clipped) =>
        IsOnlyRow(messages, Message(k, index, Unknown, clipped, None, None, rawBytes, None, None))
      case Turn(role, _, Text(text, bytes), _) =>
        IsOnlyRow(messages, Message(k, index, role, text, None, None, bytes, None, None))
      case Turn(_, _, Neither, clipped) =>
        IsOnlyRow(messages, Message(k, index, Unknown, clipped, None, None, rawBytes, None, None))
      case Turn(_, _, Items(_), _) => true
  {
    index := ClaudeLine(lines, k);
    var messages := Claude.Parsed(lines).messages;
    assert forall m :: m in messages && m.lineOrdinal == k <==> IsRowOf(messages, k, m);
  }

  /** An unknown type or an odd content is reported at its row, a missing type without one. */
  lemma {:induction false} ClaudeProblemsAreReported(lines: seq<Claude.Line>, k: nat) returns (index: nat)
    requires k < |lines| && lines[k].Record?
    ensures var warnings := Claude.Parsed(lines).warnings;
      && (lines[k].timestampProblem.Some? ==>
            ParseWarning(k, SeverityWarning, Timestamp, lines[k].timestampProblem.value, None) in warnings)
      && match lines[k].body
         case NoType(_) => ParseWarning(k, SeverityError, Schema, "missing top-level 'type' field", None) in warnings
         case UnknownType(problem, _) => ParseWarning(k, SeverityWarning, Schema, problem, Some(index)) in warnings
         case Turn(_, roleProblem, content, _) =>
           && (roleProblem.Some? ==> ParseWarning(k, SeverityWarning, Schema, roleProblem.value, None) in warnings)
           && (content.Neither? ==>
                 ParseWarning(k, SeverityWarning, Payload, "/message/content is neither string nor array", Some(index))
                 in warnings)
         case _ => true
  {
    index := ClaudeLine(lines, k);
    var own := Claude.LineOutput(lines[k], k, k == |lines| - 1, index);
    assert forall w :: w in own.warnings ==> w in Claude.Parsed(lines).warnings;
  }

  /** What one item of a content array becomes, by the role of the turn. */
  lemma {:induction false} ItemIsOneRow(role: CanonicalKind, item: Claude.Item, line: nat, index: nat, rawBytes: nat)
    ensures var out := Claude.ItemOutput(role, item, line, index, rawBytes);
      match item
      case NonObject =>
        && out.messages == []
        && out.warnings == [ParseWarning(line, SeverityWarning, Payload, "non-object item in content array", None)]
      case TextItem(text, bytes) =>
        out == Output([Message(line, index, role, text, None, None, bytes, None, None)], [])
      case ThinkingItem(text, bytes) =>
        role == Assistant ==> out == Output([Message(line, index, Assistant, text, None, None, bytes, None, None)], [])
      case ToolUseItem(text, bytes, name) =>
        role == Assistant ==> out == Output([Message(line, index, ToolUse, text, name, None, bytes, None, None)], [])
      case ToolResultItem(text, bytes, id) =>
        role == User ==> out == Output([Message(line, index, ToolResult, text, id, None, bytes, None, None)], [])
      case OtherItem => true
  {
  }

  /** An item its role does not have is an unknown row, with a warning that names it. */
  lemma {:induction false} StrangeItemIsUnknown(
    role: CanonicalKind, item: Claude.Item, line: nat, index: nat, rawBytes: nat)
    requires item.OtherItem? || (role == User && (item.ToolUseItem? || item.ThinkingItem?))
             || (role == Assistant && item.ToolResultItem?)
    ensures Claude.ItemOutput(role, item, line, index, rawBytes) == Output(
      [Message(line, index, Unknown, "", None, None, rawBytes, None, None)],
      [ParseWarning(line, SeverityWarning, Payload,
         if role == User then "unknown user content item type" else "unknown assistant content item type",
         Some(index))])
  {
  }

  /** The rows of step `k` stand where the rows before it end. */
  lemma {:induction false} FoldSlice(step: (nat, nat) -> Output, n: nat, k: nat, base: nat)
    requires k < n
    ensures var before, own := Fold(step, k, base).messages, step(k, base + |Fold(step, k, base).messages|).messages;
      && |before| + |own| <= |Fold(step, n, base).messages|
      && Fold(step, n, base).messages[|before|..|before| + |own|] == own
  {
    var start := |Fold(step, k, base).messages|;
    var own := step(k, base + start).messages;
    if k == n - 1 {
      assert Fold(step, n, base).messages[start..] == own;
    } else {
      FoldSlice(step, n - 1, k, base);
      var shorter := Fold(step, n - 1, base).messages;
      assert Fold(step, n, base).messages[..|shorter|] == shorter;
      assert Fold(step, n, base).messages[start..start + |own|] == shorter[start..start + |own|];
    }
  }

  /** How many of the first `n` items are objects, and so have a row. */
  function ObjectsBefore(items: seq<Claude.Item>, n: nat): nat
    requires n <= |items|
  {
    if n == 0 then 0 else ObjectsBefore(items, n - 1) + if items[n - 1].NonObject? then 0 else 1
  }

  lemma {:induction false} ItemsCount(role: CanonicalKind, items: seq<Claude.Item>, n: nat, line: nat, index: nat,
                                      rawBytes: nat)
    requires n <= |items|
    ensures |Fold(Claude.ItemStep(role, items, line, rawBytes), n, index).messages| == ObjectsBefore(items, n)
  {
    if n > 0 {
      ItemsCount(role, items, n - 1, line, index, rawBytes);
    }
  }

  lemma {:induction false} ItemSlice(role: CanonicalKind, items: seq<Claude.Item>, line: nat, index: nat,
                                     rawBytes: nat, j: nat)
    requires j < |items|
    ensures var rows := Claude.ItemsOutput(role, items, line, index, rawBytes).messages;
      var at := ObjectsBefore(items, j);
      var own := Claude.ItemOutput(role, items[j], line, index + at, rawBytes).messages;
      at + |own| <= |rows| && rows[at..at + |own|] == own
  {
    var step := Claude.ItemStep(role, items, line, rawBytes);
    ItemsCount(role, items, j, line, index, rawBytes);
    FoldSlice(step, |items|, j, index);
    assert step(j, index + ObjectsBefore(items, j))
        == Claude.ItemOutput(role, items[j], line, index + ObjectsBefore(items, j), rawBytes);
  }

  /** The rows of a content array are those of its items, in order, one for each object. */
  lemma {:induction false} ItemsComeInOrder(role: CanonicalKind, items: seq<Claude.Item>, line: nat, index: nat,
                                            rawBytes: nat, j: nat)
    requires j < |items|
    ensures |Claude.ItemsOutput(role, items, line, index, rawBytes).messages| == ObjectsBefore(items, |items|)
    ensures !items[j].NonObject? ==>
      var rows, at := Claude.ItemsOutput(role, items, line, index, rawBytes).messages, ObjectsBefore(items, j);
      at < |rows| && [rows[at]] == Claude.ItemOutput(role, items[j], line, index + at, rawBytes).messages
  {
    ItemsCount(role, items, |items|, line, index, rawBytes);
    if !items[j].NonObject? {
      var at := ObjectsBefore(items, j);
      ItemSlice(role, items, line, index, rawBytes, j);
      ObjectHasOneRow(role, items[j], line, index + at, rawBytes);
      SliceOfOne(Claude.ItemsOutput(role, items, line, index, rawBytes).messages, at,
                 Claude.ItemOutput(role, items[j], line, index + at, rawBytes).messages);
    }
  }

  lemma {:induction false} ObjectHasOneRow(role: CanonicalKind, item: Claude.Item, line: nat, index: nat, rawBytes: nat)
    requires !item.NonObject?
    ensures |Claude.ItemOutput(role, item, line, index, rawBytes).messages| == 1
  {
  }

  lemma {:induction false} SliceOfOne(rows: seq<Message>, at: nat, own: seq<Message>)
    requires |own| == 1 && at + |own| <= |rows| && rows[at..at + |own|] == own
    ensures at < |rows| && [rows[at]] == own
  {
  }

  // ---------- Codex ----------

  lemma {:induction false} CodexSteps(lines: seq<Codex.Line>)
    ensures StepsKeepLines(Codex.LineStep(lines))
  {
    forall k: nat, i: nat ensures Contract(Codex.LineStep(lines)(k, i), i, k, k + 1) {
      if k < |lines| {
        Codex.LineKeepsContract(lines[k], Codex.MetaSeen(lines, k), k, k == |lines| - 1, i);
      }
    }
  }

  lemma {:induction false} CodexLine(lines: seq<Codex.Line>, k: nat) returns (index: nat)
    requires k < |lines|
    ensures var own := Codex.LineOutput(lines[k], Codex.MetaSeen(lines, k), k, k == |lines| - 1, index);
      && (forall m :: IsRowOf(Codex.Unresolved(lines).messages, k, m) <==> m in own.messages)
      && (forall w :: w in Codex.Parsed(lines).warnings && w.lineOrdinal == k <==> w in own.warnings)
  {
    CodexSteps(lines);
    LineHasItsStep(Codex.LineStep(lines), |lines|, k);
    index := |Fold(Codex.LineStep(lines), k, 0).messages|;
  }

  /** Resolving the echo rows changes nothing else. */
  lemma {:induction false} OthersAreKept(lines: seq<Codex.Line>, m: Message)
    requires !IsEcho(m)
    ensures m in Codex.Parsed(lines).messages <==> m in Codex.Unresolved(lines).messages
  {
    var before, after := Codex.Unresolved(lines).messages, Codex.Parsed(lines).messages;
    forall i | 0 <= i < |before| ensures before[i] == m <==> after[i] == m {
      assert after[i] == Linked(before, i);
      assert IsEcho(before[i]) <==> IsEcho(after[i]);
    }
    if m in before {
      var i :| 0 <= i < |before| && before[i] == m;
      assert after[i] == m;
    }
    if m in after {
      var i :| 0 <= i < |after| && after[i] == m;
      assert before[i] == m;
    }
  }

  lemma {:induction false} CodexBrokenLine(lines: seq<Codex.Line>, k: nat)
    requires k < |lines| && !lines[k].Record?
    ensures HasNoRow(Codex.Unresolved(lines).messages, k)
    ensures lines[k].Blank? ==> WarnsOnly(Codex.Parsed(lines).warnings, k,
      if k == |lines| - 1 then [] else [ParseWarning(k, SeverityError, Lexer, "empty line", None)])
    ensures lines[k].Malformed? ==> WarnsOnly(Codex.Parsed(lines).warnings, k,
      [ParseWarning(k, SeverityError, Lexer, "malformed JSON", None)])
    ensures lines[k].NotAnObject? ==> WarnsOnly(Codex.Parsed(lines).warnings, k,
      [ParseWarning(k, SeverityError, Lexer, "top-level JSON value is not an object", None)])
  {
    var index := CodexLine(lines, k);
    forall m | m in Codex.Unresolved(lines).messages ensures m.lineOrdinal != k {
      assert !IsRowOf(Codex.Unresolved(lines).messages, k, m);
    }
  }

  /** Session metadata opens the session once; after that it marks a resumption. */
  predicate IsResumed(lines: seq<Codex.Line>, k: nat)
    requires k <= |lines|
  {
    exists j :: 0 <= j < k && lines[j].Record? && lines[j].body.SessionMeta?
  }

  /** Each record has one row, of the kind of the record; an echo row, before it is resolved, points at its own line. */
  lemma {:induction false} CodexRecordIsOneRow(lines: seq<Codex.Line>, k: nat) returns (row: Message)
    requires k < |lines| && lines[k].Record?
    ensures IsOnlyRow(Codex.Unresolved(lines).messages, row)
    ensures var index, rawBytes := row.messageIndex, lines[k].rawBytes;
      match lines[k].body
      case NoType(clipped) =>
        row == Message(k, index, Unknown, clipped, None, None, rawBytes, None, None)
      case SessionMeta(text, bytes) =>
        row == if IsResumed(lines, k) then
                 Message(k, index, Boundary, "session resumed", None, Some("session_resumed"), rawBytes, None, None)
               else Message(k, index, SystemNote, text, None, None, bytes, None, None)
      case NoPayload(clipped) =>
        row == Message(k, index, Unknown, clipped, None, None, rawBytes, None, None)
      case DuplicateOf(role) =>
        row == Message(k, index, Metadata, "", None, None, rawBytes, Some(Echo), Some(EchoOf(k, role)))
      case Call(name, text, bytes, _) =>
        row == Message(k, index, ToolUse, text, Some(name), None, bytes, None, None)
      case CallOutput(name, text, bytes, _) =>
        row == Message(k, index, ToolResult, text, Some(name), None, bytes, None, None)
      case Note(text, bytes) =>
        row == Message(k, index, SystemNote, text, None, None, bytes, None, None)
      case Turn(role, text, bytes, _) =>
        row == Message(k, index, role, text, None, None, bytes, None, None)
      case Compaction(text, bytes) =>
        row == Message(k, index, Boundary, text, None, Some("compacted"), bytes, None, None)
      case MetadataRecord(category, text) =>
        row == Message(k, index, Metadata, text, None, None, rawBytes, Some(category), None)
      case NoEventType(clipped) =>
        row == Message(k, index, Unknown, clipped, None, None, rawBytes, None, None)
      case Unrecognised(_, clipped) =>
        row == Message(k, index, Unknown, clipped, None, None, rawBytes, None, None)
  {
    var index := CodexLine(lines, k);
    var own := Codex.BodyOutput(lines[k].body, Codex.MetaSeen(lines, k), k, index, lines[k].rawBytes).messages;
    row := own[0];
    var messages := Codex.Unresolved(lines).messages;
    assert own == [row];
    assert forall m :: m in messages && m.lineOrdinal == k <==> IsRowOf(messages, k, m);
    assert Codex.MetaSeen(lines, k) <==> IsResumed(lines, k);
  }

  /** An unknown shape is reported at its row; a missing type, a bad time stamp or a bad payload without one. */
  lemma {:induction false} CodexProblemsAreReported(lines: seq<Codex.Line>, k: nat) returns (index: nat)
    requires k < |lines| && lines[k].Record?
    ensures var warnings := Codex.Parsed(lines).warnings;
      && (lines[k].topTimestampProblem.Some? ==>
            ParseWarning(k, SeverityWarning, Timestamp, lines[k].topTimestampProblem.value, None) in warnings)
      && (lines[k].payloadTimestampProblem.Some? ==>
            ParseWarning(k, SeverityWarning, Timestamp, lines[k].payloadTimestampProblem.value, None) in warnings)
      && match lines[k].body
         case NoType(_) => ParseWarning(k, SeverityError, Schema, "missing top-level 'type' field", None) in warnings
         case NoPayload(_) =>
           ParseWarning(k, SeverityError, Schema, "response_item missing payload", Some(index)) in warnings
         case NoEventType(_) =>
           ParseWarning(k, SeverityError, Schema, "event_msg missing payload.type", Some(index)) in warnings
         case Unrecognised(reason, _) => ParseWarning(k, SeverityWarning, Schema, reason, Some(index)) in warnings
         case Call(_, _, _, Some(reason)) => ParseWarning(k, SeverityWarning, Payload, reason, None) in warnings
         case CallOutput(_, _, _, Some(reason)) => ParseWarning(k, SeverityWarning, Payload, reason, None) in warnings
         case Turn(_, _, _, Some(reason)) => ParseWarning(k, SeverityWarning, Payload, reason, None) in warnings
         case _ => true
  {
    index := CodexLine(lines, k);
    var own := Codex.LineOutput(lines[k], Codex.MetaSeen(lines, k), k, k == |lines| - 1, index);
    assert forall w :: w in own.warnings ==> w in Codex.Parsed(lines).warnings;
  }
}
