/**
 The Codex parser. As for Claude Code, a line is given by the shape the branches test; payload types
 that are handled alike share a constructor.
 */
module CodexParser {
  import opened Wrappers
  import opened Transcript
  import opened ParserOutput
  import opened EchoLinks

  const NO_PAYLOAD := "response_item missing payload"
  const NO_EVENT_TYPE := "event_msg missing payload.type"

  datatype Line =
    | Blank
    | Malformed
    | NotAnObject
    | Record(topTimestampProblem: Option<string>, payloadTimestampProblem: Option<string>, rawBytes: nat, body: Body)

  datatype Body =
    | NoType(clipped: string)
    | SessionMeta(text: string, bytes: nat)
    | NoPayload(clipped: string)
    | DuplicateOf(role: CanonicalKind)
    | Call(toolName: string, text: string, bytes: nat, problem: Option<string>)
    | CallOutput(toolName: string, text: string, bytes: nat, problem: Option<string>)
    | Note(text: string, bytes: nat)
    | Turn(role: CanonicalKind, text: string, bytes: nat, problem: Option<string>)
    | Compaction(text: string, bytes: nat)
    | MetadataRecord(category: MetaCategory, text: string)
    | NoEventType(clipped: string)
    | Unrecognised(reason: string, clipped: string)

  // ---------- what each line comes to ----------

  /** A row whose own problem, if any, is reported without naming it. */
  function WithProblem(row: Message, problem: Option<string>): Output {
    Output([row], Problem(row.lineOrdinal, Payload, problem).warnings)
  }

  function BodyOutput(body: Body, resumed: bool, line: nat, index: nat, rawBytes: nat): Output {
    match body
    case NoType(clipped) =>
      Output([Row(line, index, Unknown, clipped, rawBytes)], [Warn(line, SeverityError, Schema, MISSING_TYPE)])
    case SessionMeta(text, bytes) =>
      if resumed then
        Output([Row(line, index, Boundary, "session resumed", rawBytes)
                .(boundarySubtype := Some("session_resumed"))], [])
      else Output([Row(line, index, SystemNote, text, bytes)], [])
    case NoPayload(clipped) =>
      Output([Row(line, index, Unknown, clipped, rawBytes)], [WarnAt(line, SeverityError, Schema, NO_PAYLOAD, index)])
    case DuplicateOf(role) =>
      Output([Row(line, index, Metadata, "", rawBytes)
              .(metaCategory := Some(Echo), echoOf := Some(EchoOf(line, role)))], [])
    case Call(toolName, text, bytes, problem) =>
      WithProblem(Row(line, index, ToolUse, text, bytes).(toolName := Some(toolName)), problem)
    case CallOutput(toolName, text, bytes, problem) =>
      WithProblem(Row(line, index, ToolResult, text, bytes).(toolName := Some(toolName)), problem)
    case Note(text, bytes) => Output([Row(line, index, SystemNote, text, bytes)], [])
    case Turn(role, text, bytes, problem) => WithProblem(Row(line, index, role, text, bytes), problem)
    case Compaction(text, bytes) =>
      Output([Row(line, index, Boundary, text, bytes).(boundarySubtype := Some("compacted"))], [])
    case MetadataRecord(category, text) =>
      Output([Row(line, index, Metadata, text, rawBytes).(metaCategory := Some(category))], [])
    case NoEventType(clipped) =>
      Output([Row(line, index, Unknown, clipped, rawBytes)],
        [WarnAt(line, SeverityError, Schema, NO_EVENT_TYPE, index)])
    case Unrecognised(reason, clipped) =>
      Output([Row(line, index, Unknown, clipped, rawBytes)], [WarnAt(line, SeverityWarning, Schema, reason, index)])
  }

  function LineOutput(l: Line, resumed: bool, line: nat, isLast: bool, index: nat): Output {
    match l
    case Blank => if isLast then NOTHING else Output([], [Warn(line, SeverityError, Lexer, EMPTY_LINE)])
    case Malformed => Output([], [Warn(line, SeverityError, Lexer, MALFORMED_JSON)])
    case NotAnObject => Output([], [Warn(line, SeverityError, Lexer, NOT_AN_OBJECT)])
    case Record(top, inner, rawBytes, body) =>
      var row := BodyOutput(body, resumed, line, index, rawBytes);
      Join(Problem(line, Timestamp, top), Join(Problem(line, Timestamp, inner), row))
  }

  predicate IsSessionMeta(l: Line) {
    l.Record? && l.body.SessionMeta?
  }

  /** Some line before `n` carried session metadata. */
  predicate MetaSeen(lines: seq<Line>, n: nat)
    requires n <= |lines|
  {
    exists k :: 0 <= k < n && IsSessionMeta(lines[k])
  }

  function LineStep(lines: seq<Line>): (nat, nat) -> Output {
    (k: nat, index: nat) =>
      if k < |lines| then LineOutput(lines[k], MetaSeen(lines, k), k, k == |lines| - 1, index) else NOTHING
  }

  /** The rows before echo rows are resolved. */
  function Unresolved(lines: seq<Line>): Output {
    Fold(LineStep(lines), |lines|, 0)
  }

  function Parsed(lines: seq<Line>): Output {
    Output(Resolve(Unresolved(lines).messages), Unresolved(lines).warnings)
  }

  // ---------- the loop ----------

  method ParseLine(lines: seq<Line>, lineOrdinal: nat, sessionMetaSeen: bool, nextMessageIndex: nat)
    returns (out: Output, seen: bool)
    requires lineOrdinal < |lines| && sessionMetaSeen == MetaSeen(lines, lineOrdinal)
    ensures out == LineStep(lines)(lineOrdinal, nextMessageIndex)
    ensures seen == MetaSeen(lines, lineOrdinal + 1)
  {
    var line := lines[lineOrdinal];
    var isLast := lineOrdinal == |lines| - 1;
    assert LineStep(lines)(lineOrdinal, nextMessageIndex)
        == LineOutput(line, sessionMetaSeen, lineOrdinal, isLast, nextMessageIndex);
    seen := sessionMetaSeen;
    if line.Blank? && isLast {
      return NOTHING, seen;
    }
    if line.Blank? {
      return Output([], [Warn(lineOrdinal, SeverityError, Lexer, EMPTY_LINE)]), seen;
    }
    if line.Malformed? {
      return Output([], [Warn(lineOrdinal, SeverityError, Lexer, MALFORMED_JSON)]), seen;
    }
    if line.NotAnObject? {
      return Output([], [Warn(lineOrdinal, SeverityError, Lexer, NOT_AN_OBJECT)]), seen;
    }
    var warnings := [];
    if line.topTimestampProblem.Some? {
      warnings := [Warn(lineOrdinal, SeverityWarning, Timestamp, line.topTimestampProblem.value)];
    }
    if line.payloadTimestampProblem.Some? {
      warnings := warnings + [Warn(lineOrdinal, SeverityWarning, Timestamp, line.payloadTimestampProblem.value)];
    }
    var body := BodyOutput(line.body, seen, lineOrdinal, nextMessageIndex, line.rawBytes);
    if line.body.SessionMeta? {
      seen := true;
    }
    out := Output(body.messages, warnings + body.warnings);
  }

  method ParseCodex(lines: seq<Line>) returns (messages: seq<Message>, warnings: seq<ParseWarning>)
    ensures Output(messages, warnings) == Parsed(lines)
    ensures Contract(Output(messages, warnings), 0, 0, |lines|)
  {
    messages, warnings := [], [];
    var nextMessageIndex, sessionMetaSeen := 0, false;
    ghost var step := LineStep(lines);
    for lineOrdinal := 0 to |lines|
      invariant nextMessageIndex == |messages| && sessionMetaSeen == MetaSeen(lines, lineOrdinal)
      invariant Output(messages, warnings) == Fold(step, lineOrdinal, 0)
    {
      var out, seen := ParseLine(lines, lineOrdinal, sessionMetaSeen, nextMessageIndex);
      FoldNext(step, lineOrdinal, 0, Output(messages, warnings), nextMessageIndex, out);
      messages, warnings := messages + out.messages, warnings + out.warnings;
      nextMessageIndex, sessionMetaSeen := nextMessageIndex + |out.messages|, seen;
    }
    var before := messages;
    var rows := new Message[|before|](i requires 0 <= i < |before| => before[i]);
    assert rows[..] == before;
    ResolveEchoBackPointers(rows);
    messages := rows[..];
    ParsedKeepsContract(lines);
  }

  // ---------- the contract ----------

  lemma BodyKeepsContract(body: Body, resumed: bool, line: nat, index: nat, rawBytes: nat)
    ensures Contract(BodyOutput(body, resumed, line, index, rawBytes), index, line, line + 1)
  {
    RowKeepsContract(BodyOutput(body, resumed, line, index, rawBytes), index, line);
  }

  lemma LineKeepsContract(l: Line, resumed: bool, line: nat, isLast: bool, index: nat)
    ensures Contract(LineOutput(l, resumed, line, isLast, index), index, line, line + 1)
  {
    match l
    case Record(top, inner, rawBytes, body) =>
      var row := BodyOutput(body, resumed, line, index, rawBytes);
      BodyKeepsContract(body, resumed, line, index, rawBytes);
      ProblemBefore(line, inner, row, index);
      ProblemBefore(line, top, Join(Problem(line, Timestamp, inner), row), index);
    case _ =>
  }

  lemma ProblemBefore(line: nat, problem: Option<string>, rest: Output, index: nat)
    requires Contract(rest, index, line, line + 1)
    ensures Contract(Join(Problem(line, Timestamp, problem), rest), index, line, line + 1)
  {
    ProblemKeepsContract(line, Timestamp, problem, index);
    ContractJoins(Problem(line, Timestamp, problem), rest, index, line, line + 1, line, line + 1);
  }

  lemma UnresolvedKeepsContract(lines: seq<Line>)
    ensures Contract(Unresolved(lines), 0, 0, |lines|)
  {
    forall k: nat, i: nat ensures Contract(LineStep(lines)(k, i), i, k, k + 1) {
      if k < |lines| {
        LineKeepsContract(lines[k], MetaSeen(lines, k), k, k == |lines| - 1, i);
      }
    }
    FoldKeepsLines(LineStep(lines), |lines|);
  }

  /** The index contract, which resolving echo rows leaves as it was. */
  lemma ParsedKeepsContract(lines: seq<Line>)
    ensures Contract(Parsed(lines), 0, 0, |lines|)
  {
    UnresolvedKeepsContract(lines);
    var before, after := Unresolved(lines), Parsed(lines);
    forall i | 0 <= i < |after.warnings| ensures WarningOk(after.messages, 0, after.warnings[i]) {
      assert WarningOk(before.messages, 0, before.warnings[i]);
    }
  }

  // ---------- where echo rows point ----------

  /** As parsed, an echo row points at its own line. */
  predicate EchoesStartAtHome(messages: seq<Message>) {
    forall i :: 0 <= i < |messages| && IsEcho(messages[i]) ==>
      messages[i].echoOf.value.lineOrdinal == messages[i].lineOrdinal
  }

  lemma LineEchoesStartAtHome(l: Line, resumed: bool, line: nat, isLast: bool, index: nat)
    ensures EchoesStartAtHome(LineOutput(l, resumed, line, isLast, index).messages)
  {
  }

  lemma {:induction false} FoldEchoesStartAtHome(lines: seq<Line>, n: nat)
    requires n <= |lines|
    ensures EchoesStartAtHome(Fold(LineStep(lines), n, 0).messages)
  {
    if n > 0 {
      var before := Fold(LineStep(lines), n - 1, 0);
      FoldEchoesStartAtHome(lines, n - 1);
      LineEchoesStartAtHome(lines[n - 1], MetaSeen(lines, n - 1), n - 1, n == |lines|, |before.messages|);
    }
  }

  /** In the output an echo row points at the line of its link, and at its own line when it has none. */
  lemma EchoesPointAtTheirLink(lines: seq<Line>, i: nat)
    requires i < |Parsed(lines).messages| && IsEcho(Parsed(lines).messages[i])
    ensures var messages := Parsed(lines).messages;
      && (forall j: nat :: IsLink(messages, i, j) ==> messages[i].echoOf.value.lineOrdinal == messages[j].lineOrdinal)
      && ((forall j: nat :: !IsLink(messages, i, j)) ==>
            messages[i].echoOf.value.lineOrdinal == messages[i].lineOrdinal)
  {
    var before, after := Unresolved(lines).messages, Parsed(lines).messages;
    FoldEchoesStartAtHome(lines, |lines|);
    ResolveKeepsRows(before);
    TargetsAgree(before, after, i);
    TargetIsTheLink(after, i);
    if Target(after, i).Some? {
      assert IsLink(after, i, Target(after, i).value);
    }
  }
}
