/**
 The Claude Code parser. A line is given by the shape the parser's branches test; the texts it would
 format are carried along as they are.
 */
module ClaudeCodeParser {
  import opened Wrappers
  import opened Transcript
  import opened ParserOutput

  const NON_OBJECT_ITEM := "non-object item in content array"
  const UNKNOWN_ASSISTANT_ITEM := "unknown assistant content item type"
  const UNKNOWN_USER_ITEM := "unknown user content item type"
  const ODD_CONTENT := "/message/content is neither string nor array"

  datatype Line =
    | Blank
    | Malformed
    | NotAnObject
    | Record(timestampProblem: Option<string>, rawBytes: nat, body: Body)

  datatype Body =
    | NoType(text: string)
    | Turn(role: CanonicalKind, roleProblem: Option<string>, content: Content, clipped: string)
    | SystemRecord(text: string, bytes: nat)
    | MetadataRecord(category: MetaCategory, text: string)
    | UnknownType(problem: string, clipped: string)

  datatype Content = Text(text: string, bytes: nat) | Items(items: seq<Item>) | Neither

  datatype Item =
    | NonObject
    | TextItem(text: string, bytes: nat)
    | ToolResultItem(text: string, bytes: nat, toolUseId: Option<string>)
    | ToolUseItem(text: string, bytes: nat, name: Option<string>)
    | ThinkingItem(text: string, bytes: nat)
    | OtherItem

  // ---------- what each line comes to ----------

  function UnknownItemReason(role: CanonicalKind): string {
    if role.User? then UNKNOWN_USER_ITEM else UNKNOWN_ASSISTANT_ITEM
  }

  /** An unknown row with the warning that names it. */
  function UnknownItem(role: CanonicalKind, line: nat, index: nat, rawBytes: nat): Output {
    Output([Row(line, index, Unknown, "", rawBytes)],
           [WarnAt(line, SeverityWarning, Payload, UnknownItemReason(role), index)])
  }

  function ItemOutput(role: CanonicalKind, item: Item, line: nat, index: nat, rawBytes: nat): Output {
    match item
    case NonObject => Output([], [Warn(line, SeverityWarning, Payload, NON_OBJECT_ITEM)])
    case TextItem(text, bytes) => Output([Row(line, index, role, text, bytes)], [])
    case ToolResultItem(text, bytes, id) =>
      if role.User? then Output([Row(line, index, ToolResult, text, bytes).(toolName := id)], [])
      else UnknownItem(role, line, index, rawBytes)
    case ToolUseItem(text, bytes, name) =>
      if role.Assistant? then Output([Row(line, index, ToolUse, text, bytes).(toolName := name)], [])
      else UnknownItem(role, line, index, rawBytes)
    case ThinkingItem(text, bytes) =>
      if role.Assistant? then Output([Row(line, index, Assistant, text, bytes)], [])
      else UnknownItem(role, line, index, rawBytes)
    case OtherItem =>
      UnknownItem(role, line, index, rawBytes)
  }

  function ItemStep(role: CanonicalKind, items: seq<Item>, line: nat, rawBytes: nat): (nat, nat) -> Output {
    (k: nat, index: nat) => if k < |items| then ItemOutput(role, items[k], line, index, rawBytes) else NOTHING
  }

  function ItemsOutput(role: CanonicalKind, items: seq<Item>, line: nat, index: nat, rawBytes: nat): Output {
    Fold(ItemStep(role, items, line, rawBytes), |items|, index)
  }

  function ContentOutput(role: CanonicalKind, content: Content, clipped: string, line: nat, index: nat, rawBytes: nat)
    : Output
  {
    match content
    case Text(text, bytes) => Output([Row(line, index, role, text, bytes)], [])
    case Items(items) => ItemsOutput(role, items, line, index, rawBytes)
    case Neither =>
      Output([Row(line, index, Unknown, clipped, rawBytes)],
             [WarnAt(line, SeverityWarning, Payload, ODD_CONTENT, index)])
  }

  function BodyOutput(body: Body, line: nat, index: nat, rawBytes: nat): Output {
    match body
    case NoType(text) =>
      Output([Row(line, index, Unknown, text, rawBytes)],
             [Warn(line, SeverityError, Schema, MISSING_TYPE)])
    case Turn(role, roleProblem, content, clipped) =>
      Join(Problem(line, Schema, roleProblem), ContentOutput(role, content, clipped, line, index, rawBytes))
    case SystemRecord(text, bytes) => Output([Row(line, index, SystemNote, text, bytes)], [])
    case MetadataRecord(category, text) =>
      Output([Row(line, index, Metadata, text, rawBytes).(metaCategory := Some(category))], [])
    case UnknownType(problem, clipped) =>
      Output([Row(line, index, Unknown, clipped, rawBytes)], [WarnAt(line, SeverityWarning, Schema, problem, index)])
  }

  function LineOutput(l: Line, line: nat, isLast: bool, index: nat): Output {
    match l
    case Blank => if isLast then NOTHING else Output([], [Warn(line, SeverityError, Lexer, EMPTY_LINE)])
    case Malformed => Output([], [Warn(line, SeverityError, Lexer, MALFORMED_JSON)])
    case NotAnObject => Output([], [Warn(line, SeverityError, Lexer, NOT_AN_OBJECT)])
    case Record(timestampProblem, rawBytes, body) =>
      Join(Problem(line, Timestamp, timestampProblem), BodyOutput(body, line, index, rawBytes))
  }

  function LineStep(lines: seq<Line>): (nat, nat) -> Output {
    (k: nat, index: nat) => if k < |lines| then LineOutput(lines[k], k, k == |lines| - 1, index) else NOTHING
  }

  /** The output of a whole document. */
  function Parsed(lines: seq<Line>): Output {
    Fold(LineStep(lines), |lines|, 0)
  }

  // ---------- the loops ----------

  /** The branch taken for one content item. */
  method ParseItem(role: CanonicalKind, items: seq<Item>, k: nat, line: nat, nextMessageIndex: nat, rawBytes: nat)
    returns (out: Output)
    requires k < |items|
    ensures out == ItemStep(role, items, line, rawBytes)(k, nextMessageIndex)
  {
    var item := items[k];
    if item.NonObject? {
      return Output([], [Warn(line, SeverityWarning, Payload, NON_OBJECT_ITEM)]);
    }
    if item.TextItem? {
      return Output([Row(line, nextMessageIndex, role, item.text, item.bytes)], []);
    }
    if role.User? && item.ToolResultItem? {
      return Output([Row(line, nextMessageIndex, ToolResult, item.text, item.bytes).(toolName := item.toolUseId)], []);
    }
    if role.Assistant? && item.ToolUseItem? {
      return Output([Row(line, nextMessageIndex, ToolUse, item.text, item.bytes).(toolName := item.name)], []);
    }
    if role.Assistant? && item.ThinkingItem? {
      return Output([Row(line, nextMessageIndex, Assistant, item.text, item.bytes)], []);
    }
    out := UnknownItem(role, line, nextMessageIndex, rawBytes);
  }

  method ParseItems(role: CanonicalKind, items: seq<Item>, line: nat, firstIndex: nat, rawBytes: nat)
    returns (out: Output)
    ensures out == ItemsOutput(role, items, line, firstIndex, rawBytes)
  {
    ghost var step := ItemStep(role, items, line, rawBytes);
    out := NOTHING;
    var nextMessageIndex := firstIndex;
    for k := 0 to |items|
      invariant nextMessageIndex == firstIndex + |out.messages|
      invariant out == Fold(step, k, firstIndex)
    {
      var one := ParseItem(role, items, k, line, nextMessageIndex, rawBytes);
      FoldNext(step, k, firstIndex, out, nextMessageIndex, one);
      out := Join(out, one);
      nextMessageIndex := nextMessageIndex + |one.messages|;
    }
  }

  method ParseBody(body: Body, line: nat, nextMessageIndex: nat, rawBytes: nat) returns (out: Output)
    ensures out == BodyOutput(body, line, nextMessageIndex, rawBytes)
  {
    match body {
      case NoType(text) =>
        out := Output([Row(line, nextMessageIndex, Unknown, text, rawBytes)],
                      [Warn(line, SeverityError, Schema, MISSING_TYPE)]);
      case Turn(role, roleProblem, content, clipped) =>
        var problems := if roleProblem.Some? then [Warn(line, SeverityWarning, Schema, roleProblem.value)] else [];
        var parsed;
        match content {
          case Text(text, bytes) => parsed := Output([Row(line, nextMessageIndex, role, text, bytes)], []);
          case Items(items) => parsed := ParseItems(role, items, line, nextMessageIndex, rawBytes);
          case Neither =>
            parsed := Output([Row(line, nextMessageIndex, Unknown, clipped, rawBytes)],
              [WarnAt(line, SeverityWarning, Payload, ODD_CONTENT, nextMessageIndex)]);
        }
        out := Output(parsed.messages, problems + parsed.warnings);
      case SystemRecord(text, bytes) =>
        out := Output([Row(line, nextMessageIndex, SystemNote, text, bytes)], []);
      case MetadataRecord(category, text) =>
        out := Output([Row(line, nextMessageIndex, Metadata, text, rawBytes).(metaCategory := Some(category))], []);
      case UnknownType(problem, clipped) =>
        out := Output([Row(line, nextMessageIndex, Unknown, clipped, rawBytes)],
                      [WarnAt(line, SeverityWarning, Schema, problem, nextMessageIndex)]);
    }
  }

  method ParseLine(l: Line, line: nat, isLast: bool, nextMessageIndex: nat) returns (out: Output)
    ensures out == LineOutput(l, line, isLast, nextMessageIndex)
  {
    match l {
      case Blank =>
        out := if isLast then NOTHING else Output([], [Warn(line, SeverityError, Lexer, EMPTY_LINE)]);
      case Malformed =>
        out := Output([], [Warn(line, SeverityError, Lexer, MALFORMED_JSON)]);
      case NotAnObject =>
        out := Output([], [Warn(line, SeverityError, Lexer, NOT_AN_OBJECT)]);
      case Record(timestampProblem, rawBytes, body) =>
        out := ParseBody(body, line, nextMessageIndex, rawBytes);
        if timestampProblem.Some? {
          out := Output(out.messages, [Warn(line, SeverityWarning, Timestamp, timestampProblem.value)] + out.warnings);
        }
    }
  }

  method ParseClaudeCode(lines: seq<Line>) returns (messages: seq<Message>, warnings: seq<ParseWarning>)
    ensures Output(messages, warnings) == Parsed(lines)
    ensures Contract(Output(messages, warnings), 0, 0, |lines|)
  {
    messages, warnings := [], [];
    var nextMessageIndex := 0;
    for lineOrdinal := 0 to |lines|
      invariant nextMessageIndex == |messages|
      invariant Output(messages, warnings) == Fold(LineStep(lines), lineOrdinal, 0)
    {
      var out := ParseLine(lines[lineOrdinal], lineOrdinal, lineOrdinal == |lines| - 1, nextMessageIndex);
      FoldNext(LineStep(lines), lineOrdinal, 0, Output(messages, warnings), nextMessageIndex, out);
      messages, warnings := messages + out.messages, warnings + out.warnings;
      nextMessageIndex := nextMessageIndex + |out.messages|;
    }
    ParsedKeepsContract(lines);
  }

  // ---------- the contract ----------

  lemma ItemKeepsContract(role: CanonicalKind, item: Item, line: nat, index: nat, rawBytes: nat)
    ensures Contract(ItemOutput(role, item, line, index, rawBytes), index, line, line + 1)
  {
  }

  lemma ItemsKeepContract(role: CanonicalKind, items: seq<Item>, line: nat, index: nat, rawBytes: nat)
    ensures Contract(ItemsOutput(role, items, line, index, rawBytes), index, line, line + 1)
  {
    var step := ItemStep(role, items, line, rawBytes);
    forall k: nat, i: nat ensures Contract(step(k, i), i, line, line + 1) {
      if k < |items| {
        ItemKeepsContract(role, items[k], line, i, rawBytes);
      }
    }
    FoldKeepsLine(step, |items|, index, line);
  }

  lemma ContentKeepsContract(role: CanonicalKind, content: Content, clipped: string, line: nat, index: nat,
                             rawBytes: nat)
    ensures Contract(ContentOutput(role, content, clipped, line, index, rawBytes), index, line, line + 1)
  {
    if content.Items? {
      ItemsKeepContract(role, content.items, line, index, rawBytes);
    }
  }

  lemma BodyKeepsContract(body: Body, line: nat, index: nat, rawBytes: nat)
    ensures Contract(BodyOutput(body, line, index, rawBytes), index, line, line + 1)
  {
    match body
    case Turn(role, roleProblem, content, clipped) =>
      ProblemKeepsContract(line, Schema, roleProblem, index);
      ContentKeepsContract(role, content, clipped, line, index, rawBytes);
      ContractJoins(Problem(line, Schema, roleProblem), ContentOutput(role, content, clipped, line, index, rawBytes),
                    index, line, line + 1, line, line + 1);
    case _ => RowKeepsContract(BodyOutput(body, line, index, rawBytes), index, line);
  }

  lemma LineKeepsContract(l: Line, line: nat, isLast: bool, index: nat)
    ensures Contract(LineOutput(l, line, isLast, index), index, line, line + 1)
  {
    match l
    case Record(timestampProblem, rawBytes, body) =>
      ProblemKeepsContract(line, Timestamp, timestampProblem, index);
      BodyKeepsContract(body, line, index, rawBytes);
      ContractJoins(Problem(line, Timestamp, timestampProblem), BodyOutput(body, line, index, rawBytes),
                    index, line, line + 1, line, line + 1);
    case _ =>
  }

  /** Indices are positions, lines never go back, and every indexed warning names an unknown message on its own line. */
  lemma ParsedKeepsContract(lines: seq<Line>)
    ensures Contract(Parsed(lines), 0, 0, |lines|)
  {
    forall k: nat, i: nat ensures Contract(LineStep(lines)(k, i), i, k, k + 1) {
      if k < |lines| {
        LineKeepsContract(lines[k], k, k == |lines| - 1, i);
      }
    }
    FoldKeepsLines(LineStep(lines), |lines|);
  }
}
