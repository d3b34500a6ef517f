/** The typed message stream a session file parses to, its warnings, and the text tests on them. */
module Transcript {
  import opened Wrappers

  datatype MessageKind = User | Assistant | ToolUse | ToolResult | SystemNote | Unknown | Boundary | Metadata

  datatype MetaCategory = Control | Telemetry | Title | Attachment | Agent | Prompt | Context | Echo

  type CanonicalKind = k: MessageKind | k.User? || k.Assistant? witness User

  datatype EchoOf = EchoOf(lineOrdinal: nat, canonicalKind: CanonicalKind)

  datatype Message = Message(
    lineOrdinal: nat,
    messageIndex: nat,
    kind: MessageKind,
    text: string,
    toolName: Option<string>,
    boundarySubtype: Option<string>,
    bytes: nat,
    metaCategory: Option<MetaCategory>,
    echoOf: Option<EchoOf>)

  datatype Severity = SeverityError | SeverityWarning | SeverityInfo

  datatype WarningCategory = Lexer | Schema | Payload | Timestamp | Meta

  datatype ParseWarning = ParseWarning(
    lineOrdinal: nat, severity: Severity, category: WarningCategory, reason: string, messageIndex: Option<int>)

  /** `messageIndex` is the position in the stream, counted from `base` for a slice of it. */
  predicate IndexedFrom(messages: seq<Message>, base: nat) {
    forall i :: 0 <= i < |messages| ==> messages[i].messageIndex == base + i
  }

  // ---------- text tests ----------

  /** What `trim` and `\s` treat as white space. */
  predicate IsSpace(c: char) {
    || '\t' <= c <= '\r' || c == ' ' || c == '\U{A0}' || c == '\U{1680}' || '\U{2000}' <= c <= '\U{200A}'
    || c == '\U{2028}' || c == '\U{2029}' || c == '\U{202F}' || c == '\U{205F}' || c == '\U{3000}' || c == '\U{FEFF}'
  }

  predicate IsBlank(text: string) {
    forall i :: 0 <= i < |text| ==> IsSpace(text[i])
  }

  predicate StartsWith(text: string, prefix: string) {
    prefix <= text
  }

  predicate Includes(text: string, part: string) {
    exists i :: 0 <= i <= |text| && StartsWith(text[i..], part)
  }

  function Lower(text: string): (lower: string)
    ensures |lower| == |text|
  {
    seq(|text|, i requires 0 <= i < |text| => if 'A' <= text[i] <= 'Z' then text[i] - 'A' + 'a' else text[i])
  }

  function SkipSpaces(text: string): string {
    if text != [] && IsSpace(text[0]) then SkipSpaces(text[1..]) else text
  }

  /** After a field name: optional space, `:` or `=`, optional space. */
  function AfterSeparator(text: string): Option<string> {
    var rest := SkipSpaces(text);
    if rest != [] && rest[0] in ":=" then Some(SkipSpaces(rest[1..])) else None
  }

  predicate IsWordChar(c: char) {
    'a' <= c <= 'z' || 'A' <= c <= 'Z' || '0' <= c <= '9' || c == '_'
  }

  predicate IsWholeWord(text: string, word: string) {
    StartsWith(text, word) && (|text| == |word| || !IsWordChar(text[|word|]))
  }

  predicate NonZeroExitCodeAt(text: string) {
    && StartsWith(text, "exit_code")
    && var rest := text[9..];
    && var value := AfterSeparator(if rest != [] && rest[0] in "\"'" then rest[1..] else rest);
    && value.Some? && value.value != [] && '1' <= value.value[0] <= '9'
  }

  predicate FailedStatusAt(lower: string) {
    && var line := SkipSpaces(lower);
    && StartsWith(line, "status")
    && var value := AfterSeparator(line[6..]);
    && value.Some? && (IsWholeWord(value.value, "failed") || IsWholeWord(value.value, "error"))
  }

  /** The per-tool failure heuristic over a result's text. */
  predicate DetectFailure(message: Message) {
    && message.kind.ToolResult?
    && var text, lower := message.text, Lower(message.text);
    || Includes(lower, "\"is_error\":true") || Includes(lower, "\"is_error\": true")
    || Includes(lower, "\"iserror\":true") || Includes(lower, "\"iserror\": true")
    || Includes(lower, "\"success\":false") || Includes(lower, "\"success\": false")
    || (exists i :: 0 <= i <= |text| && NonZeroExitCodeAt(text[i..]))
    || (exists i :: 0 <= i <= |text| && (i == 0 || text[i - 1] == '\n') && FailedStatusAt(lower[i..]))
  }
}
