/** What every parser promises about the indices and lines in its output, and what the hints make of it. */
module ParserOutput {
  import opened Wrappers
  import opened Transcript
  import opened HintEmission
  import opened HintPasses
  import opened HintWarnings

  datatype Output = Output(messages: seq<Message>, warnings: seq<ParseWarning>)

  const NOTHING := Output([], [])

  const MISSING_TYPE := "missing top-level 'type' field"
  const EMPTY_LINE := "empty line"
  const MALFORMED_JSON := "malformed JSON"
  const NOT_AN_OBJECT := "top-level JSON value is not an object"

  function Row(line: nat, index: nat, kind: MessageKind, text: string, bytes: nat): Message {
    Message(line, index, kind, text, None, None, bytes, None, None)
  }

  function Warn(line: nat, severity: Severity, category: WarningCategory, reason: string): ParseWarning {
    ParseWarning(line, severity, category, reason, None)
  }

  function WarnAt(line: nat, severity: Severity, category: WarningCategory, reason: string, index: nat): ParseWarning {
    ParseWarning(line, severity, category, reason, Some(index))
  }

  function Join(a: Output, b: Output): Output {
    Output(a.messages + b.messages, a.warnings + b.warnings)
  }

  /** A warning that names a message names an unknown one, on its own line. */
  predicate WarningOk(messages: seq<Message>, base: nat, w: ParseWarning) {
    w.messageIndex.Some? ==>
      && base <= w.messageIndex.value < base + |messages|
      && messages[w.messageIndex.value - base].kind.Unknown?
      && messages[w.messageIndex.value - base].lineOrdinal == w.lineOrdinal
  }

  predicate IncreasingIndices(warnings: seq<ParseWarning>) {
    forall i, j :: 0 <= i < j < |warnings| && warnings[i].messageIndex.Some? && warnings[j].messageIndex.Some? ==>
      warnings[i].messageIndex.value < warnings[j].messageIndex.value
  }

  /** Lines lie in `from..to` and never go back. */
  predicate LinesAscend(messages: seq<Message>, from: nat, to: nat) {
    && (forall i :: 0 <= i < |messages| ==> from <= messages[i].lineOrdinal < to)
    && (forall i, j :: 0 <= i < j < |messages| ==> messages[i].lineOrdinal <= messages[j].lineOrdinal)
  }

  predicate WarningsOk(out: Output, base: nat, from: nat, to: nat) {
    forall i :: 0 <= i < |out.warnings| ==>
      from <= out.warnings[i].lineOrdinal < to && WarningOk(out.messages, base, out.warnings[i])
  }

  /**
   The index contract, for a stream whose first message has index `base` and whose lines are `from..to`:
   indices count up by one, lines never go back, and no two warnings name the same message.
   */
  predicate Contract(out: Output, base: nat, from: nat, to: nat) {
    && IndexedFrom(out.messages, base) && LinesAscend(out.messages, from, to)
    && WarningsOk(out, base, from, to) && IncreasingIndices(out.warnings)
  }

  /** Outputs join when the first ends at the line where the second starts, or before it. */
  lemma ContractJoins(a: Output, b: Output, base: nat, from: nat, aTo: nat, bFrom: nat, to: nat)
    requires Contract(a, base, from, aTo) && Contract(b, base + |a.messages|, bFrom, to)
    requires from <= bFrom && aTo <= to && aTo <= bFrom + 1
    ensures Contract(Join(a, b), base, from, to)
  {
    LinesJoin(a.messages, b.messages, from, aTo, bFrom, to);
    WarningsJoin(a, b, base, from, aTo, bFrom, to);
    IndicesJoin(a, b, base, from, aTo, bFrom, to);
  }

  lemma LinesJoin(a: seq<Message>, b: seq<Message>, from: nat, aTo: nat, bFrom: nat, to: nat)
    requires LinesAscend(a, from, aTo) && LinesAscend(b, bFrom, to)
    requires from <= bFrom && aTo <= to && aTo <= bFrom + 1
    ensures LinesAscend(a + b, from, to)
  {
  }

  lemma WarningsJoin(a: Output, b: Output, base: nat, from: nat, aTo: nat, bFrom: nat, to: nat)
    requires WarningsOk(a, base, from, aTo) && WarningsOk(b, base + |a.messages|, bFrom, to)
    requires from <= bFrom && aTo <= to
    ensures WarningsOk(Join(a, b), base, from, to)
  {
    var out := Join(a, b);
    forall i | 0 <= i < |out.warnings|
      ensures from <= out.warnings[i].lineOrdinal < to && WarningOk(out.messages, base, out.warnings[i])
    {
      if i < |a.warnings| {
        assert out.warnings[i] == a.warnings[i] && WarningOk(a.messages, base, a.warnings[i]);
      } else {
        var w := b.warnings[i - |a.warnings|];
        assert out.warnings[i] == w && WarningOk(b.messages, base + |a.messages|, w);
      }
    }
  }

  lemma IndicesJoin(a: Output, b: Output, base: nat, from: nat, aTo: nat, bFrom: nat, to: nat)
    requires WarningsOk(a, base, from, aTo) && WarningsOk(b, base + |a.messages|, bFrom, to)
    requires IncreasingIndices(a.warnings) && IncreasingIndices(b.warnings)
    ensures IncreasingIndices(a.warnings + b.warnings)
  {
    var all := a.warnings + b.warnings;
    forall i, j | 0 <= i < j < |all| && all[i].messageIndex.Some? && all[j].messageIndex.Some?
      ensures all[i].messageIndex.value < all[j].messageIndex.value
    {
      if i < |a.warnings| <= j {
        assert WarningOk(a.messages, base, a.warnings[i]);
        assert WarningOk(b.messages, base + |a.messages|, b.warnings[j - |a.warnings|]);
      }
    }
  }

  /** One row, with at most one warning, which may name the row if it is unknown. */
  lemma RowKeepsContract(out: Output, index: nat, line: nat)
    requires |out.messages| == 1 && out.messages[0].messageIndex == index && out.messages[0].lineOrdinal == line
    requires |out.warnings| <= 1
    requires |out.warnings| == 1 ==>
      && out.warnings[0].lineOrdinal == line
      && (out.warnings[0].messageIndex == None
          || (out.warnings[0].messageIndex == Some(index) && out.messages[0].kind.Unknown?))
    ensures Contract(out, index, line, line + 1)
  {
  }

  /** A warning that names no message, if there is a problem to report. */
  function Problem(line: nat, category: WarningCategory, problem: Option<string>): Output {
    match problem
    case None => NOTHING
    case Some(reason) => Output([], [Warn(line, SeverityWarning, category, reason)])
  }

  lemma ProblemKeepsContract(line: nat, category: WarningCategory, problem: Option<string>, index: nat)
    ensures Contract(Problem(line, category, problem), index, line, line + 1)
  {
  }

  // ---------- outputs one after the other ----------

  /** The outputs of steps `0..n`, each told the index its first message gets. */
  function Fold(step: (nat, nat) -> Output, n: nat, index: nat): Output {
    if n == 0 then NOTHING
    else
      var before := Fold(step, n - 1, index);
      Join(before, step(n - 1, index + |before.messages|))
  }

  lemma FoldNext(step: (nat, nat) -> Output, n: nat, index: nat, before: Output, next: nat, one: Output)
    requires before == Fold(step, n, index) && next == index + |before.messages| && one == step(n, next)
    ensures Fold(step, n + 1, index) == Join(before, one)
    ensures |Join(before, one).messages| == |before.messages| + |one.messages|
  {
  }

  /** Steps on one line. */
  lemma {:induction false} FoldKeepsLine(step: (nat, nat) -> Output, n: nat, index: nat, line: nat)
    requires forall k: nat, i: nat :: Contract(step(k, i), i, line, line + 1)
    ensures Contract(Fold(step, n, index), index, line, line + 1)
  {
    if n > 0 {
      var before := Fold(step, n - 1, index);
      FoldKeepsLine(step, n - 1, index, line);
      ContractJoins(before, step(n - 1, index + |before.messages|), index, line, line + 1, line, line + 1);
    }
  }

  /** Step `k` on line `k`. */
  lemma {:induction false} FoldKeepsLines(step: (nat, nat) -> Output, n: nat)
    requires forall k: nat, i: nat :: Contract(step(k, i), i, k, k + 1)
    ensures Contract(Fold(step, n, 0), 0, 0, n)
  {
    if n > 0 {
      var before := Fold(step, n - 1, 0);
      FoldKeepsLines(step, n - 1);
      ContractJoins(before, step(n - 1, |before.messages|), 0, 0, n - 1, n - 1, n);
    }
  }

  // ---------- from the parser to the hints ----------

  /** The inline form of the warnings that name a message. */
  function Indexed(warnings: seq<ParseWarning>): seq<InlineWarning> {
    if warnings == [] then []
    else
      var n := |warnings| - 1;
      Indexed(warnings[..n]) + if warnings[n].messageIndex.Some? then [Inline(warnings[n])] else []
  }

  lemma {:induction false} IndexedArePlaced(messages: seq<Message>, warnings: seq<ParseWarning>)
    requires forall i :: 0 <= i < |warnings| ==> WarningOk(messages, 0, warnings[i])
    ensures Placed(messages, warnings) == Indexed(warnings)
  {
    if warnings != [] {
      var n := |warnings| - 1;
      assert WarningOk(messages, 0, warnings[n]);
      IndexedArePlaced(messages, warnings[..n]);
    }
  }

  /** Every warning a parser ties to a message ends on exactly one hint, and nothing else does but the stray chips. */
  lemma IndexedWarningsLandOnce(out: Output, lines: nat)
    requires Contract(out, 0, 0, lines)
    ensures multiset(AllWarnings(HintsFor(out.messages, out.warnings)))
         == multiset(Indexed(out.warnings)) + multiset(StrayChips(out.messages, 0))
  {
    WarningsLandExactlyOnce(out.messages, out.warnings);
    IndexedArePlaced(out.messages, out.warnings);
  }
}
