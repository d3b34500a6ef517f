/** Which texts of a tool result count as a failure. */
module FailureSignals {
  import opened Wrappers
  import opened Transcript

  lemma {:induction false} FoundInside(before: string, part: string, after: string)
    ensures Includes(before + part + after, part)
    ensures StartsWith((before + part + after)[|before|..], part)
  {
    assert (before + part + after)[|before|..] == part + after;
  }

  /** Lower case changes the 26 capital letters and nothing else. */
  lemma {:induction false} LowerIsExact(text: string, i: nat)
    requires i < |text|
    ensures |Lower(text)| == |text|
    ensures Lower(text)[i] as int == if 65 <= text[i] as int <= 90 then text[i] as int + 32 else text[i] as int
  {
  }

  /** The JSON flags count wherever they stand. */
  lemma {:induction false} FlagIsAFailure(m: Message, before: string, flag: string, after: string)
    requires m.kind == ToolResult && Lower(m.text) == before + flag + after
    requires flag in {"\"is_error\":true", "\"is_error\": true", "\"iserror\":true", "\"iserror\": true",
                      "\"success\":false", "\"success\": false"}
    ensures DetectFailure(m)
  {
    FoundInside(before, flag, after);
  }

  lemma {:induction false} ExitCodeAt(text: string, quote: string, rest: string, value: string)
    requires text == "exit_code" + (quote + rest) && quote in {"", "\"", "'"}
    requires rest != "" && rest[0] !in "\"'" && AfterSeparator(rest) == Some(value)
    requires value != "" && '1' <= value[0] <= '9'
    ensures NonZeroExitCodeAt(text)
  {
    assert text[9..] == quote + rest;
    if quote == "" {
      assert quote + rest == rest;
    } else {
      assert (quote + rest)[1..] == rest;
    }
  }

  /** So does an exit code that is not zero. */
  lemma {:induction false} ExitCodeIsAFailure(
    m: Message, before: string, quote: string, separator: string, digit: char, after: string)
    requires m.kind == ToolResult
    requires m.text == before + ("exit_code" + (quote + (separator + ([digit] + after))))
    requires quote in {"", "\"", "'"} && separator in {":", "=", ": ", "= "} && '1' <= digit <= '9'
    ensures DetectFailure(m)
  {
    var rest := separator + ([digit] + after);
    var text := "exit_code" + (quote + rest);
    assert m.text[|before|..] == text;
    SeparatorIsSkipped(separator, [digit] + after);
    ExitCodeAt(text, quote, rest, [digit] + after);
  }

  lemma {:induction false} SeparatorIsSkipped(separator: string, value: string)
    requires separator in {":", "=", ": ", "= "} && value != "" && !IsSpace(value[0])
    ensures AfterSeparator(separator + value) == Some(value)
  {
    var text := separator + value;
    assert SkipSpaces(text) == text;
    if |separator| == 1 {
      assert text[1..] == value;
    } else {
      assert text[1..] == " " + value && (" " + value)[1..] == value;
      assert SkipSpaces(" " + value) == SkipSpaces(value);
    }
    assert SkipSpaces(value) == value;
  }

  lemma {:induction false} WordEnds(word: string, after: string)
    requires after == "" || !IsWordChar(after[0])
    ensures IsWholeWord(word + after, word)
  {
    assert (word + after)[..|word|] == word;
  }

  lemma {:induction false} StatusAt(lower: string, word: string, after: string)
    requires lower == "status" + (": " + (word + after)) && word in {"failed", "error"}
    requires after == "" || !IsWordChar(after[0])
    ensures FailedStatusAt(lower)
  {
    assert SkipSpaces(lower) == lower && lower[6..] == ": " + (word + after);
    SeparatorIsSkipped(": ", word + after);
    WordEnds(word, after);
  }

  /** And a status line that says failed or error. */
  lemma {:induction false} StatusLineIsAFailure(m: Message, before: string, word: string, after: string)
    requires m.kind == ToolResult && Lower(m.text) == before + ("status" + (": " + (word + after)))
    requires word in {"failed", "error"} && (after == "" || !IsWordChar(after[0]))
    requires before == "" || m.text[|before| - 1] == '\n'
    ensures DetectFailure(m)
  {
    var line := "status" + (": " + (word + after));
    assert Lower(m.text)[|before|..] == line;
    StatusAt(line, word, after);
  }

  lemma {:induction false} SkipSpacesIsSuffix(text: string)
    ensures |SkipSpaces(text)| <= |text| && SkipSpaces(text) == text[|text| - |SkipSpaces(text)|..]
  {
    if text != [] && IsSpace(text[0]) {
      SkipSpacesIsSuffix(text[1..]);
    }
  }

  /** A part of a part. */
  lemma {:induction false} PartOfPart(text: string, i: nat, part: string, k: nat, inner: string)
    requires i <= |text| && StartsWith(text[i..], part) && k <= |part| && StartsWith(part[k..], inner)
    ensures Includes(text, inner)
  {
    assert StartsWith(text[i + k..], inner) by {
      assert text[i..][..|part|] == part;
      assert text[i + k..][..|inner|] == part[k..][..|inner|];
    }
  }

  lemma {:induction false} NoneIncluded(text: string, part: string, k: nat, inner: string)
    requires k <= |part| && StartsWith(part[k..], inner) && !Includes(text, inner)
    ensures !Includes(text, part)
  {
    forall i | 0 <= i <= |text| ensures !StartsWith(text[i..], part) {
      if StartsWith(text[i..], part) {
        PartOfPart(text, i, part, k, inner);
      }
    }
  }

  lemma {:induction false} NoStatusLine(lower: string, i: nat)
    requires i <= |lower| && !Includes(lower, "status")
    ensures !FailedStatusAt(lower[i..])
  {
    var line := SkipSpaces(lower[i..]);
    SkipSpacesIsSuffix(lower[i..]);
    assert lower[|lower| - |line|..] == line;
  }

  /** A text with none of the words is no failure, and neither is anything but a tool result. */
  lemma {:induction false} NoSignalIsNoFailure(m: Message)
    requires m.kind != ToolResult ||
      (!Includes(Lower(m.text), "error") && !Includes(Lower(m.text), "success")
       && !Includes(m.text, "exit_code") && !Includes(Lower(m.text), "status"))
    ensures !DetectFailure(m)
  {
    if m.kind == ToolResult {
      var lower := Lower(m.text);
      NoneIncluded(lower, "\"is_error\":true", 4, "error");
      NoneIncluded(lower, "\"is_error\": true", 4, "error");
      NoneIncluded(lower, "\"iserror\":true", 3, "error");
      NoneIncluded(lower, "\"iserror\": true", 3, "error");
      NoneIncluded(lower, "\"success\":false", 1, "success");
      NoneIncluded(lower, "\"success\": false", 1, "success");
      forall i | 0 <= i <= |m.text| ensures !NonZeroExitCodeAt(m.text[i..]) {
      }
      forall i | 0 <= i <= |lower| ensures !FailedStatusAt(lower[i..]) {
        NoStatusLine(lower, i);
      }
    }
  }
}
