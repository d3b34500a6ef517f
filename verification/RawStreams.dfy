/** The two capped readers of a raw session stream. A stream is the list of chunks its reader delivers. */
module RawStreams {
  import opened Utf8
  import opened Sequences

  const STREAM_RAW_TEXT_BYTE_CAP: nat := 5 * 1024 * 1024
  const RAW_PREVIEW_LINE_CAP: nat := 20
  const RAW_PREVIEW_BYTE_CAP: nat := 256 * 1024

  function Concat(chunks: seq<seq<Byte>>): seq<Byte> {
    if chunks == [] then [] else Concat(chunks[..|chunks| - 1]) + chunks[|chunks| - 1]
  }

  lemma ConcatNext(chunks: seq<seq<Byte>>, i: nat)
    requires i < |chunks|
    ensures Concat(chunks[..i + 1]) == Concat(chunks[..i]) + chunks[i]
  {
    assert chunks[..i + 1][..i] == chunks[..i];
  }

  lemma {:induction false} ConcatIsPrefix(chunks: seq<seq<Byte>>, i: nat)
    requires i <= |chunks|
    ensures |Concat(chunks[..i])| <= |Concat(chunks)|
    ensures Concat(chunks[..i]) == Concat(chunks)[..|Concat(chunks[..i])|]
    decreases |chunks| - i
  {
    if i == |chunks| {
      assert chunks[..i] == chunks;
    } else {
      ConcatNext(chunks, i);
      ConcatIsPrefix(chunks, i + 1);
    }
  }

  // ---------- streamRawText ----------

  /** The part of a stream the cap lets through. */
  function Accepted(bytes: seq<Byte>): seq<Byte> {
    if |bytes| <= STREAM_RAW_TEXT_BYTE_CAP then bytes else bytes[..STREAM_RAW_TEXT_BYTE_CAP]
  }

  datatype RawText = RawText(text: string, totalBytes: nat, truncated: bool)

  /**
   However the bytes are chunked: exactly the first bytes up to the cap are taken, the text is their
   decoding, and `truncated` says whether anything was left.
   */
  method StreamRawText(chunks: seq<seq<Byte>>) returns (result: RawText)
    ensures result.text == Decode(Accepted(Concat(chunks)))
    ensures result.totalBytes == |Accepted(Concat(chunks))|
    ensures result.truncated <==> |Concat(chunks)| > STREAM_RAW_TEXT_BYTE_CAP
    ensures result.totalBytes == if |Concat(chunks)| <= 5_242_880 then |Concat(chunks)| else 5_242_880
    ensures result.text == Decode(Concat(chunks)[..result.totalBytes])
  {
    var decoder := NEW_DECODER;
    var text, totalBytes := "", 0;
    for i := 0 to |chunks|
      invariant totalBytes == |Concat(chunks[..i])| <= STREAM_RAW_TEXT_BYTE_CAP
      invariant Feed(NEW_DECODER, Concat(chunks[..i])) == (decoder, text)
    {
      var value := chunks[i];
      ConcatNext(chunks, i);
      if totalBytes + |value| > STREAM_RAW_TEXT_BYTE_CAP {
        var room := STREAM_RAW_TEXT_BYTE_CAP - totalBytes;
        CapTrips(chunks, i, room);
        TextIsComplete(Concat(chunks[..i]), value[..room], decoder, text);
        return RawText(text + FeedLast(decoder, value[..room]), totalBytes + room, true);
      }
      totalBytes := totalBytes + |value|;
      TextGrows(Concat(chunks[..i]), value, decoder, text);
      var (next, decoded) := Feed(decoder, value);
      decoder, text := next, text + decoded;
    }
    assert chunks[..|chunks|] == chunks;
    assert Concat(chunks)[..totalBytes] == Concat(chunks);
    return RawText(text + Flush(decoder), totalBytes, false);
  }

  lemma CapTrips(chunks: seq<seq<Byte>>, i: nat, room: nat)
    requires i < |chunks| && room < |chunks[i]| && |Concat(chunks[..i])| + room == STREAM_RAW_TEXT_BYTE_CAP
    ensures |Concat(chunks)| > STREAM_RAW_TEXT_BYTE_CAP
    ensures Accepted(Concat(chunks)) == Concat(chunks[..i]) + chunks[i][..room]
  {
    ConcatNext(chunks, i);
    ConcatIsPrefix(chunks, i + 1);
    var before, all := Concat(chunks[..i]), Concat(chunks);
    assert (before + chunks[i])[..STREAM_RAW_TEXT_BYTE_CAP] == before + chunks[i][..room];
    assert all[..|before + chunks[i]|][..STREAM_RAW_TEXT_BYTE_CAP] == all[..STREAM_RAW_TEXT_BYTE_CAP];
  }

  /** One more chunk on top of the bytes decoded so far. */
  lemma TextGrows(before: seq<Byte>, value: seq<Byte>, decoder: Decoder, text: string)
    requires Feed(NEW_DECODER, before) == (decoder, text)
    ensures Feed(NEW_DECODER, before + value) == (Feed(decoder, value).0, text + Feed(decoder, value).1)
  {
    FeedAppend(NEW_DECODER, before, value);
  }

  /** The last chunk on top of the bytes decoded so far. */
  lemma TextIsComplete(before: seq<Byte>, value: seq<Byte>, decoder: Decoder, text: string)
    requires Feed(NEW_DECODER, before) == (decoder, text)
    ensures Decode(before + value) == text + FeedLast(decoder, value)
  {
    TextGrows(before, value, decoder, text);
    var (last, decoded) := Feed(decoder, value);
    Associate(text, decoded, Flush(last));
  }

  /** The chunks one after the other: nothing lost, nothing added. */
  lemma {:induction false} ConcatKeepsEveryByte(chunks: seq<seq<Byte>>, i: nat, j: nat)
    requires i < |chunks| && j < |chunks[i]|
    ensures |Concat(chunks[..i])| + j < |Concat(chunks)|
    ensures Concat(chunks)[|Concat(chunks[..i])| + j] == chunks[i][j]
  {
    ConcatNext(chunks, i);
    ConcatIsPrefix(chunks, i + 1);
    assert Concat(chunks[..i + 1])[|Concat(chunks[..i])| + j] == chunks[i][j];
  }

  // ---------- consumeRawPreview ----------

  function IndexOfNewline(text: string): (i: nat)
    ensures i <= |text| && (i < |text| ==> text[i] == '\n')
    ensures forall k :: 0 <= k < i ==> text[k] != '\n'
  {
    if text == "" || text[0] == '\n' then 0 else 1 + IndexOfNewline(text[1..])
  }

  /** The lines that are complete, and the fragment after the last newline. */
  function CompleteLines(text: string): seq<string>
    decreases |text|
  {
    var i := IndexOfNewline(text);
    if i == |text| then [] else [text[..i]] + CompleteLines(text[i + 1..])
  }

  function Fragment(text: string): string
    decreases |text|
  {
    var i := IndexOfNewline(text);
    if i == |text| then text else Fragment(text[i + 1..])
  }

  /** The newline split of a whole text: a non-empty fragment is its last line. */
  function Lines(text: string): seq<string> {
    CompleteLines(text) + if Fragment(text) == "" then [] else [Fragment(text)]
  }

  /** Each line with the newline behind it. */
  function Unlines(lines: seq<string>): string {
    if lines == [] then "" else lines[0] + "\n" + Unlines(lines[1..])
  }

  /** The split loses nothing: the lines, their newlines and the fragment are the text, and no line holds a newline. */
  lemma {:induction false} LinesMakeTheText(text: string)
    ensures Unlines(CompleteLines(text)) + Fragment(text) == text
    ensures forall k :: 0 <= k < |CompleteLines(text)| ==> '\n' !in CompleteLines(text)[k]
    ensures '\n' !in Fragment(text)
    decreases |text|
  {
    var i := IndexOfNewline(text);
    if i < |text| {
      var line, rest := text[..i], text[i + 1..];
      LinesMakeTheText(rest);
      FirstLine(text, i, line, rest);
      assert text == line + "\n" + rest;
      UnlinesCons(line, CompleteLines(rest), Fragment(rest));
      NoNewlineInLines(line, CompleteLines(rest));
    } else {
      assert text[..i] == text;
    }
  }

  lemma {:induction false} NoNewlineInLines(line: string, lines: seq<string>)
    requires '\n' !in line && forall k :: 0 <= k < |lines| ==> '\n' !in lines[k]
    ensures forall k :: 0 <= k < |[line] + lines| ==> '\n' !in ([line] + lines)[k]
  {
  }

  lemma {:induction false} UnlinesCons(line: string, lines: seq<string>, rest: string)
    ensures Unlines([line] + lines) + rest == line + "\n" + (Unlines(lines) + rest)
  {
    assert ([line] + lines)[1..] == lines;
    assert (line + "\n" + Unlines(lines)) + rest == line + "\n" + (Unlines(lines) + rest);
  }

  function FirstLines(lines: seq<string>): seq<string> {
    if |lines| <= RAW_PREVIEW_LINE_CAP then lines else lines[..RAW_PREVIEW_LINE_CAP]
  }

  lemma NewlineInFirst(a: string, b: string)
    requires IndexOfNewline(a) < |a|
    ensures IndexOfNewline(a + b) == IndexOfNewline(a)
  {
    var i, j := IndexOfNewline(a), IndexOfNewline(a + b);
    assert (a + b)[i] == '\n' && forall k :: 0 <= k < i ==> (a + b)[k] == a[k];
  }

  lemma FirstLine(text: string, i: nat, line: string, rest: string)
    requires i == IndexOfNewline(text) < |text| && line == text[..i] && rest == text[i + 1..]
    ensures CompleteLines(text) == [line] + CompleteLines(rest) && Fragment(text) == Fragment(rest)
  {
  }

  /** More text never changes the lines already complete; it goes on from the fragment. */
  lemma {:induction false} LinesGrow(a: string, b: string)
    ensures CompleteLines(a + b) == CompleteLines(a) + CompleteLines(Fragment(a) + b)
    ensures Fragment(a + b) == Fragment(Fragment(a) + b)
    decreases |a|
  {
    var i := IndexOfNewline(a);
    if i < |a| {
      var line, rest := a[..i], a[i + 1..];
      NewlineInFirst(a, b);
      assert (a + b)[..i] == line && (a + b)[i + 1..] == rest + b;
      FirstLine(a, i, line, rest);
      FirstLine(a + b, i, line, rest + b);
      LinesGrow(rest, b);
      Associate([line], CompleteLines(rest), CompleteLines(Fragment(rest) + b));
    }
  }

  datatype Preview = Preview(lines: seq<string>, reachedLineCap: bool, reachedByteCap: bool, bytesRead: nat)

  /** `appendLineIfRoom`. */
  function AppendIfRoom(lines: seq<string>, line: string): seq<string> {
    if |lines| >= RAW_PREVIEW_LINE_CAP then lines else lines + [line]
  }

  /** Moves complete lines out of the buffer until none is left or the line cap is reached. */
  method DrainLines(lines: seq<string>, buffer: string) returns (drained: seq<string>, rest: string)
    requires |lines| < RAW_PREVIEW_LINE_CAP
    ensures drained == FirstLines(lines + CompleteLines(buffer))
    ensures |drained| < RAW_PREVIEW_LINE_CAP ==> rest == Fragment(buffer)
  {
    drained, rest := lines, buffer;
    ghost var all := lines + CompleteLines(buffer);
    while IndexOfNewline(rest) < |rest|
      invariant |drained| < RAW_PREVIEW_LINE_CAP
      invariant drained + CompleteLines(rest) == all
      invariant Fragment(rest) == Fragment(buffer)
      decreases |rest|
    {
      var newlineIdx := IndexOfNewline(rest);
      var line := rest[..newlineIdx];
      var after := rest[newlineIdx + 1..];
      Associate(drained, [line], CompleteLines(after));
      rest := after;
      drained := AppendIfRoom(drained, line);
      if |drained| >= RAW_PREVIEW_LINE_CAP {
        assert drained == all[..RAW_PREVIEW_LINE_CAP];
        return;
      }
    }
    assert drained + [] == drained;
  }

  /** The text decoded from the first `n` chunks, the decoder not yet flushed. */
  function TextSoFar(chunks: seq<seq<Byte>>, n: nat): string
    requires n <= |chunks|
  {
    Feed(NEW_DECODER, Concat(chunks[..n])).1
  }

  /** The whole text of a stream. */
  function WholeText(chunks: seq<seq<Byte>>): string {
    Decode(Concat(chunks))
  }

  /** What one more chunk does to the text, its complete lines and its fragment. */
  lemma NextChunk(chunks: seq<seq<Byte>>, i: nat)
    requires i < |chunks|
    ensures var (next, decoded) := Feed(Feed(NEW_DECODER, Concat(chunks[..i])).0, chunks[i]);
      var before, after := TextSoFar(chunks, i), TextSoFar(chunks, i + 1);
      && Feed(NEW_DECODER, Concat(chunks[..i + 1])) == (next, after)
      && CompleteLines(after) == CompleteLines(before) + CompleteLines(Fragment(before) + decoded)
      && Fragment(after) == Fragment(Fragment(before) + decoded)
  {
    ConcatNext(chunks, i);
    FeedAppend(NEW_DECODER, Concat(chunks[..i]), chunks[i]);
    LinesGrow(TextSoFar(chunks, i), Feed(Feed(NEW_DECODER, Concat(chunks[..i])).0, chunks[i]).1);
  }

  /** Once enough lines are complete, they are the first of the whole text. */
  lemma CappedLinesAreFirst(chunks: seq<seq<Byte>>, n: nat, lines: seq<string>)
    requires n <= |chunks| && lines == FirstLines(CompleteLines(TextSoFar(chunks, n)))
    ensures lines <= Lines(WholeText(chunks))
    ensures |lines| == RAW_PREVIEW_LINE_CAP ==> lines == FirstLines(Lines(WholeText(chunks)))
  {
    SoFarIsPrefix(chunks, n);
  }

  /** The lines at the end of the stream, the last fragment included. */
  lemma AllLines(chunks: seq<seq<Byte>>)
    ensures var (decoder, text) := Feed(NEW_DECODER, Concat(chunks));
      var last := Fragment(text) + Flush(decoder);
      Lines(WholeText(chunks)) == CompleteLines(text) + if last == "" then [] else [last]
  {
    var (decoder, text) := Feed(NEW_DECODER, Concat(chunks));
    FlushHasNoNewline(decoder, text);
  }

  /** The byte cap fired at the `n`th chunk, and not before. */
  predicate ByteCapFiredAt(chunks: seq<seq<Byte>>, n: nat) {
    0 < n <= |chunks| && |Concat(chunks[..n])| >= RAW_PREVIEW_BYTE_CAP > |Concat(chunks[..n - 1])|
  }

  /** Decodes one chunk and moves its complete lines out of the buffer. */
  method ReadChunk(chunks: seq<seq<Byte>>, i: nat, decoder: Decoder, lines: seq<string>, buffer: string)
    returns (next: Decoder, drained: seq<string>, rest: string)
    requires i < |chunks| && decoder == Feed(NEW_DECODER, Concat(chunks[..i])).0
    requires lines == CompleteLines(TextSoFar(chunks, i)) && buffer == Fragment(TextSoFar(chunks, i))
    requires |lines| < RAW_PREVIEW_LINE_CAP
    ensures next == Feed(NEW_DECODER, Concat(chunks[..i + 1])).0
    ensures drained == FirstLines(CompleteLines(TextSoFar(chunks, i + 1)))
    ensures |drained| < RAW_PREVIEW_LINE_CAP ==>
      drained == CompleteLines(TextSoFar(chunks, i + 1)) && rest == Fragment(TextSoFar(chunks, i + 1))
  {
    NextChunk(chunks, i);
    var (after, decoded) := Feed(decoder, chunks[i]);
    next := after;
    drained, rest := DrainLines(lines, buffer + decoded);
  }

  /** `n` is the number of chunks read. */
  method ConsumeRawPreview(chunks: seq<seq<Byte>>) returns (preview: Preview, ghost n: nat)
    ensures n <= |chunks| && preview.bytesRead == |Concat(chunks[..n])|
    ensures preview.reachedLineCap <==> |preview.lines| == RAW_PREVIEW_LINE_CAP
    ensures preview.reachedByteCap ==> !preview.reachedLineCap && ByteCapFiredAt(chunks, n)
    ensures preview.reachedByteCap ==> preview.lines == CompleteLines(TextSoFar(chunks, n))
    ensures !preview.reachedByteCap ==> preview.lines == FirstLines(Lines(WholeText(chunks)))
    ensures preview.lines <= Lines(WholeText(chunks)) && |preview.lines| <= RAW_PREVIEW_LINE_CAP
    ensures n > 0 ==> |Concat(chunks[..n - 1])| < 262_144
    ensures n < |chunks| ==> preview.reachedByteCap || preview.reachedLineCap
    ensures !preview.reachedByteCap && !preview.reachedLineCap ==> n == |chunks| && preview.bytesRead < 262_144
    ensures 0 < n < |chunks| ==> |CompleteLines(TextSoFar(chunks, n - 1))| < 20
    ensures !preview.reachedByteCap ==>
      |preview.lines| == if |Lines(WholeText(chunks))| <= 20 then |Lines(WholeText(chunks))| else 20
  {
    var decoder, buffer, bytesRead := NEW_DECODER, "", 0;
    var lines: seq<string> := [];
    for i := 0 to |chunks|
      invariant bytesRead == |Concat(chunks[..i])| < RAW_PREVIEW_BYTE_CAP
      invariant decoder == Feed(NEW_DECODER, Concat(chunks[..i])).0
      invariant |lines| < RAW_PREVIEW_LINE_CAP
      invariant lines == CompleteLines(TextSoFar(chunks, i)) && buffer == Fragment(TextSoFar(chunks, i))
    {
      ConcatNext(chunks, i);
      bytesRead := bytesRead + |chunks[i]|;
      decoder, lines, buffer := ReadChunk(chunks, i, decoder, lines, buffer);
      CappedLinesAreFirst(chunks, i + 1, lines);
      if |lines| >= RAW_PREVIEW_LINE_CAP {
        return Preview(lines, true, false, bytesRead), i + 1;
      }
      if bytesRead >= RAW_PREVIEW_BYTE_CAP {
        return Preview(lines, false, true, bytesRead), i + 1;
      }
    }
    assert chunks[..|chunks|] == chunks;
    n := |chunks|;
    AllLines(chunks);
    buffer := buffer + Flush(decoder);
    if buffer != "" {
      lines := AppendIfRoom(lines, buffer);
    }
    preview := Preview(lines, |lines| >= RAW_PREVIEW_LINE_CAP, false, bytesRead);
  }

  lemma FlushHasNoNewline(d: Decoder, text: string)
    ensures CompleteLines(text + Flush(d)) == CompleteLines(text)
    ensures Fragment(text + Flush(d)) == Fragment(text) + Flush(d)
  {
    LinesGrow(text, Flush(d));
    NoNewlineInFragment(text);
    NoNewline(Fragment(text) + Flush(d));
  }

  lemma {:induction false} NoNewlineInFragment(text: string)
    ensures '\n' !in Fragment(text)
    decreases |text|
  {
    var i := IndexOfNewline(text);
    if i < |text| {
      NoNewlineInFragment(text[i + 1..]);
    } else {
      assert text[..i] == text;
    }
  }

  lemma NoNewline(text: string)
    requires '\n' !in text
    ensures CompleteLines(text) == [] && Fragment(text) == text
  {
    assert IndexOfNewline(text) == |text|;
  }

  /** The lines complete so far are lines of the whole text. */
  lemma SoFarIsPrefix(chunks: seq<seq<Byte>>, n: nat)
    requires n <= |chunks|
    ensures CompleteLines(TextSoFar(chunks, n)) <= Lines(WholeText(chunks))
  {
    ConcatIsPrefix(chunks, n);
    var a, all := Concat(chunks[..n]), Concat(chunks);
    var b := all[|a|..];
    assert all == a + b;
    FeedAppend(NEW_DECODER, a, b);
    var (d1, rest) := Feed(Feed(NEW_DECODER, a).0, b);
    assert WholeText(chunks) == TextSoFar(chunks, n) + (rest + Flush(d1));
    LinesGrow(TextSoFar(chunks, n), rest + Flush(d1));
  }
}
