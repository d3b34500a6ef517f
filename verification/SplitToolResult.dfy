/** Splitting an oversized tool result at 2 KB without cutting a character in two. */
module SplitToolResult {
  import opened Utf8
  import opened Sequences

  const TOOL_RESULT_OVERFLOW_BYTES: nat := 2048

  /** Byte position `p` of `Encode(text)` lies between two characters, or at an end. */
  predicate IsBoundary(text: string, p: nat)
    decreases |text|
  {
    p == 0 || (text != "" && p >= |EncodeChar(text[0])| && IsBoundary(text[1..], p - |EncodeChar(text[0])|))
  }

  /** How many characters end at or before byte `p`. */
  function CharsBefore(text: string, p: nat): (k: nat)
    ensures k <= |text|
    decreases |text|
  {
    if text == "" || p < |EncodeChar(text[0])| then 0
    else 1 + CharsBefore(text[1..], p - |EncodeChar(text[0])|)
  }

  /** The last boundary at or before `limit`. */
  predicate IsLastBoundary(text: string, limit: nat, cut: nat) {
    && cut <= limit && IsBoundary(text, cut)
    && forall p :: cut < p <= limit ==> !IsBoundary(text, p)
  }

  // ---------- boundaries, seen in the bytes ----------

  /** Inside the encoding, the boundaries are the bytes that do not continue a character. */
  lemma {:induction false} BoundaryIsNoContinuation(text: string, p: nat)
    requires p < |Encode(text)|
    ensures IsBoundary(text, p) <==> !IsContinuation(Encode(text)[p])
    decreases |text|
  {
    var first := EncodeChar(text[0]);
    if p >= |first| {
      BoundaryIsNoContinuation(text[1..], p - |first|);
    }
  }

  /** No more than three bytes separate a position from the boundary before it. */
  lemma {:induction false} BoundaryIsNear(text: string, p: nat) returns (b: nat)
    requires p <= |Encode(text)|
    ensures b <= p <= b + 3 && IsBoundary(text, b)
    decreases |text|
  {
    if text == "" || p < |EncodeChar(text[0])| {
      b := 0;
    } else {
      var n := |EncodeChar(text[0])|;
      b := BoundaryIsNear(text[1..], p - n);
      b := b + n;
    }
  }

  /** Cutting the bytes at a boundary cuts the text between two characters. */
  lemma {:induction false} CutAtBoundary(text: string, p: nat)
    requires p <= |Encode(text)| && IsBoundary(text, p)
    ensures var k := CharsBefore(text, p);
      Encode(text)[..p] == Encode(text[..k]) && Encode(text)[p..] == Encode(text[k..])
    decreases |text|
  {
    var k := CharsBefore(text, p);
    if text == "" || p < |EncodeChar(text[0])| {
      assert p == 0 && text[..k] == "" && text[k..] == text;
    } else {
      var first := EncodeChar(text[0]);
      CutAtBoundary(text[1..], p - |first|);
      assert text[..k] == [text[0]] + text[1..][..k - 1] && text[k..] == text[1..][k - 1..];
      assert Encode(text)[..p] == first + Encode(text[1..])[..p - |first|];
      assert Encode(text)[p..] == Encode(text[1..])[p - |first|..];
    }
  }

  // ---------- the split ----------

  datatype Split = Split(head: string, tail: string, tailBytes: int)

  /** Walks back from the limit over continuation bytes. */
  method FindCut(text: string, all: seq<Byte>) returns (cut: nat)
    requires all == Encode(text) && |all| > TOOL_RESULT_OVERFLOW_BYTES
    ensures IsLastBoundary(text, TOOL_RESULT_OVERFLOW_BYTES, cut)
    ensures TOOL_RESULT_OVERFLOW_BYTES - 3 <= cut
  {
    ghost var near := BoundaryIsNear(text, TOOL_RESULT_OVERFLOW_BYTES);
    cut := TOOL_RESULT_OVERFLOW_BYTES;
    BoundaryIsNoContinuation(text, near);
    BoundaryIsNoContinuation(text, cut);
    while cut > 0 && IsContinuation(all[cut])
      invariant near <= cut <= TOOL_RESULT_OVERFLOW_BYTES
      invariant IsBoundary(text, cut) <==> !IsContinuation(all[cut])
      invariant forall p :: cut < p <= TOOL_RESULT_OVERFLOW_BYTES ==> !IsBoundary(text, p)
    {
      cut := cut - 1;
      BoundaryIsNoContinuation(text, cut);
    }
  }

  method SplitToolResult(text: string, totalBytes: nat) returns (split: Split, ghost cut: nat)
    ensures |Encode(text)| <= TOOL_RESULT_OVERFLOW_BYTES ==> split == Split(text, "", 0)
    ensures |Encode(text)| > TOOL_RESULT_OVERFLOW_BYTES ==>
      && IsLastBoundary(text, TOOL_RESULT_OVERFLOW_BYTES, cut) && TOOL_RESULT_OVERFLOW_BYTES - 3 <= cut
      && split.head == Decode(Encode(text)[..cut]) && split.tail == Decode(Encode(text)[cut..])
      && split.tailBytes == totalBytes - cut
  {
    var all := Encode(text);
    cut := 0;
    if |all| <= TOOL_RESULT_OVERFLOW_BYTES {
      split := Split(text, "", 0);
    } else {
      var at := FindCut(text, all);
      cut := at;
      split := Split(Decode(all[..at]), Decode(all[at..]), totalBytes - at);
    }
  }

  // ---------- what the two halves are ----------

  /**
   Both byte slices are well-formed and hold whole characters; each half decodes to its characters,
   but for a byte order mark at its own start, which the decoder drops.
   */
  lemma HalvesAreWhole(text: string, cut: nat)
    requires cut <= |Encode(text)| && IsBoundary(text, cut)
    ensures IsWellFormed(Encode(text)[..cut]) && IsWellFormed(Encode(text)[cut..])
    ensures Encode(text)[..cut] + Encode(text)[cut..] == Encode(text)
    ensures Decode(Encode(text)[..cut]) == DropBom(false, text[..CharsBefore(text, cut)])
    ensures Decode(Encode(text)[cut..]) == DropBom(false, text[CharsBefore(text, cut)..])
  {
    CutAtBoundary(text, cut);
    Rejoin(Encode(text), cut);
    PartIsWhole(text[..CharsBefore(text, cut)], Encode(text)[..cut]);
    PartIsWhole(text[CharsBefore(text, cut)..], Encode(text)[cut..]);
  }

  lemma PartIsWhole(part: string, bytes: seq<Byte>)
    requires bytes == Encode(part)
    ensures IsWellFormed(bytes) && Decode(bytes) == DropBom(false, part)
  {
    EncodeIsWellFormed(part);
    DecodeEncode(part);
  }

  predicate StartsWithBom(text: string) {
    text != "" && text[0] == BOM
  }

  /** So the halves make up the text exactly when neither starts with a byte order mark. */
  lemma HalvesMakeTheText(text: string, cut: nat)
    requires cut <= |Encode(text)| && IsBoundary(text, cut)
    ensures Decode(Encode(text)[..cut]) + Decode(Encode(text)[cut..]) == text
        <==> !StartsWithBom(text[..CharsBefore(text, cut)]) && !StartsWithBom(text[CharsBefore(text, cut)..])
  {
    var k := CharsBefore(text, cut);
    HalvesAreWhole(text, cut);
    Rejoin(text, k);
    DroppedBom(text[..k]);
    DroppedBom(text[k..]);
  }

  lemma DroppedBom(part: string)
    ensures |DropBom(false, part)| == |part| - if StartsWithBom(part) then 1 else 0
    ensures !StartsWithBom(part) ==> DropBom(false, part) == part
  {
  }

  lemma CutHasBothSides(text: string, cut: nat)
    requires |Encode(text)| > TOOL_RESULT_OVERFLOW_BYTES && IsLastBoundary(text, TOOL_RESULT_OVERFLOW_BYTES, cut)
    ensures 0 < CharsBefore(text, cut) < |text|
  {
    var near := BoundaryIsNear(text, TOOL_RESULT_OVERFLOW_BYTES);
    assert near <= cut && text != "";
    CutAtBoundary(text, cut);
    assert text[CharsBefore(text, cut)..] != "";
  }

  /** For a text that really is split: the two characters that decide whether its halves make it up. */
  lemma SplitMakesTheText(text: string, cut: nat)
    requires |Encode(text)| > TOOL_RESULT_OVERFLOW_BYTES && IsLastBoundary(text, TOOL_RESULT_OVERFLOW_BYTES, cut)
    ensures 0 < CharsBefore(text, cut) < |text|
    ensures Decode(Encode(text)[..cut]) + Decode(Encode(text)[cut..]) == text
        <==> text[0] != BOM && text[CharsBefore(text, cut)] != BOM
  {
    CutHasBothSides(text, cut);
    HalvesMakeTheText(text, cut);
  }

  // ---------- a text that loses its first character ----------

  function Letters(n: nat): (text: string)
    ensures |text| == n
  {
    seq(n, _ => 'a')
  }

  lemma {:induction false} LettersAreBytes(n: nat, p: nat)
    requires p <= n
    ensures |Encode(Letters(n))| == n && IsBoundary(Letters(n), p)
  {
    if n > 0 {
      assert Letters(n)[1..] == Letters(n - 1);
      LettersAreBytes(n - 1, if p > 0 then p - 1 else 0);
    }
  }

  /** A byte order mark and 2048 letters: cut after 2045 of them, and the mark is gone from the halves. */
  lemma LeadingMarkIsLost()
    ensures var text := [BOM] + Letters(TOOL_RESULT_OVERFLOW_BYTES);
      && |Encode(text)| > TOOL_RESULT_OVERFLOW_BYTES
      && IsLastBoundary(text, TOOL_RESULT_OVERFLOW_BYTES, TOOL_RESULT_OVERFLOW_BYTES)
      && Decode(Encode(text)[..TOOL_RESULT_OVERFLOW_BYTES]) + Decode(Encode(text)[TOOL_RESULT_OVERFLOW_BYTES..]) != text
  {
    var text := [BOM] + Letters(TOOL_RESULT_OVERFLOW_BYTES);
    assert text[1..] == Letters(TOOL_RESULT_OVERFLOW_BYTES);
    LettersAreBytes(TOOL_RESULT_OVERFLOW_BYTES, TOOL_RESULT_OVERFLOW_BYTES - |EncodeChar(BOM)|);
    SplitMakesTheText(text, TOOL_RESULT_OVERFLOW_BYTES);
  }
}
