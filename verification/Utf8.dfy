/**
 UTF-8 (RFC 3629) and the streaming decoder of the WHATWG Encoding Standard, section 8.1.1,
 with the byte order mark dropped as `TextDecoder` does by default.
 */
module Utf8 {
  type Byte = b: int | 0 <= b < 256

  const REPLACEMENT := '\U{FFFD}'
  const BOM := '\U{FEFF}'

  predicate IsContinuation(b: Byte) {
    0x80 <= b < 0xC0
  }

  // ---------- encoding ----------

  function EncodeChar(c: char): (bytes: seq<Byte>)
    ensures 1 <= |bytes| <= 4 && !IsContinuation(bytes[0])
    ensures forall i :: 1 <= i < |bytes| ==> IsContinuation(bytes[i])
  {
    var n := c as int;
    if n < 0x80 then [n]
    else if n < 0x800 then [0xC0 + n / 64, 0x80 + n % 64]
    else if n < 0x10000 then [0xE0 + n / 4096, 0x80 + n / 64 % 64, 0x80 + n % 64]
    else [0xF0 + n / 262144, 0x80 + n / 4096 % 64, 0x80 + n / 64 % 64, 0x80 + n % 64]
  }

  function Encode(text: string): seq<Byte> {
    if text == "" then [] else EncodeChar(text[0]) + Encode(text[1..])
  }

  /** One well-formed sequence, by the syntax of section 4 of RFC 3629. */
  predicate IsSequence(s: seq<Byte>) {
    || (|s| == 1 && s[0] < 0x80)
    || (|s| == 2 && 0xC2 <= s[0] <= 0xDF && IsContinuation(s[1]))
    || (|s| == 3 && IsContinuation(s[1]) && IsContinuation(s[2])
        && 0xE0 <= s[0] <= 0xEF && (s[0] == 0xE0 ==> s[1] >= 0xA0) && (s[0] == 0xED ==> s[1] <= 0x9F))
    || (|s| == 4 && IsContinuation(s[1]) && IsContinuation(s[2]) && IsContinuation(s[3])
        && 0xF0 <= s[0] <= 0xF4 && (s[0] == 0xF0 ==> s[1] >= 0x90) && (s[0] == 0xF4 ==> s[1] <= 0x8F))
  }

  predicate IsWellFormed(bytes: seq<Byte>) {
    bytes == []
    || exists n {:trigger bytes[..n]} ::
         1 <= n <= 4 && n <= |bytes| && IsSequence(bytes[..n]) && IsWellFormed(bytes[n..])
  }

  lemma EncodeCharIsSequence(c: char)
    ensures IsSequence(EncodeChar(c))
  {
  }

  lemma {:induction false} EncodeIsWellFormed(text: string)
    ensures IsWellFormed(Encode(text))
  {
    if text != "" {
      EncodeIsWellFormed(text[1..]);
      EncodeCharIsSequence(text[0]);
      var n := |EncodeChar(text[0])|;
      assert Encode(text)[..n] == EncodeChar(text[0]) && Encode(text)[n..] == Encode(text[1..]);
    }
  }

  // ---------- decoding ----------

  /** What is known of a character whose bytes are still coming: `remaining` of them, the next within bounds. */
  datatype PartialState = PartialState(remaining: nat, codePoint: nat, lower: int, upper: int)

  predicate IsPartial(p: PartialState) {
    match p.remaining
    case 0 => p.codePoint == 0 && p.lower == 0x80 && p.upper == 0xBF
    case 1 =>
      2 <= p.codePoint <= 0x43FF && !(0x360 <= p.codePoint <= 0x37F) && p.lower == 0x80 && p.upper == 0xBF
    case 2 =>
      p.codePoint <= 0x10F
      && p.lower == (if p.codePoint == 0 then 0xA0 else 0x80) && p.upper == (if p.codePoint == 0xD then 0x9F else 0xBF)
    case 3 =>
      p.codePoint <= 4
      && p.lower == (if p.codePoint == 0 then 0x90 else 0x80) && p.upper == (if p.codePoint == 4 then 0x8F else 0xBF)
    case _ => false
  }

  type Partial = p: PartialState | IsPartial(p) witness PartialState(0, 0, 0x80, 0xBF)

  const NOTHING_PENDING: Partial := PartialState(0, 0, 0x80, 0xBF)

  datatype Step = Step(partial: Partial, emitted: string)

  function StartByte(b: Byte): Step {
    if b < 0x80 then Step(NOTHING_PENDING, [b as char])
    else if 0xC2 <= b <= 0xDF then Step(PartialState(1, b - 0xC0, 0x80, 0xBF), "")
    else if 0xE0 <= b <= 0xEF then
      Step(PartialState(2, b - 0xE0, if b == 0xE0 then 0xA0 else 0x80, if b == 0xED then 0x9F else 0xBF), "")
    else if 0xF0 <= b <= 0xF4 then
      Step(PartialState(3, b - 0xF0, if b == 0xF0 then 0x90 else 0x80, if b == 0xF4 then 0x8F else 0xBF), "")
    else Step(NOTHING_PENDING, [REPLACEMENT])
  }

  /** The decoder's handler for one byte; a byte out of bounds ends the pending character and starts anew. */
  function NextByte(p: Partial, b: Byte): Step {
    if p.remaining == 0 then StartByte(b)
    else if !(p.lower <= b <= p.upper) then
      var s := StartByte(b);
      Step(s.partial, [REPLACEMENT] + s.emitted)
    else
      var codePoint := p.codePoint * 64 + (b - 0x80);
      if p.remaining == 1 then Step(NOTHING_PENDING, [codePoint as char])
      else Step(PartialState(p.remaining - 1, codePoint, 0x80, 0xBF), "")
  }

  function NextBytes(p: Partial, bytes: seq<Byte>): Step
    decreases |bytes|
  {
    if bytes == [] then Step(p, "")
    else
      var first := NextByte(p, bytes[0]);
      var rest := NextBytes(first.partial, bytes[1..]);
      Step(rest.partial, first.emitted + rest.emitted)
  }

  /** A `TextDecoder`: the pending bytes, and whether the place for a byte order mark has passed. */
  datatype Decoder = Decoder(partial: Partial, bomSeen: bool)

  const NEW_DECODER := Decoder(NOTHING_PENDING, false)

  function DropBom(bomSeen: bool, text: string): string {
    if !bomSeen && text != "" && text[0] == BOM then text[1..] else text
  }

  /** `decode(bytes, { stream: true })`: the decoder afterwards, and the text returned. */
  function Feed(d: Decoder, bytes: seq<Byte>): (Decoder, string) {
    var s := NextBytes(d.partial, bytes);
    (Decoder(s.partial, d.bomSeen || s.emitted != ""), DropBom(d.bomSeen, s.emitted))
  }

  /** `decode()` at the end of the stream: an unfinished character becomes U+FFFD. */
  function Flush(d: Decoder): string {
    if d.partial.remaining > 0 then [REPLACEMENT] else ""
  }

  /** `decode(bytes)` on a decoder in state `d`, ending the stream. */
  function FeedLast(d: Decoder, bytes: seq<Byte>): string {
    Feed(d, bytes).1 + Flush(Feed(d, bytes).0)
  }

  /** `new TextDecoder().decode(bytes)`. */
  function Decode(bytes: seq<Byte>): string {
    FeedLast(NEW_DECODER, bytes)
  }

  // ---------- chunks do not matter ----------

  lemma {:induction false} NextBytesAppend(p: Partial, a: seq<Byte>, b: seq<Byte>)
    ensures var first := NextBytes(p, a);
      var rest := NextBytes(first.partial, b);
      NextBytes(p, a + b) == Step(rest.partial, first.emitted + rest.emitted)
    decreases |a|
  {
    if a == [] {
      assert a + b == b;
    } else {
      assert (a + b)[0] == a[0] && (a + b)[1..] == a[1..] + b;
      var next := NextByte(p, a[0]);
      NextBytesAppend(next.partial, a[1..], b);
      var first := NextBytes(next.partial, a[1..]);
      var rest := NextBytes(first.partial, b);
      assert next.emitted + (first.emitted + rest.emitted) == (next.emitted + first.emitted) + rest.emitted;
    }
  }

  /** The streaming law: feeding a stream in two parts is feeding it whole. */
  lemma FeedAppend(d: Decoder, a: seq<Byte>, b: seq<Byte>)
    ensures var (d1, first) := Feed(d, a);
      var (d2, rest) := Feed(d1, b);
      Feed(d, a + b) == (d2, first + rest)
  {
    NextBytesAppend(d.partial, a, b);
    var first := NextBytes(d.partial, a);
    BomDropsOnce(d.bomSeen, first.emitted, NextBytes(first.partial, b).emitted);
  }

  lemma BomDropsOnce(bomSeen: bool, x: string, y: string)
    ensures DropBom(bomSeen, x + y) == DropBom(bomSeen, x) + DropBom(bomSeen || x != "", y)
    ensures x + y != "" <==> x != "" || y != ""
  {
    if x == "" {
      assert x + y == y;
    } else {
      assert (x + y)[0] == x[0] && (x + y)[1..] == x[1..] + y;
    }
  }

  // ---------- the round trip ----------

  lemma NextBytesCons(p: Partial, b: Byte, bytes: seq<Byte>)
    ensures NextBytes(p, [b] + bytes)
         == Step(NextBytes(NextByte(p, b).partial, bytes).partial,
                 NextByte(p, b).emitted + NextBytes(NextByte(p, b).partial, bytes).emitted)
  {
    assert ([b] + bytes)[0] == b && ([b] + bytes)[1..] == bytes;
  }

  /** One more byte within bounds, and more to come. */
  lemma Continues(p: Partial, b: Byte, bytes: seq<Byte>)
    requires p.remaining > 1 && p.lower <= b <= p.upper
    ensures IsPartial(PartialState(p.remaining - 1, p.codePoint * 64 + (b - 0x80), 0x80, 0xBF))
    ensures NextBytes(p, [b] + bytes)
         == NextBytes(PartialState(p.remaining - 1, p.codePoint * 64 + (b - 0x80), 0x80, 0xBF), bytes)
  {
    NextBytesCons(p, b, bytes);
    var rest := NextBytes(NextByte(p, b).partial, bytes);
    assert "" + rest.emitted == rest.emitted;
  }

  lemma Starts(b: Byte, bytes: seq<Byte>)
    requires 0xC2 <= b <= 0xF4
    ensures StartByte(b).emitted == ""
    ensures NextBytes(NOTHING_PENDING, [b] + bytes) == NextBytes(StartByte(b).partial, bytes)
  {
    NextBytesCons(NOTHING_PENDING, b, bytes);
    var rest := NextBytes(StartByte(b).partial, bytes);
    assert "" + rest.emitted == rest.emitted;
  }

  /** The last byte: six more bits complete the character. */
  lemma DecodesLast(high: nat, z: nat)
    requires 2 <= high <= 0x43FF && !(0x360 <= high <= 0x37F) && z < 64
    ensures (high * 64 + z < 0xD800 || 0xE000 <= high * 64 + z < 0x110000)
    ensures NextBytes(PartialState(1, high, 0x80, 0xBF), [0x80 + z]) == Step(NOTHING_PENDING, [(high * 64 + z) as char])
  {
    NextBytesCons(PartialState(1, high, 0x80, 0xBF), 0x80 + z, []);
    assert [0x80 + z] + [] == [0x80 + z] && [(high * 64 + z) as char] + "" == [(high * 64 + z) as char];
  }

  lemma DecodesTwo(x: nat, z: nat)
    requires 2 <= x < 32 && z < 64
    ensures NextBytes(NOTHING_PENDING, [0xC0 + x, 0x80 + z]) == Step(NOTHING_PENDING, [(x * 64 + z) as char])
  {
    Starts(0xC0 + x, [0x80 + z]);
    DecodesLast(x, z);
    assert [0xC0 + x] + [0x80 + z] == [0xC0 + x, 0x80 + z];
  }

  lemma DecodesThree(x: nat, y: nat, z: nat)
    requires x < 16 && y < 64 && z < 64 && (x == 0 ==> y >= 32) && (x == 0xD ==> y < 32)
    ensures var n := (x * 64 + y) * 64 + z;
      (n < 0xD800 || 0xE000 <= n < 0x110000)
      && NextBytes(NOTHING_PENDING, [0xE0 + x] + ([0x80 + y] + [0x80 + z])) == Step(NOTHING_PENDING, [n as char])
  {
    var p: Partial := PartialState(2, x, if x == 0 then 0xA0 else 0x80, if x == 0xD then 0x9F else 0xBF);
    assert StartByte(0xE0 + x).partial == p;
    Starts(0xE0 + x, [0x80 + y] + [0x80 + z]);
    Continues(p, 0x80 + y, [0x80 + z]);
    DecodesLast(x * 64 + y, z);
  }

  lemma DecodesLastTwo(high: nat, y: nat, z: nat)
    requires 0x10 <= high <= 0x10F && y < 64 && z < 64
    ensures var n := (high * 64 + y) * 64 + z;
      0x10000 <= n < 0x110000
      && NextBytes(PartialState(2, high, 0x80, 0xBF), [0x80 + y, 0x80 + z]) == Step(NOTHING_PENDING, [n as char])
  {
    Continues(PartialState(2, high, 0x80, 0xBF), 0x80 + y, [0x80 + z]);
    DecodesLast(high * 64 + y, z);
    assert [0x80 + y] + [0x80 + z] == [0x80 + y, 0x80 + z];
  }

  lemma DecodesLastThree(w: nat, x: nat, y: nat, z: nat)
    requires w <= 4 && x < 64 && y < 64 && z < 64 && (w == 0 ==> x >= 16) && (w == 4 ==> x < 16)
    ensures var n := ((w * 64 + x) * 64 + y) * 64 + z;
      0x10000 <= n < 0x110000
      && NextBytes(PartialState(3, w, if w == 0 then 0x90 else 0x80, if w == 4 then 0x8F else 0xBF),
                   [0x80 + x] + [0x80 + y, 0x80 + z]) == Step(NOTHING_PENDING, [n as char])
  {
    var p: Partial := PartialState(3, w, if w == 0 then 0x90 else 0x80, if w == 4 then 0x8F else 0xBF);
    Continues(p, 0x80 + x, [0x80 + y, 0x80 + z]);
    DecodesLastTwo(w * 64 + x, y, z);
  }

  lemma DecodesFour(w: nat, x: nat, y: nat, z: nat)
    requires w <= 4 && x < 64 && y < 64 && z < 64 && (w == 0 ==> x >= 16) && (w == 4 ==> x < 16)
    ensures var n := ((w * 64 + x) * 64 + y) * 64 + z;
      0x10000 <= n < 0x110000
      && NextBytes(NOTHING_PENDING, [0xF0 + w] + ([0x80 + x] + [0x80 + y, 0x80 + z]))
         == Step(NOTHING_PENDING, [n as char])
  {
    Starts(0xF0 + w, [0x80 + x] + [0x80 + y, 0x80 + z]);
    DecodesLastThree(w, x, y, z);
  }

  lemma Digits(n: nat)
    ensures n == n / 64 * 64 + n % 64 && n / 64 == n / 4096 * 64 + n / 64 % 64
    ensures n / 4096 == n / 262144 * 64 + n / 4096 % 64
  {
  }

  lemma DecodesChar(c: char)
    ensures NextBytes(NOTHING_PENDING, EncodeChar(c)) == Step(NOTHING_PENDING, [c])
  {
    var n := c as int;
    Digits(n);
    if n < 0x80 {
      NextBytesCons(NOTHING_PENDING, n, []);
      assert [n] + [] == EncodeChar(c) && [n as char] + "" == [c];
    } else if n < 0x800 {
      DecodesTwo(n / 64, n % 64);
    } else if n < 0x10000 {
      DecodesThree(n / 4096, n / 64 % 64, n % 64);
      assert EncodeChar(c) == [0xE0 + n / 4096] + ([0x80 + n / 64 % 64] + [0x80 + n % 64]);
    } else {
      DecodesFour(n / 262144, n / 4096 % 64, n / 64 % 64, n % 64);
      assert EncodeChar(c) == [0xF0 + n / 262144] + ([0x80 + n / 4096 % 64] + [0x80 + n / 64 % 64, 0x80 + n % 64]);
    }
  }

  lemma {:induction false} DecodesText(text: string)
    ensures NextBytes(NOTHING_PENDING, Encode(text)) == Step(NOTHING_PENDING, text)
  {
    if text != "" {
      DecodesChar(text[0]);
      DecodesText(text[1..]);
      NextBytesAppend(NOTHING_PENDING, EncodeChar(text[0]), Encode(text[1..]));
      assert text == [text[0]] + text[1..];
    }
  }

  /** Decoding undoes encoding, but for a leading byte order mark. */
  lemma DecodeEncode(text: string)
    ensures Decode(Encode(text)) == DropBom(false, text)
  {
    DecodesText(text);
  }
}
