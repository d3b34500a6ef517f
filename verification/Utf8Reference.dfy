/**
 Decoding without a state machine: whole sequences one by one, and one U+FFFD for each maximal part of a
 sequence that is not whole. The streaming decoder does the same on every input.
 */
module Utf8Reference {
  import opened Utf8

  /** The bytes a second byte may be, after a given first one: table 3-7 of the Unicode standard. */
  predicate IsSecond(first: Byte, b: Byte) {
    (if first == 0xE0 then 0xA0 else if first == 0xF0 then 0x90 else 0x80) <= b
    <= if first == 0xED then 0x9F else if first == 0xF4 then 0x8F else 0xBF
  }

  /** Some bytes are missing to a well-formed sequence. */
  predicate IsBroken(s: seq<Byte>) {
    || (|s| == 1 && 0xC2 <= s[0] <= 0xF4)
    || (|s| == 2 && 0xE0 <= s[0] <= 0xF4 && IsSecond(s[0], s[1]))
    || (|s| == 3 && 0xF0 <= s[0] <= 0xF4 && IsSecond(s[0], s[1]) && IsContinuation(s[2]))
  }

  /** Broken sequences are exactly what is left of well-formed ones when bytes are cut off behind. */
  lemma BrokenIsCutOff(s: seq<Byte>)
    requires s != []
    ensures IsBroken(s) <==> exists t: seq<Byte> :: t != [] && IsSequence(s + t)
  {
    if IsBroken(s) {
      CompletesIt(s);
    }
    forall t: seq<Byte> | t != [] && IsSequence(s + t) ensures IsBroken(s) {
      var whole := s + t;
      assert forall i :: 0 <= i < |s| ==> whole[i] == s[i];
    }
  }

  lemma CompletesIt(s: seq<Byte>)
    requires IsBroken(s)
    ensures exists t: seq<Byte> :: t != [] && IsSequence(s + t)
  {
    if |s| == 1 && s[0] < 0xE0 {
      assert IsSequence(s + [0x80]);
    } else if |s| == 1 && s[0] < 0xF0 {
      var t: seq<Byte> := [if s[0] == 0xE0 then 0xA0 else 0x80, 0x80];
      assert IsSequence(s + t);
    } else if |s| == 1 {
      var t: seq<Byte> := [if s[0] == 0xF0 then 0x90 else 0x80, 0x80, 0x80];
      assert IsSequence(s + t);
    } else if |s| == 2 && s[0] < 0xF0 {
      assert IsSequence(s + [0x80]);
    } else if |s| == 2 {
      var t: seq<Byte> := [0x80, 0x80];
      assert IsSequence(s + t);
    } else {
      assert IsSequence(s + [0x80]);
    }
  }

  /** The code point a well-formed sequence stands for. */
  function CodePoint(s: seq<Byte>): (n: nat)
    requires IsSequence(s)
    ensures n < 0xD800 || 0xE000 <= n < 0x110000
  {
    var a: int := s[0];
    if |s| == 1 then a
    else
      var b: int := s[1];
      if |s| == 2 then (a - 0xC0) * 64 + (b - 0x80)
      else
        var c: int := s[2];
        if |s| == 3 then ((a - 0xE0) * 64 + (b - 0x80)) * 64 + (c - 0x80)
        else
          var d: int := s[3];
          (((a - 0xF0) * 64 + (b - 0x80)) * 64 + (c - 0x80)) * 64 + (d - 0x80)
  }

  lemma Quotients(high: nat, low: nat)
    requires low < 64
    ensures (high * 64 + low) / 64 == high && (high * 64 + low) % 64 == low
  {
  }

  lemma ThreeDigits(x: nat, y: nat, z: nat)
    requires y < 64 && z < 64
    ensures var n := (x * 64 + y) * 64 + z; n / 4096 == x && n / 64 % 64 == y && n % 64 == z
  {
    Quotients(x * 64 + y, z);
    Quotients(x, y);
  }

  lemma FourDigits(w: nat, x: nat, y: nat, z: nat)
    requires x < 64 && y < 64 && z < 64
    ensures var n := ((w * 64 + x) * 64 + y) * 64 + z;
      n / 262144 == w && n / 4096 % 64 == x && n / 64 % 64 == y && n % 64 == z
  {
    ThreeDigits(w * 64 + x, y, z);
    Quotients(w, x);
  }

  lemma EncodesThree(x: nat, y: nat, z: nat)
    requires x < 16 && y < 64 && z < 64 && (x == 0 ==> y >= 32) && (x == 0xD ==> y < 32)
    ensures var n := (x * 64 + y) * 64 + z;
      (n < 0xD800 || 0xE000 <= n < 0x110000) && EncodeChar(n as char) == [0xE0 + x, 0x80 + y, 0x80 + z]
  {
    ThreeDigits(x, y, z);
  }

  lemma EncodesFour(w: nat, x: nat, y: nat, z: nat)
    requires w <= 4 && x < 64 && y < 64 && z < 64 && (w == 0 ==> x >= 16) && (w == 4 ==> x < 16)
    ensures var n := ((w * 64 + x) * 64 + y) * 64 + z;
      0x10000 <= n < 0x110000 && EncodeChar(n as char) == [0xF0 + w, 0x80 + x, 0x80 + y, 0x80 + z]
  {
    FourDigits(w, x, y, z);
  }

  /** And that encodes as the sequence. */
  lemma CodePointEncodes(s: seq<Byte>)
    requires IsSequence(s)
    ensures EncodeChar(CodePoint(s) as char) == s
  {
    if |s| == 1 {
      assert s == [s[0]];
    } else if |s| == 2 {
      Quotients(s[0] - 0xC0, s[1] - 0x80);
      assert s == [s[0], s[1]];
    } else if |s| == 3 {
      EncodesThree(s[0] - 0xE0, s[1] - 0x80, s[2] - 0x80);
      assert s == [s[0], s[1], s[2]];
    } else {
      EncodesFour(s[0] - 0xF0, s[1] - 0x80, s[2] - 0x80, s[3] - 0x80);
      assert s == [s[0], s[1], s[2], s[3]];
    }
  }

  // ---------- the reference decoder ----------

  /** The length of the well-formed sequence in front, or 0. */
  function WholeLength(bytes: seq<Byte>): (n: nat)
    ensures n <= |bytes| && (n > 0 ==> IsSequence(bytes[..n]))
    ensures forall m :: 1 <= m <= |bytes| && IsSequence(bytes[..m]) ==> m == n
  {
    if |bytes| >= 1 && IsSequence(bytes[..1]) then 1
    else if |bytes| >= 2 && IsSequence(bytes[..2]) then 2
    else if |bytes| >= 3 && IsSequence(bytes[..3]) then 3
    else if |bytes| >= 4 && IsSequence(bytes[..4]) then 4
    else 0
  }

  /** The length of the longest broken sequence in front, or else of one byte. */
  function BrokenLength(bytes: seq<Byte>): (n: nat)
    requires bytes != []
    ensures 1 <= n <= |bytes| && (n == 1 || IsBroken(bytes[..n]))
    ensures forall m :: n < m <= |bytes| ==> !IsBroken(bytes[..m])
  {
    if |bytes| >= 3 && IsBroken(bytes[..3]) then 3
    else if |bytes| >= 2 && IsBroken(bytes[..2]) then 2
    else 1
  }

  function Reference(bytes: seq<Byte>): string
    decreases |bytes|
  {
    if bytes == [] then ""
    else if WholeLength(bytes) > 0 then
      [CodePoint(bytes[..WholeLength(bytes)]) as char] + Reference(bytes[WholeLength(bytes)..])
    else [REPLACEMENT] + Reference(bytes[BrokenLength(bytes)..])
  }

  lemma ReferenceWhole(s: seq<Byte>, rest: seq<Byte>)
    requires IsSequence(s)
    ensures Reference(s + rest) == [CodePoint(s) as char] + Reference(rest)
  {
    assert (s + rest)[..|s|] == s && (s + rest)[|s|..] == rest;
  }

  lemma CutOfSequence(s: seq<Byte>, m: nat)
    requires 1 <= m < |s| && (IsSequence(s) || IsBroken(s))
    ensures IsBroken(s[..m]) && !IsSequence(s[..m])
  {
  }

  /** Nothing longer than `s` in front of `bytes` is whole or broken. */
  lemma NothingLonger(s: seq<Byte>, b: Byte, bytes: seq<Byte>, m: nat)
    requires IsBroken(s) && !IsBroken(s + [b]) && !IsSequence(s + [b])
    requires |s| < m <= |bytes| && bytes[..|s| + 1] == s + [b]
    ensures !IsBroken(bytes[..m]) && !IsSequence(bytes[..m])
  {
    assert bytes[..m][..|s| + 1] == s + [b];
    if m > |s| + 1 {
      CutOfAny(bytes[..m], |s| + 1);
    }
  }

  lemma CutOfAny(s: seq<Byte>, m: nat)
    requires 1 <= m < |s|
    ensures IsSequence(s) || IsBroken(s) ==> IsBroken(s[..m])
  {
    if IsSequence(s) || IsBroken(s) {
      CutOfSequence(s, m);
    }
  }

  lemma ReferenceBroken(s: seq<Byte>, rest: seq<Byte>)
    requires IsBroken(s)
    requires rest != [] ==> !IsBroken(s + [rest[0]]) && !IsSequence(s + [rest[0]])
    ensures Reference(s + rest) == [REPLACEMENT] + Reference(rest)
  {
    var bytes := s + rest;
    assert bytes[..|s|] == s && bytes[|s|..] == rest;
    forall m | 1 <= m <= |bytes|
      ensures !IsSequence(bytes[..m]) && (m > |s| ==> !IsBroken(bytes[..m]))
    {
      if m > |s| {
        assert bytes[..|s| + 1] == s + [rest[0]];
        NothingLonger(s, rest[0], bytes, m);
      } else {
        assert bytes[..m] == s[..m];
      }
    }
    assert WholeLength(bytes) == 0 && BrokenLength(bytes) == |s|;
  }

  lemma ReferenceJunk(b: Byte, rest: seq<Byte>)
    requires !IsBroken([b]) && !IsSequence([b])
    ensures Reference([b] + rest) == [REPLACEMENT] + Reference(rest)
  {
    var bytes := [b] + rest;
    assert bytes[1..] == rest && bytes[0] == b;
    forall m | 1 <= m <= |bytes| ensures !IsSequence(bytes[..m]) && !IsBroken(bytes[..m]) {
      assert bytes[..m][0] == b;
    }
    assert WholeLength(bytes) == 0 && BrokenLength(bytes) == 1;
  }

  // ---------- the decoder refines it ----------

  /** How many bytes a sequence with this first byte has. */
  function LengthOf(first: Byte): nat {
    if first < 0x80 then 1 else if first < 0xE0 then 2 else if first < 0xF0 then 3 else 4
  }

  function Bits(s: seq<Byte>): int
    requires s != []
  {
    if |s| == 1 then
      var first: int := s[0];
      if first < 0xE0 then first - 0xC0 else if first < 0xF0 then first - 0xE0 else first - 0xF0
    else
      var last: int := s[|s| - 1];
      Bits(s[..|s| - 1]) * 64 + (last - 0x80)
  }

  /** The bytes read since the last whole or given-up sequence are `s`. */
  predicate Pending(p: Partial, s: seq<Byte>) {
    if s == [] then p == NOTHING_PENDING
    else
      && IsBroken(s) && p.remaining == LengthOf(s[0]) - |s| && p.codePoint == Bits(s)
      && forall b: Byte :: p.lower <= b <= p.upper <==> IsContinuation(b) && (|s| == 1 ==> IsSecond(s[0], b))
  }

  lemma FirstByte(b: Byte)
    ensures var step := NextByte(NOTHING_PENDING, b);
      if IsSequence([b]) then step == Step(NOTHING_PENDING, [CodePoint([b]) as char])
      else if IsBroken([b]) then step.emitted == "" && Pending(step.partial, [b])
      else step == Step(NOTHING_PENDING, [REPLACEMENT])
  {
  }

  lemma OutOfBounds(p: Partial, s: seq<Byte>, b: Byte)
    requires s != [] && Pending(p, s) && !(p.lower <= b <= p.upper)
    ensures !IsBroken(s + [b]) && !IsSequence(s + [b])
    ensures NextByte(p, b) == Step(StartByte(b).partial, [REPLACEMENT] + StartByte(b).emitted)
  {
  }

  lemma BitsGrow(s: seq<Byte>, b: Byte)
    requires s != [] && IsBroken(s)
    ensures Bits(s + [b]) == Bits(s) * 64 + ((b as int) - 0x80)
    ensures IsSequence(s + [b]) ==> CodePoint(s + [b]) == Bits(s) * 64 + ((b as int) - 0x80)
  {
    var whole := s + [b];
    assert whole[..|s|] == s && whole[|s|] == b && forall i :: 0 <= i < |s| ==> whole[i] == s[i];
    BitsOfShort(s);
  }

  lemma BitsOfShort(s: seq<Byte>)
    requires 1 <= |s| <= 3
    ensures Bits(s) == var x: int := Bits([s[0]]);
                       if |s| == 1 then x
                       else
                         var y: int := s[1];
                         var xy := x * 64 + (y - 0x80);
                         if |s| == 2 then xy else var z: int := s[2]; xy * 64 + (z - 0x80)
  {
    assert |s| == 1 ==> s == [s[0]];
    if |s| == 2 {
      assert s[..1] == [s[0]];
    } else if |s| == 3 {
      var two := s[..2];
      assert two[..1] == [s[0]] && two[1] == s[1];
    }
  }

  lemma InBounds(p: Partial, s: seq<Byte>, b: Byte)
    requires s != [] && Pending(p, s) && p.lower <= b <= p.upper
    ensures p.remaining == 1 ==>
      IsSequence(s + [b]) && NextByte(p, b) == Step(NOTHING_PENDING, [CodePoint(s + [b]) as char])
    ensures p.remaining > 1 ==> NextByte(p, b).emitted == "" && Pending(NextByte(p, b).partial, s + [b])
  {
    assert IsContinuation(b) && (|s| == 1 ==> IsSecond(s[0], b));
    BitsGrow(s, b);
    if p.remaining == 1 {
      assert IsSequence(s + [b]);
    } else {
      assert IsBroken(s + [b]);
    }
  }

  /** What is emitted for the rest, the end of the stream included. */
  function Ending(p: Partial, rest: seq<Byte>): string {
    var s := NextBytes(p, rest);
    s.emitted + if s.partial.remaining > 0 then [REPLACEMENT] else ""
  }

  lemma EndingCons(p: Partial, b: Byte, rest: seq<Byte>)
    ensures Ending(p, [b] + rest) == NextByte(p, b).emitted + Ending(NextByte(p, b).partial, rest)
  {
    NextBytesCons(p, b, rest);
  }

  lemma {:induction false} PendingDecodes(p: Partial, s: seq<Byte>, rest: seq<Byte>)
    requires Pending(p, s)
    ensures Ending(p, rest) == Reference(s + rest)
    decreases |rest|, 2
  {
    if rest == [] {
      assert s + rest == s;
      if s != [] {
        ReferenceBroken(s, []);
        assert s + [] == s;
      }
    } else {
      var b, more := rest[0], rest[1..];
      assert rest == [b] + more;
      if s == [] {
        assert s + rest == [b] + more;
        StartDecodes(b, more);
      } else if p.lower <= b <= p.upper {
        InsideDecodes(p, s, b, more);
      } else {
        OutsideDecodes(p, s, b, more);
      }
    }
  }

  lemma {:induction false} StartDecodes(b: Byte, more: seq<Byte>)
    ensures Ending(NOTHING_PENDING, [b] + more) == Reference([b] + more)
    decreases |more| + 1, 0
  {
    FirstByte(b);
    EndingCons(NOTHING_PENDING, b, more);
    var step := NextByte(NOTHING_PENDING, b);
    if IsBroken([b]) {
      PendingDecodes(step.partial, [b], more);
    } else {
      PendingDecodes(NOTHING_PENDING, [], more);
      assert [] + more == more;
      if IsSequence([b]) {
        ReferenceWhole([b], more);
      } else {
        ReferenceJunk(b, more);
      }
    }
  }

  lemma {:induction false} OutsideDecodes(p: Partial, s: seq<Byte>, b: Byte, more: seq<Byte>)
    requires s != [] && Pending(p, s) && !(p.lower <= b <= p.upper)
    ensures Ending(p, [b] + more) == Reference(s + ([b] + more))
    decreases |more| + 1, 1
  {
    OutOfBounds(p, s, b);
    ReferenceBroken(s, [b] + more);
    StartDecodes(b, more);
    EndingCons(p, b, more);
    EndingCons(NOTHING_PENDING, b, more);
    Prepend(StartByte(b).emitted, Ending(StartByte(b).partial, more));
  }

  lemma Prepend(x: string, y: string)
    ensures ([REPLACEMENT] + x) + y == [REPLACEMENT] + (x + y)
  {
  }

  lemma {:induction false} InsideDecodes(p: Partial, s: seq<Byte>, b: Byte, more: seq<Byte>)
    requires s != [] && Pending(p, s) && p.lower <= b <= p.upper
    ensures Ending(p, [b] + more) == Reference(s + ([b] + more))
    decreases |more| + 1, 1
  {
    InBounds(p, s, b);
    EndingCons(p, b, more);
    assert s + ([b] + more) == (s + [b]) + more;
    if p.remaining == 1 {
      ReferenceWhole(s + [b], more);
      PendingDecodes(NOTHING_PENDING, [], more);
      assert [] + more == more;
    } else {
      PendingDecodes(NextByte(p, b).partial, s + [b], more);
    }
  }

  /** On any bytes, well-formed or not, the decoder gives what the reference gives, a leading byte order mark apart. */
  lemma DecodeIsReference(bytes: seq<Byte>)
    ensures Decode(bytes) == DropBom(false, Reference(bytes))
  {
    PendingDecodes(NOTHING_PENDING, [], bytes);
    assert [] + bytes == bytes;
    var s := NextBytes(NOTHING_PENDING, bytes);
    var last := if s.partial.remaining > 0 then [REPLACEMENT] else "";
    BomDropsOnce(false, s.emitted, last);
    assert DropBom(s.emitted != "", last) == last;
  }
}
