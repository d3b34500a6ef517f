/** The input-version half of an idempotency key, and exactly which inputs share one. */
module InputVersions {
  import opened TextOrder

  function Itself(text: string): string {
    text
  }

  /** `join("\n")`. */
  function Join(lines: seq<string>): string {
    if lines == [] then "" else if |lines| == 1 then lines[0] else lines[0] + "\n" + Join(lines[1..])
  }

  function SortedLines(lines: seq<string>): string {
    Join(Sort(Itself, lines))
  }

  function Project(side: ((string, string)) -> string, pairs: seq<(string, string)>): (parts: seq<string>)
    ensures |parts| == |pairs| && forall i :: 0 <= i < |pairs| ==> parts[i] == side(pairs[i])
  {
    seq(|pairs|, i requires 0 <= i < |pairs| => side(pairs[i]))
  }

  function First(pair: (string, string)): string {
    pair.0
  }

  function Second(pair: (string, string)): string {
    pair.1
  }

  function Firsts(pairs: seq<(string, string)>): seq<string> {
    Project(First, pairs)
  }

  function Seconds(pairs: seq<(string, string)>): seq<string> {
    Project(Second, pairs)
  }

  function ImportText(sourceFingerprints: seq<(string, string)>): string {
    SortedLines(Firsts(sourceFingerprints)) + "|" + SortedLines(Seconds(sourceFingerprints))
  }

  function RescanText(scannerConfigVersion: string, roots: seq<string>): string {
    scannerConfigVersion + "|" + SortedLines(roots)
  }

  method ImportSessionsInputVersion(sha: string -> string, sourceFingerprints: seq<(string, string)>)
    returns (version: string)
    ensures version == sha(ImportText(sourceFingerprints))
  {
    var keys, fingerprints := [], [];
    for i := 0 to |sourceFingerprints|
      invariant keys == Firsts(sourceFingerprints)[..i]
      invariant fingerprints == Seconds(sourceFingerprints)[..i]
    {
      keys := keys + [sourceFingerprints[i].0];
      fingerprints := fingerprints + [sourceFingerprints[i].1];
    }
    assert keys == Firsts(sourceFingerprints) && fingerprints == Seconds(sourceFingerprints);
    keys := Sort(Itself, keys);
    fingerprints := Sort(Itself, fingerprints);
    version := sha(Join(keys) + "|" + Join(fingerprints));
  }

  method RescanSourcesInputVersion(sha: string -> string, scannerConfigVersion: string, roots: seq<string>)
    returns (version: string)
    ensures version == sha(RescanText(scannerConfigVersion, roots))
  {
    var sorted := Sort(Itself, roots);
    version := sha(scannerConfigVersion + "|" + Join(sorted));
  }

  // ---------- order does not matter ----------

  lemma SortForgetsOrder(a: seq<string>, b: seq<string>)
    ensures multiset(a) == multiset(b) <==> Sort(Itself, a) == Sort(Itself, b)
  {
    if multiset(a) == multiset(b) {
      SortedIsUnique(Itself, Sort(Itself, a), Sort(Itself, b));
    }
  }

  lemma MoveToFront<T>(before: seq<T>, x: T, after: seq<T>)
    ensures multiset(before + [x] + after) == multiset{x} + multiset(before + after)
  {
  }

  lemma {:induction false} ProjectionForgetsOrder(side: ((string, string)) -> string,
                                                  a: seq<(string, string)>, b: seq<(string, string)>)
    requires multiset(a) == multiset(b)
    ensures multiset(Project(side, a)) == multiset(Project(side, b))
  {
    if a == [] {
      SameElements(a, b);
    } else {
      var j := FindFirst(a, b);
      ProjectionForgetsOrder(side, a[1..], b[..j] + b[j + 1..]);
      ProjectRest(side, a, b, j);
    }
  }

  lemma FindFirst<T>(a: seq<T>, b: seq<T>) returns (j: nat)
    requires a != [] && multiset(a) == multiset(b)
    ensures j < |b| && b[j] == a[0] && multiset(a[1..]) == multiset(b[..j] + b[j + 1..])
  {
    SameElements(a, b);
    assert a[0] in b;
    j :| 0 <= j < |b| && b[j] == a[0];
    var moved := [b[j]] + (b[..j] + b[j + 1..]);
    MoveToFront(b[..j], b[j], b[j + 1..]);
    assert b == b[..j] + [b[j]] + b[j + 1..];
    SameTails(a, moved);
    assert moved[1..] == b[..j] + b[j + 1..];
  }

  lemma ProjectRest(side: ((string, string)) -> string, a: seq<(string, string)>, b: seq<(string, string)>, j: nat)
    requires a != [] && j < |b| && b[j] == a[0]
    requires multiset(Project(side, a[1..])) == multiset(Project(side, b[..j] + b[j + 1..]))
    ensures multiset(Project(side, a)) == multiset(Project(side, b))
  {
    var before, after := Project(side, b[..j]), Project(side, b[j + 1..]);
    assert Project(side, a) == [side(a[0])] + Project(side, a[1..]);
    assert Project(side, b[..j] + b[j + 1..]) == before + after;
    assert Project(side, b) == before + [side(b[j])] + after;
    MoveToFront(before, side(b[j]), after);
  }

  lemma InputVersionsForgetOrder(a: seq<(string, string)>, b: seq<(string, string)>,
                                 config: string, r: seq<string>, s: seq<string>)
    ensures multiset(a) == multiset(b) ==> ImportText(a) == ImportText(b)
    ensures multiset(r) == multiset(s) ==> RescanText(config, r) == RescanText(config, s)
  {
    if multiset(a) == multiset(b) {
      ProjectionForgetsOrder(First, a, b);
      ProjectionForgetsOrder(Second, a, b);
      SortForgetsOrder(Firsts(a), Firsts(b));
      SortForgetsOrder(Seconds(a), Seconds(b));
    }
    SortForgetsOrder(r, s);
  }

  // ---------- lines, and the newlines inside them ----------

  /** A text cut at its newlines. */
  function Pieces(text: string): (pieces: seq<string>)
    ensures pieces != []
  {
    if text == "" then [""]
    else
      var rest := Pieces(text[1..]);
      if text[0] == '\n' then [""] + rest else [[text[0]] + rest[0]] + rest[1..]
  }

  lemma JoinOfMore(first: string, rest: seq<string>)
    requires rest != []
    ensures Join([first] + rest) == first + "\n" + Join(rest)
  {
    assert ([first] + rest)[1..] == rest;
  }

  lemma JoinAfter(c: char, lines: seq<string>)
    requires lines != []
    ensures Join([[c] + lines[0]] + lines[1..]) == [c] + Join(lines)
  {
    var first, rest := lines[0], lines[1..];
    if rest == [] {
      assert Join([[c] + first] + rest) == [c] + first;
    } else {
      JoinOfMore([c] + first, rest);
      CharBefore(c, first, Join(rest));
    }
  }

  lemma CharBefore(c: char, x: string, y: string)
    ensures ([c] + x) + "\n" + y == [c] + (x + "\n" + y)
  {
  }

  lemma {:induction false} JoinOfPieces(text: string)
    ensures Join(Pieces(text)) == text
  {
    if text != "" {
      JoinOfPieces(text[1..]);
      if text[0] == '\n' {
        JoinOfMore("", Pieces(text[1..]));
      } else {
        JoinAfter(text[0], Pieces(text[1..]));
      }
    }
  }

  lemma {:induction false} PiecesOfTwo(x: string, y: string)
    ensures Pieces(x + "\n" + y) == Pieces(x) + Pieces(y)
  {
    if x == "" {
      assert "" + "\n" + y == "\n" + y && ("\n" + y)[1..] == y;
    } else {
      PiecesOfTwo(x[1..], y);
      assert (x + "\n" + y)[0] == x[0] && (x + "\n" + y)[1..] == x[1..] + "\n" + y;
      PiecesGrow(x[0], Pieces(x[1..]), Pieces(y));
    }
  }

  lemma PiecesGrow(c: char, a: seq<string>, b: seq<string>)
    requires a != []
    ensures [""] + (a + b) == ([""] + a) + b
    ensures [[c] + (a + b)[0]] + (a + b)[1..] == ([[c] + a[0]] + a[1..]) + b
  {
  }

  /** The lines a reader of the joined text sees. */
  function Fragments(lines: seq<string>): seq<string> {
    if lines == [] then [""]
    else if |lines| == 1 then Pieces(lines[0])
    else Pieces(lines[0]) + Fragments(lines[1..])
  }

  lemma {:induction false} PiecesOfJoin(lines: seq<string>)
    ensures Pieces(Join(lines)) == Fragments(lines)
  {
    if |lines| > 1 {
      PiecesOfTwo(lines[0], Join(lines[1..]));
      PiecesOfJoin(lines[1..]);
    }
  }

  /** The same lines once each list is sorted and its members are cut at their newlines. */
  predicate SameLines(a: seq<string>, b: seq<string>) {
    Fragments(Sort(Itself, a)) == Fragments(Sort(Itself, b))
  }

  lemma SortedLinesTell(a: seq<string>, b: seq<string>)
    ensures SortedLines(a) == SortedLines(b) <==> SameLines(a, b)
  {
    PiecesOfJoin(Sort(Itself, a));
    PiecesOfJoin(Sort(Itself, b));
    JoinOfPieces(SortedLines(a));
    JoinOfPieces(SortedLines(b));
  }

  predicate Lacks(c: char, lines: seq<string>) {
    forall i :: 0 <= i < |lines| ==> c !in lines[i]
  }

  lemma {:induction false} OneLineIsOnePiece(line: string)
    requires '\n' !in line
    ensures Pieces(line) == [line]
  {
    if line != "" {
      OneLineIsOnePiece(line[1..]);
      assert line == [line[0]] + line[1..];
    }
  }

  lemma {:induction false} LinesAreFragments(lines: seq<string>)
    requires Lacks('\n', lines)
    ensures Fragments(lines) == if lines == [] then [""] else lines
  {
    if lines != [] {
      OneLineIsOnePiece(lines[0]);
      LinesAreFragments(lines[1..]);
      assert lines == [lines[0]] + lines[1..];
    }
  }

  lemma SortKeepsLacking(c: char, lines: seq<string>)
    requires Lacks(c, lines)
    ensures Lacks(c, Sort(Itself, lines))
  {
    SameElements(Sort(Itself, lines), lines);
    forall i | 0 <= i < |lines| ensures c !in Sort(Itself, lines)[i] {
      assert Sort(Itself, lines)[i] in lines;
    }
  }

  /** No line, or one empty line. */
  predicate IsBlank(lines: seq<string>) {
    lines == [] || lines == [""]
  }

  lemma SortOfBlank(lines: seq<string>)
    ensures IsBlank(Sort(Itself, lines)) <==> IsBlank(lines)
  {
    SameElements(Sort(Itself, lines), lines);
    assert IsBlank(Sort(Itself, lines)) && lines != [] ==> Sort(Itself, lines)[0] in lines;
    assert IsBlank(lines) && lines != [] ==> lines[0] in Sort(Itself, lines);
  }

  /** For newline-free lines that is the same lines with the same multiplicity, blank lists apart. */
  lemma SameLinesOfLines(a: seq<string>, b: seq<string>)
    requires Lacks('\n', a) && Lacks('\n', b)
    ensures SameLines(a, b) <==> multiset(a) == multiset(b) || (IsBlank(a) && IsBlank(b))
  {
    SortForgetsOrder(a, b);
    SortKeepsLacking('\n', a);
    SortKeepsLacking('\n', b);
    LinesAreFragments(Sort(Itself, a));
    LinesAreFragments(Sort(Itself, b));
    SortOfBlank(a);
    SortOfBlank(b);
  }

  // ---------- the separator, and the bars beside it ----------

  /** `y` runs past the end of `x`, over a separator inside `r`, up to where `s` starts. */
  predicate Spills(c: char, x: string, r: string, y: string, s: string) {
    |x| < |y| && y == x + [c] + y[|x| + 1..] && r == y[|x| + 1..] + [c] + s
  }

  lemma SpilledText(c: char, x: string, r: string, y: string, s: string)
    requires |x| < |y|
    ensures x + [c] + r == y + [c] + s <==> Spills(c, x, r, y, s)
  {
    var whole := y + [c] + s;
    if x + [c] + r == whole {
      assert x == whole[..|x|] && whole[|x|] == c && r == whole[|x| + 1..];
      assert whole[..|y|] == y && whole[|x| + 1..] == y[|x| + 1..] + [c] + s;
    }
    if Spills(c, x, r, y, s) {
      var middle := y[|x| + 1..];
      assert (x + [c]) + (middle + [c] + s) == ((x + [c]) + middle) + [c] + s;
    }
  }

  /** When two texts put together around a separator agree. */
  lemma CutOrSpill(c: char, x: string, r: string, y: string, s: string)
    ensures x + [c] + r == y + [c] + s
        <==> (x == y && r == s) || Spills(c, x, r, y, s) || Spills(c, y, s, x, r)
  {
    if |x| < |y| {
      SpilledText(c, x, r, y, s);
    } else if |y| < |x| {
      SpilledText(c, y, s, x, r);
    } else if x + [c] + r == y + [c] + s {
      assert x == (x + [c] + r)[..|x|] && y == (y + [c] + s)[..|x|];
      assert r == (x + [c] + r)[|x| + 1..] && s == (y + [c] + s)[|x| + 1..];
    }
  }

  lemma SpillHoldsSeparator(c: char, x: string, r: string, y: string, s: string)
    requires Spills(c, x, r, y, s)
    ensures c in y && c in r
  {
    assert y[|x|] == c && r[|y| - |x| - 1] == c;
  }

  lemma {:induction false} JoinLacks(c: char, lines: seq<string>)
    requires c != '\n' && Lacks(c, lines)
    ensures c !in Join(lines)
  {
    if |lines| > 1 {
      JoinLacks(c, lines[1..]);
    }
  }

  lemma SortedLinesLack(c: char, lines: seq<string>)
    requires c != '\n' && Lacks(c, lines)
    ensures c !in SortedLines(lines)
  {
    SortKeepsLacking(c, lines);
    JoinLacks(c, Sort(Itself, lines));
  }

  // ---------- exactly which inputs share a version ----------

  /** Two imports, whatever their keys and fingerprints hold. */
  lemma ImportVersionIsExact(sha: string -> string, a: seq<(string, string)>, b: seq<(string, string)>)
    requires forall x, y :: sha(x) == sha(y) ==> x == y
    ensures sha(ImportText(a)) == sha(ImportText(b)) <==>
      var k, f, k', f' :=
        SortedLines(Firsts(a)), SortedLines(Seconds(a)), SortedLines(Firsts(b)), SortedLines(Seconds(b));
      || (SameLines(Firsts(a), Firsts(b)) && SameLines(Seconds(a), Seconds(b)))
      || Spills('|', k, f, k', f') || Spills('|', k', f', k, f)
  {
    SortedLinesTell(Firsts(a), Firsts(b));
    SortedLinesTell(Seconds(a), Seconds(b));
    CutOrSpill('|', SortedLines(Firsts(a)), SortedLines(Seconds(a)), SortedLines(Firsts(b)), SortedLines(Seconds(b)));
  }

  /** What a fingerprint is: some hexadecimal digits, so neither a bar nor a newline. */
  predicate AreDigests(fingerprints: seq<string>) {
    Lacks('|', fingerprints) && Lacks('\n', fingerprints)
    && forall i :: 0 <= i < |fingerprints| ==> fingerprints[i] != ""
  }

  lemma DigestsDoNotSpill(a: seq<(string, string)>, b: seq<(string, string)>)
    requires AreDigests(Seconds(a))
    ensures
      !Spills('|', SortedLines(Firsts(a)), SortedLines(Seconds(a)), SortedLines(Firsts(b)), SortedLines(Seconds(b)))
  {
    SortedLinesLack('|', Seconds(a));
    var k, f, k', f' :=
      SortedLines(Firsts(a)), SortedLines(Seconds(a)), SortedLines(Firsts(b)), SortedLines(Seconds(b));
    if Spills('|', k, f, k', f') {
      SpillHoldsSeparator('|', k, f, k', f');
    }
  }

  lemma SameDigests(a: seq<string>, b: seq<string>)
    requires AreDigests(a) && AreDigests(b)
    ensures SameLines(a, b) <==> multiset(a) == multiset(b)
    ensures multiset(a) == multiset(b) ==> |a| == |b|
  {
    SameLinesOfLines(a, b);
    if multiset(a) == multiset(b) {
      SameElements(a, b);
    }
  }

  lemma SameKeys(a: seq<string>, b: seq<string>)
    requires Lacks('\n', a) && Lacks('\n', b)
    ensures SameLines(a, b) && |a| == |b| <==> multiset(a) == multiset(b)
  {
    SameLinesOfLines(a, b);
    if multiset(a) == multiset(b) {
      SameElements(a, b);
    }
  }

  /**
   With digests for fingerprints, two imports share a version exactly when they have the same keys and,
   apart from that, the same fingerprints; a newline inside a key counts as the end of a key.
   */
  lemma ImportOfDigestsIsExact(sha: string -> string, a: seq<(string, string)>, b: seq<(string, string)>)
    requires forall x, y :: sha(x) == sha(y) ==> x == y
    requires AreDigests(Seconds(a)) && AreDigests(Seconds(b))
    ensures sha(ImportText(a)) == sha(ImportText(b))
        <==> SameLines(Firsts(a), Firsts(b)) && multiset(Seconds(a)) == multiset(Seconds(b))
    ensures Lacks('\n', Firsts(a)) && Lacks('\n', Firsts(b)) ==>
      (sha(ImportText(a)) == sha(ImportText(b)) <==>
         multiset(Firsts(a)) == multiset(Firsts(b)) && multiset(Seconds(a)) == multiset(Seconds(b)))
  {
    ImportVersionIsExact(sha, a, b);
    DigestsDoNotSpill(a, b);
    DigestsDoNotSpill(b, a);
    SameDigests(Seconds(a), Seconds(b));
    if Lacks('\n', Firsts(a)) && Lacks('\n', Firsts(b)) {
      SameKeys(Firsts(a), Firsts(b));
    }
  }

  /** Two rescans, whatever their configurations and roots hold. */
  lemma RescanVersionIsExact(sha: string -> string, config: string, r: seq<string>, config': string, s: seq<string>)
    requires forall x, y :: sha(x) == sha(y) ==> x == y
    ensures sha(RescanText(config, r)) == sha(RescanText(config', s)) <==>
      || (config == config' && SameLines(r, s))
      || Spills('|', config, SortedLines(r), config', SortedLines(s))
      || Spills('|', config', SortedLines(s), config, SortedLines(r))
  {
    SortedLinesTell(r, s);
    CutOrSpill('|', config, SortedLines(r), config', SortedLines(s));
  }

  /** With a bar-free configuration version, such as the one in use, nothing spills. */
  lemma RescanOfPathsIsExact(sha: string -> string, config: string, r: seq<string>, config': string, s: seq<string>)
    requires forall x, y :: sha(x) == sha(y) ==> x == y
    requires '|' !in config && '|' !in config'
    ensures sha(RescanText(config, r)) == sha(RescanText(config', s)) <==> config == config' && SameLines(r, s)
    ensures Lacks('\n', r) && Lacks('\n', s) ==>
      (sha(RescanText(config, r)) == sha(RescanText(config', s)) <==>
         config == config' && (multiset(r) == multiset(s) || (IsBlank(r) && IsBlank(s))))
  {
    RescanVersionIsExact(sha, config, r, config', s);
    if Spills('|', config, SortedLines(r), config', SortedLines(s)) {
      SpillHoldsSeparator('|', config, SortedLines(r), config', SortedLines(s));
    }
    if Spills('|', config', SortedLines(s), config, SortedLines(r)) {
      SpillHoldsSeparator('|', config', SortedLines(s), config, SortedLines(r));
    }
    if Lacks('\n', r) && Lacks('\n', s) {
      SameLinesOfLines(r, s);
    }
  }

  // ---------- the texts, by example ----------

  lemma SortedPair(x: string, y: string)
    requires LexLeq(x, y)
    ensures Sort(Itself, [x, y]) == [x, y]
  {
    assert [x, y][1..] == [y] && [y][1..] == [];
    assert Sort(Itself, [y]) == [y];
  }

  lemma JoinedPair(x: string, y: string)
    ensures Join([x, y]) == x + "\n" + y
  {
    JoinOfMore(x, [y]);
    assert [x] + [y] == [x, y];
  }

  lemma SortOfTwo(x: string, y: string)
    requires LexLeq(x, y)
    ensures SortedLines([x, y]) == x + "\n" + y && SortedLines([y, x]) == x + "\n" + y
  {
    SortedPair(x, y);
    JoinedPair(x, y);
    assert multiset([x, y]) == multiset([y, x]);
    SortForgetsOrder([x, y], [y, x]);
  }

  lemma PairText(a: (string, string), b: (string, string))
    ensures ImportText([a, b]) == SortedLines([a.0, b.0]) + "|" + SortedLines([a.1, b.1])
  {
    assert Firsts([a, b]) == [a.0, b.0] && Seconds([a, b]) == [a.1, b.1];
  }

  /** What is digested: keys, each on a line and in order, a bar, and the fingerprints alike. */
  lemma ImportTextOfTwo(key1: string, key2: string, print1: string, print2: string)
    requires LexLeq(key1, key2) && LexLeq(print1, print2)
    ensures ImportText([(key1, print1), (key2, print2)]) == (key1 + "\n" + key2) + "|" + (print1 + "\n" + print2)
    ensures ImportText([(key2, print1), (key1, print2)]) == (key1 + "\n" + key2) + "|" + (print1 + "\n" + print2)
  {
    PairText((key1, print1), (key2, print2));
    PairText((key2, print1), (key1, print2));
    SortOfTwo(key1, key2);
    SortOfTwo(print1, print2);
  }

  lemma RescanTextOfTwo(config: string, x: string, y: string)
    requires LexLeq(x, y)
    ensures RescanText(config, [x, y]) == config + "|" + (x + "\n" + y)
    ensures RescanText(config, [y, x]) == config + "|" + (x + "\n" + y)
  {
    SortOfTwo(x, y);
  }

  // ---------- inputs that collide ----------

  lemma SortOfOne(x: string)
    ensures SortedLines([x]) == x
  {
    assert Sort(Itself, [x]) == [x] by {
      assert [x][1..] == [];
    }
  }

  /** A root that holds a newline passes for two. */
  lemma NewlineInARootCollides(config: string, x: string, y: string)
    requires LexLeq(x, y)
    ensures RescanText(config, [x + "\n" + y]) == RescanText(config, [x, y])
  {
    SortOfOne(x + "\n" + y);
    SortOfTwo(x, y);
  }

  /** A bar in the configuration version passes for one in a root. */
  lemma BarInTheConfigurationCollides(config: string, x: string, y: string)
    ensures RescanText(config + "|" + x, [y]) == RescanText(config, [x + "|" + y])
  {
    SortOfOne(y);
    SortOfOne(x + "|" + y);
    assert (config + "|" + x) + "|" + y == config + "|" + (x + "|" + y);
  }

  /** So two sessions that trade fingerprints leave the version as it was, although both changed. */
  lemma SwappedFingerprintsCollide(key1: string, key2: string, print1: string, print2: string)
    ensures ImportText([(key1, print1), (key2, print2)]) == ImportText([(key1, print2), (key2, print1)])
  {
    var a, b := [(key1, print1), (key2, print2)], [(key1, print2), (key2, print1)];
    assert Firsts(a) == [key1, key2] == Firsts(b);
    assert Seconds(a) == [print1] + [print2] && Seconds(b) == [print2] + [print1];
    SortForgetsOrder(Firsts(a), Firsts(b));
    SortForgetsOrder(Seconds(a), Seconds(b));
  }
}
