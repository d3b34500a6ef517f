/**
 What the two passes do to a whole stream: they act on maximal runs only, they commute, and they
 lose nothing.
 */
module HintRuns {
  import opened Wrappers
  import opened HintEmission
  import opened HintPasses
  import opened Sequences

  /** One pass of each kind. */
  predicate Independent(p: Pass, q: Pass) {
    p.Grouping? <==> q.Clustering?
  }

  predicate NoneInRun(p: Pass, hints: seq<RenderHint>) {
    forall i :: 0 <= i < |hints| ==> !InRun(p, hints[i])
  }

  predicate StartsOutside(p: Pass, hints: seq<RenderHint>) {
    hints != [] ==> !InRun(p, hints[0])
  }

  // ---------- how a pass distributes over the stream ----------

  lemma FlushAtDelimiter(p: Pass, buffer: seq<RenderHint>, rest: seq<RenderHint>)
    requires AllInRun(p, buffer) && StartsOutside(p, rest)
    ensures CollapseFrom(p, buffer, rest) == Flush(p, buffer) + Collapse(p, rest)
  {
    if rest != [] {
      assert Flush(p, []) + [rest[0]] == [rest[0]];
      Associate(Flush(p, buffer), [rest[0]], CollapseFrom(p, [], rest[1..]));
    }
  }

  /** A maximal run is flushed on its own. */
  lemma {:induction false} CollapseRun(p: Pass, buffer: seq<RenderHint>, run: seq<RenderHint>, rest: seq<RenderHint>)
    requires AllInRun(p, buffer) && AllInRun(p, run) && StartsOutside(p, rest)
    ensures AllInRun(p, buffer + run)
    ensures CollapseFrom(p, buffer, run + rest) == Flush(p, buffer + run) + Collapse(p, rest)
    decreases |run|
  {
    if run == [] {
      assert buffer + run == buffer && run + rest == rest;
      FlushAtDelimiter(p, buffer, rest);
    } else {
      assert (run + rest)[0] == run[0] && (run + rest)[1..] == run[1..] + rest;
      assert buffer + run == (buffer + [run[0]]) + run[1..];
      CollapseRun(p, buffer + [run[0]], run[1..], rest);
    }
  }

  lemma FlushMaximalRun(p: Pass, run: seq<RenderHint>, rest: seq<RenderHint>)
    requires AllInRun(p, run) && StartsOutside(p, rest)
    ensures Collapse(p, run + rest) == Flush(p, run) + Collapse(p, rest)
  {
    CollapseRun(p, [], run, rest);
    assert [] + run == run;
  }

  /** Hints outside any run pass through. */
  lemma {:induction false} PassThrough(p: Pass, outside: seq<RenderHint>, rest: seq<RenderHint>)
    requires NoneInRun(p, outside)
    ensures Collapse(p, outside + rest) == outside + Collapse(p, rest)
  {
    if outside == [] {
      assert outside + rest == rest;
    } else {
      var h, more := outside[0], outside[1..];
      assert outside == [h] + more;
      Associate([h], more, rest);
      PassOne(p, h, more + rest);
      PassThrough(p, more, rest);
      Associate([h], more, Collapse(p, rest));
    }
  }

  lemma PassOne(p: Pass, h: RenderHint, rest: seq<RenderHint>)
    requires !InRun(p, h)
    ensures Collapse(p, [h] + rest) == [h] + Collapse(p, rest)
  {
    assert ([h] + rest)[1..] == rest;
    assert Flush(p, []) + [h] == [h];
  }

  function RunLength(p: Pass, hints: seq<RenderHint>): (n: nat)
    ensures n <= |hints| && AllInRun(p, hints[..n]) && StartsOutside(p, hints[n..])
    ensures hints != [] && InRun(p, hints[0]) ==> n > 0
  {
    if hints == [] || !InRun(p, hints[0]) then 0
    else
      var n := 1 + RunLength(p, hints[1..]);
      assert hints[..n] == [hints[0]] + hints[1..][..n - 1];
      n
  }

  /** `front` is a maximal run at the front of the stream, or one hint outside every run. */
  predicate IsFront(p: Pass, front: seq<RenderHint>, rest: seq<RenderHint>) {
    front != [] && if AllInRun(p, front) then StartsOutside(p, rest) else |front| == 1
  }

  function CollapsedFront(p: Pass, front: seq<RenderHint>): seq<RenderHint> {
    if AllInRun(p, front) then Flush(p, front) else front
  }

  lemma CollapseFront(p: Pass, front: seq<RenderHint>, rest: seq<RenderHint>)
    requires IsFront(p, front, rest)
    ensures Collapse(p, front + rest) == CollapsedFront(p, front) + Collapse(p, rest)
  {
    if AllInRun(p, front) {
      FlushMaximalRun(p, front, rest);
    } else {
      PassThrough(p, front, rest);
    }
  }

  lemma FrontOf(p: Pass, hints: seq<RenderHint>) returns (front: seq<RenderHint>, rest: seq<RenderHint>)
    requires hints != []
    ensures hints == front + rest && IsFront(p, front, rest) && |rest| < |hints|
  {
    var n := if InRun(p, hints[0]) then RunLength(p, hints) else 1;
    front, rest := hints[..n], hints[n..];
  }

  // ---------- the passes commute ----------

  lemma FlushedIsOutside(p: Pass, q: Pass, run: seq<RenderHint>)
    requires Independent(p, q) && AllInRun(p, run)
    ensures NoneInRun(q, Flush(p, run))
  {
  }

  /** A pass never moves a run of the other kind to the front. */
  lemma FrontStaysOutside(p: Pass, q: Pass, hints: seq<RenderHint>)
    requires Independent(p, q) && StartsOutside(p, hints)
    ensures StartsOutside(p, Collapse(q, hints))
  {
    var n := RunLength(q, hints);
    assert hints == hints[..n] + hints[n..];
    if n > 0 {
      FlushMaximalRun(q, hints[..n], hints[n..]);
      FlushedIsOutside(q, p, hints[..n]);
    } else if hints != [] {
      assert hints == [hints[0]] + hints[1..];
      PassThrough(q, [hints[0]], hints[1..]);
    }
  }

  /** Both passes around a maximal run of `p`. */
  lemma BothPassesFlush(p: Pass, q: Pass, run: seq<RenderHint>, rest: seq<RenderHint>)
    requires Independent(p, q) && AllInRun(p, run) && StartsOutside(p, rest)
    ensures Collapse(q, Collapse(p, run + rest)) == Flush(p, run) + Collapse(q, Collapse(p, rest))
    ensures Collapse(p, Collapse(q, run + rest)) == Flush(p, run) + Collapse(p, Collapse(q, rest))
  {
    FlushMaximalRun(p, run, rest);
    FlushedIsOutside(p, q, run);
    PassThrough(q, Flush(p, run), Collapse(p, rest));
    PassThrough(q, run, rest);
    FrontStaysOutside(p, q, rest);
    FlushMaximalRun(p, run, Collapse(q, rest));
  }

  /** Both passes leave a hint that is in no run. */
  lemma BothPassesSkip(p: Pass, q: Pass, h: RenderHint, rest: seq<RenderHint>)
    requires Independent(p, q) && !InRun(p, h) && !InRun(q, h)
    ensures Collapse(q, Collapse(p, [h] + rest)) == [h] + Collapse(q, Collapse(p, rest))
  {
    PassThrough(p, [h], rest);
    PassThrough(q, [h], Collapse(p, rest));
  }

  lemma {:induction false} PassesCommute(p: Pass, q: Pass, hints: seq<RenderHint>)
    requires Independent(p, q)
    ensures Collapse(q, Collapse(p, hints)) == Collapse(p, Collapse(q, hints))
    decreases |hints|
  {
    if hints == [] {
    } else if InRun(p, hints[0]) {
      var n := RunLength(p, hints);
      assert hints == hints[..n] + hints[n..];
      BothPassesFlush(p, q, hints[..n], hints[n..]);
      PassesCommute(p, q, hints[n..]);
    } else if InRun(q, hints[0]) {
      var n := RunLength(q, hints);
      assert hints == hints[..n] + hints[n..];
      BothPassesFlush(q, p, hints[..n], hints[n..]);
      PassesCommute(p, q, hints[n..]);
    } else {
      assert hints == [hints[0]] + hints[1..];
      BothPassesSkip(p, q, hints[0], hints[1..]);
      BothPassesSkip(q, p, hints[0], hints[1..]);
      PassesCommute(p, q, hints[1..]);
    }
  }

  // ---------- erasing what a pass added ----------

  predicate IsHead(p: Pass, h: RenderHint) {
    match p
    case Grouping(_) => h.GroupHead?
    case Clustering => h.ClusterHead?
  }

  predicate IsMember(p: Pass, h: RenderHint) {
    match p
    case Grouping(_) => h.GroupMember? || h.GroupTextMember?
    case Clustering => h.ClusterMember?
  }

  predicate IsAddedBy(p: Pass, h: RenderHint) {
    IsHead(p, h) || IsMember(p, h)
  }

  predicate Untouched(p: Pass, hints: seq<RenderHint>) {
    forall i :: 0 <= i < |hints| ==> !IsAddedBy(p, hints[i])
  }

  lemma UntouchedParts(p: Pass, a: seq<RenderHint>, b: seq<RenderHint>)
    requires Untouched(p, a + b)
    ensures Untouched(p, a) && Untouched(p, b)
  {
    assert forall i :: 0 <= i < |a| ==> (a + b)[i] == a[i];
    forall i | 0 <= i < |b| ensures !IsAddedBy(p, b[i]) {
      assert (a + b)[|a| + i] == b[i];
    }
  }

  /** A member under its old kind; every other hint as it is. */
  function Unlabel(h: RenderHint): RenderHint {
    match h
    case GroupMember(index, pair, _, warnings) => Lifecycle(index, pair, warnings)
    case GroupTextMember(index, _, warnings) => Standalone(index, warnings, None)
    case ClusterMember(index, _, metadata) => MetadataRow(index, metadata)
    case _ => h
  }

  /** What is left of one hint. */
  function EraseOne(p: Pass, h: RenderHint): seq<RenderHint> {
    if IsHead(p, h) then [] else if IsMember(p, h) then [Unlabel(h)] else [h]
  }

  /** Drop the heads of `p` and give its members back their kind. */
  function Erase(p: Pass, hints: seq<RenderHint>): seq<RenderHint> {
    if hints == [] then []
    else
      EraseOne(p, hints[0]) + Erase(p, hints[1..])
  }

  lemma {:induction false} EraseAppend(p: Pass, a: seq<RenderHint>, b: seq<RenderHint>)
    ensures Erase(p, a + b) == Erase(p, a) + Erase(p, b)
  {
    if a == [] {
      assert a + b == b;
    } else {
      assert (a + b)[0] == a[0] && (a + b)[1..] == a[1..] + b;
      EraseAppend(p, a[1..], b);
      Associate(EraseOne(p, a[0]), Erase(p, a[1..]), Erase(p, b));
    }
  }

  lemma {:induction false} EraseUntouched(p: Pass, hints: seq<RenderHint>)
    requires Untouched(p, hints)
    ensures Erase(p, hints) == hints
  {
    if hints != [] {
      EraseUntouched(p, hints[1..]);
      assert hints == [hints[0]] + hints[1..];
    }
  }

  lemma {:induction false} EraseMembers(p: Pass, run: seq<RenderHint>, members: seq<RenderHint>, headIndex: nat)
    requires AllInRun(p, run) && |members| == |run|
    requires forall i :: 0 <= i < |run| ==> members[i] == Relabel(run[i], headIndex)
    ensures Erase(p, members) == run
  {
    if run != [] {
      EraseMembers(p, run[1..], members[1..], headIndex);
      assert Unlabel(members[0]) == run[0];
      assert run == [run[0]] + run[1..];
    }
  }

  lemma EraseFlushed(p: Pass, run: seq<RenderHint>)
    requires AllInRun(p, run)
    ensures Erase(p, Flush(p, run)) == run
  {
    if Qualifies(p, run) {
      var out := Flush(p, run);
      assert out[1..] == Members(p, run);
      EraseMembers(p, run, Members(p, run), HeadIndex(p, run));
    } else {
      EraseUntouched(p, run);
    }
  }

  /** Erasing the heads and labels a pass added gives its input back: nothing is lost, moved or doubled. */
  lemma {:induction false} EraseUndoesCollapse(p: Pass, hints: seq<RenderHint>)
    requires Untouched(p, hints)
    ensures Erase(p, Collapse(p, hints)) == hints
    decreases |hints|
  {
    if hints != [] {
      var front, rest := FrontOf(p, hints);
      UntouchedParts(p, front, rest);
      CollapseFront(p, front, rest);
      EraseAppend(p, CollapsedFront(p, front), Collapse(p, rest));
      if AllInRun(p, front) {
        EraseFlushed(p, front);
      } else {
        EraseUntouched(p, front);
      }
      EraseUndoesCollapse(p, rest);
    }
  }

  // ---------- where the heads are ----------

  /** Positions `i..j` are a maximal run. */
  predicate IsMaximalRun(p: Pass, hints: seq<RenderHint>, i: nat, j: nat) {
    && i < j <= |hints| && AllInRun(p, hints[i..j])
    && (i > 0 ==> !InRun(p, hints[i - 1])) && (j < |hints| ==> !InRun(p, hints[j]))
  }

  predicate EndsOutside(p: Pass, hints: seq<RenderHint>) {
    hints != [] ==> !InRun(p, hints[|hints| - 1])
  }

  lemma CutRest(p: Pass, front: seq<RenderHint>, rest: seq<RenderHint>, b: seq<RenderHint>)
    requires IsFront(p, front, rest) && (EndsOutside(p, front + rest) || StartsOutside(p, b))
    ensures EndsOutside(p, rest) || StartsOutside(p, b)
    ensures IsFront(p, front, rest + b)
  {
    if rest != [] {
      assert (front + rest)[|front + rest| - 1] == rest[|rest| - 1];
    } else {
      assert front + rest == front && rest + b == b;
      assert AllInRun(p, front) ==> InRun(p, front[|front| - 1]);
    }
  }

  /** A pass may be cut wherever no run crosses the cut. */
  lemma {:induction false} CollapseSplits(p: Pass, a: seq<RenderHint>, b: seq<RenderHint>)
    requires EndsOutside(p, a) || StartsOutside(p, b)
    ensures Collapse(p, a + b) == Collapse(p, a) + Collapse(p, b)
    decreases |a|
  {
    if a == [] {
      assert a + b == b;
    } else {
      var front, rest := FrontOf(p, a);
      CutRest(p, front, rest, b);
      CollapseSplits(p, rest, b);
      CollapseFront(p, front, rest);
      CollapseFront(p, front, rest + b);
      Associate(front, rest, b);
      Associate(CollapsedFront(p, front), Collapse(p, rest), Collapse(p, b));
    }
  }

  /** Exactness at a run: a maximal run is replaced, where it stands, by its head and members, or kept. */
  lemma RunIsFlushedInPlace(p: Pass, hints: seq<RenderHint>, i: nat, j: nat)
    requires IsMaximalRun(p, hints, i, j)
    ensures Collapse(p, hints) == Collapse(p, hints[..i]) + Flush(p, hints[i..j]) + Collapse(p, hints[j..])
  {
    CutAtRun(hints, i, j);
    CollapseSplits(p, hints[..i], hints[i..]);
    FlushMaximalRun(p, hints[i..j], hints[j..]);
    Associate(Collapse(p, hints[..i]), Flush(p, hints[i..j]), Collapse(p, hints[j..]));
  }

  lemma CutAtRun(hints: seq<RenderHint>, i: nat, j: nat)
    requires i <= j <= |hints|
    ensures hints == hints[..i] + hints[i..] && hints[i..] == hints[i..j] + hints[j..]
  {
  }

  /** Exactness elsewhere: a hint outside every run stays where it is. */
  lemma DelimiterStaysInPlace(p: Pass, hints: seq<RenderHint>, i: nat)
    requires i < |hints| && !InRun(p, hints[i])
    ensures Collapse(p, hints) == Collapse(p, hints[..i]) + [hints[i]] + Collapse(p, hints[i + 1..])
  {
    assert hints == hints[..i] + hints[i..] && hints[i..] == [hints[i]] + hints[i + 1..];
    CollapseSplits(p, hints[..i], hints[i..]);
    PassThrough(p, [hints[i]], hints[i + 1..]);
  }

  /** A head at output position `k` belongs to the maximal qualifying run `i..j`. */
  predicate HeadsRun(p: Pass, hints: seq<RenderHint>, k: nat, i: nat, j: nat) {
    IsMaximalRun(p, hints, i, j) && Qualifies(p, hints[i..j]) && k == |Collapse(p, hints[..i])|
  }

  /** Putting `front`, already collapsed to `flushed`, before `rest` shifts its heads and their runs alike. */
  lemma HeadShifts(
    p: Pass, front: seq<RenderHint>, flushed: seq<RenderHint>, rest: seq<RenderHint>, k: nat, i: nat, j: nat)
    requires HeadsRun(p, rest, k, i, j)
    requires EndsOutside(p, front) || StartsOutside(p, rest)
    requires Collapse(p, front + rest[..i]) == flushed + Collapse(p, rest[..i])
    ensures HeadsRun(p, front + rest, |flushed| + k, |front| + i, |front| + j)
  {
    var whole, n := front + rest, |front|;
    SliceOfAppend(front, rest, i, j);
    assert i > 0 ==> whole[n + i - 1] == rest[i - 1];
    assert j < |rest| ==> whole[n + j] == rest[j];
    assert rest[i] == rest[i..j][0];
  }

  lemma FirstHead(p: Pass, run: seq<RenderHint>, rest: seq<RenderHint>, k: nat)
    requires run != [] && AllInRun(p, run) && StartsOutside(p, rest)
    requires k < |Flush(p, run)| && IsHead(p, Flush(p, run)[k])
    ensures HeadsRun(p, run + rest, k, 0, |run|)
  {
    var hints := run + rest;
    assert hints[0..|run|] == run && hints[..0] == [];
    assert rest != [] ==> hints[|run|] == rest[0];
    assert Flush(p, []) == [];
  }

  /** A maximal qualifying run has its head at output position `k`. */
  ghost predicate HasRun(p: Pass, hints: seq<RenderHint>, k: nat) {
    exists i: nat, j: nat :: HeadsRun(p, hints, k, i, j)
  }

  lemma HeadInFront(p: Pass, hints: seq<RenderHint>, front: seq<RenderHint>, rest: seq<RenderHint>, k: nat)
    requires hints == front + rest && IsFront(p, front, rest) && Untouched(p, front)
    requires k < |CollapsedFront(p, front)| && IsHead(p, CollapsedFront(p, front)[k])
    ensures HasRun(p, hints, k)
  {
    FirstHead(p, front, rest, k);
  }

  lemma HeadInRest(p: Pass, hints: seq<RenderHint>, front: seq<RenderHint>, rest: seq<RenderHint>, k: nat)
    requires hints == front + rest && IsFront(p, front, rest) && k >= |CollapsedFront(p, front)|
    requires HasRun(p, rest, k - |CollapsedFront(p, front)|)
    ensures HasRun(p, hints, k)
  {
    var i: nat, j: nat :| HeadsRun(p, rest, k - |CollapsedFront(p, front)|, i, j);
    CutFront(p, front, rest, i);
    HeadShifts(p, front, CollapsedFront(p, front), rest, k - |CollapsedFront(p, front)|, i, j);
    assert HeadsRun(p, hints, k, |front| + i, |front| + j);
  }

  lemma CutFront(p: Pass, front: seq<RenderHint>, rest: seq<RenderHint>, i: nat)
    requires IsFront(p, front, rest) && i <= |rest|
    ensures Collapse(p, front + rest[..i]) == CollapsedFront(p, front) + Collapse(p, rest[..i])
    ensures EndsOutside(p, front) || StartsOutside(p, rest)
  {
    assert StartsOutside(p, rest) ==> StartsOutside(p, rest[..i]);
    CollapseFront(p, front, rest[..i]);
  }

  lemma HeadIsInOnePart(p: Pass, front: seq<RenderHint>, rest: seq<RenderHint>, k: nat)
    requires IsFront(p, front, rest) && k < |Collapse(p, front + rest)| && IsHead(p, Collapse(p, front + rest)[k])
    ensures var n := |CollapsedFront(p, front)|;
      if k < n then IsHead(p, CollapsedFront(p, front)[k])
      else k - n < |Collapse(p, rest)| && IsHead(p, Collapse(p, rest)[k - n])
  {
    CollapseFront(p, front, rest);
    PlaceInAppend(CollapsedFront(p, front), Collapse(p, rest), k);
  }

  /** Every head stands where a maximal qualifying run starts. */
  lemma {:induction false} HeadHasItsRun(p: Pass, hints: seq<RenderHint>, k: nat)
    requires Untouched(p, hints) && k < |Collapse(p, hints)| && IsHead(p, Collapse(p, hints)[k])
    ensures HasRun(p, hints, k)
    decreases |hints|
  {
    var front, rest := FrontOf(p, hints);
    HeadIsInOnePart(p, front, rest, k);
    UntouchedParts(p, front, rest);
    var n := |CollapsedFront(p, front)|;
    if k < n {
      HeadInFront(p, hints, front, rest, k);
    } else {
      HeadHasItsRun(p, rest, k - n);
      HeadInRest(p, hints, front, rest, k);
    }
  }

  /** Heads and maximal qualifying runs correspond, each with the other, and a head says what its run holds. */
  lemma HeadsAreTheQualifyingRuns(p: Pass, hints: seq<RenderHint>, k: nat)
    requires Untouched(p, hints) && k < |Collapse(p, hints)|
    ensures IsHead(p, Collapse(p, hints)[k]) <==> HasRun(p, hints, k)
    ensures forall i: nat, j: nat :: HeadsRun(p, hints, k, i, j) ==>
      Collapse(p, hints)[k] == Head(p, hints[i..j])
  {
    if IsHead(p, Collapse(p, hints)[k]) {
      HeadHasItsRun(p, hints, k);
    }
    forall i: nat, j: nat | HeadsRun(p, hints, k, i, j)
      ensures Collapse(p, hints)[k] == Head(p, hints[i..j]) && IsHead(p, Head(p, hints[i..j]))
    {
      RunIsFlushedInPlace(p, hints, i, j);
    }
  }
}
