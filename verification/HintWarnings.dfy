/** Where inline warnings end up: each routed warning on exactly one hint, after all three passes. */
module HintWarnings {
  import opened Transcript
  import opened HintEmission
  import opened HintPasses
  import opened HintRuns
  import opened TranscriptRows
  import opened Sequences

  function WarningsOn(h: RenderHint): seq<InlineWarning> {
    if h.Standalone? || h.Lifecycle? || h.GroupMember? || h.GroupTextMember? || h.WarningOnly? then h.warnings else []
  }

  function AllWarnings(hints: seq<RenderHint>): seq<InlineWarning> {
    if hints == [] then [] else WarningsOn(hints[0]) + AllWarnings(hints[1..])
  }

  // ---------- the passes move no warning ----------

  lemma {:induction false} EraseKeepsWarnings(p: Pass, hints: seq<RenderHint>)
    ensures AllWarnings(Erase(p, hints)) == AllWarnings(hints)
  {
    if hints != [] {
      EraseKeepsWarnings(p, hints[1..]);
      EraseOneKeepsWarnings(p, hints[0], Erase(p, hints[1..]));
    }
  }

  lemma EraseOneKeepsWarnings(p: Pass, h: RenderHint, rest: seq<RenderHint>)
    ensures AllWarnings(EraseOne(p, h) + rest) == WarningsOn(h) + AllWarnings(rest)
  {
    if IsHead(p, h) {
      assert EraseOne(p, h) + rest == rest;
    } else {
      assert WarningsOn(EraseOne(p, h)[0]) == WarningsOn(h);
      assert (EraseOne(p, h) + rest)[1..] == rest;
    }
  }

  lemma CollapseKeepsWarnings(p: Pass, hints: seq<RenderHint>)
    requires Untouched(p, hints)
    ensures AllWarnings(Collapse(p, hints)) == AllWarnings(hints)
  {
    EraseUndoesCollapse(p, hints);
    EraseKeepsWarnings(p, Collapse(p, hints));
  }

  // ---------- the first pass places them ----------

  /** A boundary or metadata row has no place for warnings. */
  predicate HasNoPlace(m: Message) {
    m.kind.Boundary? || m.kind.Metadata?
  }

  predicate IsStrayResult(messages: seq<Message>, i: nat)
    requires i < |messages|
  {
    messages[i].kind.ToolResult? && !IsConsumed(messages, i)
  }

  /** The routed warnings message `i` has a place for. */
  function HeldBy(messages: seq<Message>, warnings: seq<ParseWarning>, i: nat): seq<InlineWarning>
    requires i < |messages|
  {
    if HasNoPlace(messages[i]) then [] else Attached(warnings, |messages|, messages[i].messageIndex)
  }

  function StrayChip(messages: seq<Message>, i: nat): seq<InlineWarning>
    requires i < |messages|
  {
    if IsStrayResult(messages, i) then [STRAY] else []
  }

  function WarningsOwed(messages: seq<Message>, warnings: seq<ParseWarning>, i: nat): seq<InlineWarning>
    requires i < |messages|
  {
    HeldBy(messages, warnings, i) + StrayChip(messages, i)
  }

  function Flatten<T>(lists: seq<seq<T>>): seq<T> {
    if lists == [] then [] else lists[0] + Flatten(lists[1..])
  }

  function OwedLists(messages: seq<Message>, warnings: seq<ParseWarning>, i: nat): (lists: seq<seq<InlineWarning>>)
    requires i <= |messages|
    ensures |lists| == |messages| - i
    ensures forall k :: 0 <= k < |lists| ==> lists[k] == WarningsOwed(messages, warnings, i + k)
  {
    seq(|messages| - i, k requires 0 <= k < |messages| - i => WarningsOwed(messages, warnings, i + k))
  }

  function AllOwed(messages: seq<Message>, warnings: seq<ParseWarning>, i: nat): seq<InlineWarning>
    requires i <= |messages|
  {
    Flatten(OwedLists(messages, warnings, i))
  }

  lemma AllOwedFrom(messages: seq<Message>, warnings: seq<ParseWarning>, i: nat)
    requires i < |messages|
    ensures AllOwed(messages, warnings, i) == WarningsOwed(messages, warnings, i) + AllOwed(messages, warnings, i + 1)
  {
    assert OwedLists(messages, warnings, i)[1..] == OwedLists(messages, warnings, i + 1);
  }

  lemma OwedByOne(messages: seq<Message>, warnings: seq<ParseWarning>, i: nat)
    requires i < |messages| && !IsConsumed(messages, i)
    ensures AllWarnings(HintOf(messages, warnings, i))
         == WarningsOwed(messages, warnings, i)
            + if IsPaired(messages, i) then WarningsOwed(messages, warnings, i + 1) else []
  {
    var own := HintOf(messages, warnings, i);
    assert |own| == 1 ==> AllWarnings(own) == WarningsOn(own[0]) + [];
  }

  lemma {:induction false} AllWarningsAppend(a: seq<RenderHint>, b: seq<RenderHint>)
    ensures AllWarnings(a + b) == AllWarnings(a) + AllWarnings(b)
  {
    if a == [] {
      assert a + b == b;
    } else {
      assert (a + b)[0] == a[0] && (a + b)[1..] == a[1..] + b;
      AllWarningsAppend(a[1..], b);
    }
  }

  lemma {:induction false} BaseHintsCarryTheOwed(messages: seq<Message>, warnings: seq<ParseWarning>, i: nat)
    requires i <= |messages|
    ensures AllWarnings(BaseHints(messages, warnings, i))
         == AllOwed(messages, warnings, if i < |messages| && IsConsumed(messages, i) then i + 1 else i)
    decreases |messages| - i
  {
    if i < |messages| {
      var rest := BaseHints(messages, warnings, i + 1);
      BaseHintsCarryTheOwed(messages, warnings, i + 1);
      if IsConsumed(messages, i) {
        assert BaseHints(messages, warnings, i) == rest;
      } else {
        AllWarningsAppend(HintOf(messages, warnings, i), rest);
        OwedByOne(messages, warnings, i);
        AllOwedFrom(messages, warnings, i);
        if IsPaired(messages, i) {
          AllOwedFrom(messages, warnings, i + 1);
          Associate(WarningsOwed(messages, warnings, i), WarningsOwed(messages, warnings, i + 1),
                    AllOwed(messages, warnings, i + 2));
        }
      }
    }
  }

  // ---------- counting them ----------

  /** The warnings that name a message of the stream which has a place for them. */
  predicate IsPlaced(messages: seq<Message>, w: ParseWarning) {
    Routed(w, |messages|) && !HasNoPlace(messages[w.messageIndex.value])
  }

  function Placed(messages: seq<Message>, warnings: seq<ParseWarning>): seq<InlineWarning> {
    if warnings == [] then []
    else
      var n := |warnings| - 1;
      Placed(messages, warnings[..n]) + if IsPlaced(messages, warnings[n]) then [Inline(warnings[n])] else []
  }

  function StrayChips(messages: seq<Message>, i: nat): seq<InlineWarning>
    requires i <= |messages|
    decreases |messages| - i
  {
    if i == |messages| then [] else StrayChip(messages, i) + StrayChips(messages, i + 1)
  }

  lemma {:induction false} NoneOwedWithoutWarnings(messages: seq<Message>, i: nat)
    requires i <= |messages|
    ensures AllOwed(messages, [], i) == StrayChips(messages, i)
    decreases |messages| - i
  {
    if i < |messages| {
      AllOwedFrom(messages, [], i);
      NoneOwedWithoutWarnings(messages, i + 1);
    }
  }

  /** The share of the last warning that falls to messages `i..j`. */
  function LastShare(messages: seq<Message>, warnings: seq<ParseWarning>, i: nat, j: nat): seq<InlineWarning>
    requires warnings != []
  {
    var last := warnings[|warnings| - 1];
    if IsPlaced(messages, last) && i <= last.messageIndex.value < j then [Inline(last)] else []
  }

  lemma HoldsItsShare(messages: seq<Message>, warnings: seq<ParseWarning>, i: nat)
    requires IndexedFrom(messages, 0) && warnings != [] && i < |messages|
    ensures multiset(WarningsOwed(messages, warnings, i))
         == multiset(WarningsOwed(messages, warnings[..|warnings| - 1], i))
            + multiset(LastShare(messages, warnings, i, i + 1))
  {
    var before := HeldBy(messages, warnings[..|warnings| - 1], i);
    var share, stray := LastShare(messages, warnings, i, i + 1), StrayChip(messages, i);
    assert messages[i].messageIndex == i;
    assert HeldBy(messages, warnings, i) == before + share;
    MultisetAppend(before, share);
    MultisetAppend(before + share, stray);
    MultisetAppend(before, stray);
  }

  lemma {:induction false} FlattenAdds<T>(a: seq<seq<T>>, b: seq<seq<T>>, sum: seq<seq<T>>)
    requires |a| == |b| == |sum|
    requires forall i :: 0 <= i < |sum| ==> multiset(sum[i]) == multiset(a[i]) + multiset(b[i])
    ensures multiset(Flatten(sum)) == multiset(Flatten(a)) + multiset(Flatten(b))
  {
    if sum != [] {
      FlattenAdds(a[1..], b[1..], sum[1..]);
      MultisetAppend(sum[0], Flatten(sum[1..]));
      MultisetAppend(a[0], Flatten(a[1..]));
      MultisetAppend(b[0], Flatten(b[1..]));
    }
  }

  function Shares(messages: seq<Message>, warnings: seq<ParseWarning>, i: nat): (lists: seq<seq<InlineWarning>>)
    requires warnings != [] && i <= |messages|
    ensures |lists| == |messages| - i
    ensures forall k :: 0 <= k < |lists| ==> lists[k] == LastShare(messages, warnings, i + k, i + k + 1)
  {
    seq(|messages| - i, k requires 0 <= k < |messages| - i => LastShare(messages, warnings, i + k, i + k + 1))
  }

  lemma {:induction false} SharesFlatten(messages: seq<Message>, warnings: seq<ParseWarning>, i: nat)
    requires warnings != [] && i <= |messages|
    ensures Flatten(Shares(messages, warnings, i)) == LastShare(messages, warnings, i, |messages|)
    decreases |messages| - i
  {
    if i < |messages| {
      SharesFlatten(messages, warnings, i + 1);
      assert Shares(messages, warnings, i)[1..] == Shares(messages, warnings, i + 1);
    }
  }

  /** One more warning is owed once, at the message it names. */
  lemma OneMoreWarning(messages: seq<Message>, warnings: seq<ParseWarning>)
    requires IndexedFrom(messages, 0) && warnings != []
    ensures multiset(AllOwed(messages, warnings, 0))
         == multiset(AllOwed(messages, warnings[..|warnings| - 1], 0))
            + multiset(LastShare(messages, warnings, 0, |messages|))
  {
    var fewer := warnings[..|warnings| - 1];
    SharesFlatten(messages, warnings, 0);
    forall i | 0 <= i < |messages|
      ensures multiset(OwedLists(messages, warnings, 0)[i])
           == multiset(OwedLists(messages, fewer, 0)[i]) + multiset(Shares(messages, warnings, 0)[i])
    {
      HoldsItsShare(messages, warnings, i);
    }
    FlattenAdds(OwedLists(messages, fewer, 0), Shares(messages, warnings, 0), OwedLists(messages, warnings, 0));
  }

  lemma {:induction false} OwedAreThePlaced(messages: seq<Message>, warnings: seq<ParseWarning>)
    requires IndexedFrom(messages, 0)
    ensures multiset(AllOwed(messages, warnings, 0))
         == multiset(Placed(messages, warnings)) + multiset(StrayChips(messages, 0))
  {
    if warnings == [] {
      NoneOwedWithoutWarnings(messages, 0);
    } else {
      OneMoreWarning(messages, warnings);
      OwedAreThePlaced(messages, warnings[..|warnings| - 1]);
    }
  }

  lemma {:induction false} BaseHintsUntouched(p: Pass, messages: seq<Message>, warnings: seq<ParseWarning>, i: nat)
    requires i <= |messages|
    ensures Untouched(p, BaseHints(messages, warnings, i))
    decreases |messages| - i
  {
    if i < |messages| {
      BaseHintsUntouched(p, messages, warnings, i + 1);
      var own := if IsConsumed(messages, i) then [] else HintOf(messages, warnings, i);
      assert |own| <= 1 && (|own| == 1 ==> !IsAddedBy(p, own[0]));
    }
  }

  lemma FlushLeavesClusters(p: Pass, front: seq<RenderHint>)
    requires p.Grouping? && Untouched(Clustering, front)
    ensures Untouched(Clustering, CollapsedFront(p, front))
  {
    if AllInRun(p, front) && Qualifies(p, front) {
      forall i | 0 <= i < |front| ensures !IsAddedBy(Clustering, Members(p, front)[i]) {
        assert InRun(p, front[i]);
      }
    }
  }

  lemma {:induction false} GroupingLeavesClusters(byIndex: Index, hints: seq<RenderHint>)
    requires Untouched(Clustering, hints)
    ensures Untouched(Clustering, Collapse(Grouping(byIndex), hints))
    decreases |hints|
  {
    var p := Grouping(byIndex);
    if hints != [] {
      var front, rest := FrontOf(p, hints);
      UntouchedParts(Clustering, front, rest);
      CollapseFront(p, front, rest);
      GroupingLeavesClusters(byIndex, rest);
      FlushLeavesClusters(p, front);
    }
  }

  /**
   On a whole stream the hints carry, in message order, exactly the warnings routed to messages
   that have a place for them, each on one hint, and one stray chip for each unpaired result.
   */
  lemma WarningsLandExactlyOnce(messages: seq<Message>, warnings: seq<ParseWarning>)
    requires IndexedFrom(messages, 0)
    ensures AllWarnings(HintsFor(messages, warnings)) == AllOwed(messages, warnings, 0)
    ensures multiset(AllWarnings(HintsFor(messages, warnings)))
         == multiset(Placed(messages, warnings)) + multiset(StrayChips(messages, 0))
  {
    var base, byIndex := BaseHints(messages, warnings, 0), ByIndex(messages);
    BaseHintsUntouched(Grouping(byIndex), messages, warnings, 0);
    BaseHintsUntouched(Clustering, messages, warnings, 0);
    CollapseKeepsWarnings(Grouping(byIndex), base);
    GroupingLeavesClusters(byIndex, base);
    CollapseKeepsWarnings(Clustering, Collapse(Grouping(byIndex), base));
    BaseHintsCarryTheOwed(messages, warnings, 0);
    OwedAreThePlaced(messages, warnings);
  }

  // ---------- hint by hint ----------

  /** What the messages with the given indices are owed, in that order. */
  function OwedTo(messages: seq<Message>, warnings: seq<ParseWarning>, indices: seq<nat>): seq<InlineWarning> {
    if indices == [] then []
    else
      (if indices[0] < |messages| then WarningsOwed(messages, warnings, indices[0]) else [])
      + OwedTo(messages, warnings, indices[1..])
  }

  lemma OwedToTwo(messages: seq<Message>, warnings: seq<ParseWarning>, i: nat, j: nat)
    requires i < |messages| && j < |messages|
    ensures OwedTo(messages, warnings, [i]) == WarningsOwed(messages, warnings, i)
    ensures OwedTo(messages, warnings, [i, j])
         == WarningsOwed(messages, warnings, i) + WarningsOwed(messages, warnings, j)
  {
    assert [i][1..] == [] && [i, j][1..] == [j] && [j][1..] == [];
  }

  /** The first pass gives a hint what its messages are owed. */
  predicate CarriesItsOwn(messages: seq<Message>, warnings: seq<ParseWarning>, h: RenderHint) {
    WarningsOn(h) == OwedTo(messages, warnings, Visits(h))
  }

  lemma HintCarriesItsOwn(messages: seq<Message>, warnings: seq<ParseWarning>, i: nat, h: RenderHint)
    requires IndexedFrom(messages, 0) && i < |messages| && !IsConsumed(messages, i)
    requires h in HintOf(messages, warnings, i)
    ensures CarriesItsOwn(messages, warnings, h)
  {
    OnlyHint(messages, warnings, i, h);
    OwedByOne(messages, warnings, i);
    assert [h][1..] == [];
    assert messages[i].messageIndex == i;
    if IsPaired(messages, i) {
      assert messages[i + 1].messageIndex == i + 1;
      OwedToTwo(messages, warnings, i, i + 1);
    } else {
      OwedToTwo(messages, warnings, i, i);
    }
  }

  lemma OnlyHint(messages: seq<Message>, warnings: seq<ParseWarning>, i: nat, h: RenderHint)
    requires i < |messages| && h in HintOf(messages, warnings, i)
    ensures HintOf(messages, warnings, i) == [h] && Visits(h) == PairVisits(messages, i)
  {
  }

  lemma {:induction false} BaseHintsCarryTheirOwn(
    messages: seq<Message>, warnings: seq<ParseWarning>, i: nat, h: RenderHint)
    requires IndexedFrom(messages, 0) && i <= |messages| && h in BaseHints(messages, warnings, i)
    ensures CarriesItsOwn(messages, warnings, h)
    decreases |messages| - i
  {
    if !IsConsumed(messages, i) && h in HintOf(messages, warnings, i) {
      HintCarriesItsOwn(messages, warnings, i, h);
    } else {
      BaseHintsCarryTheirOwn(messages, warnings, i + 1, h);
    }
  }

  lemma {:induction false} ErasedComesFrom(p: Pass, hints: seq<RenderHint>, h: RenderHint)
    requires h in hints && !IsHead(p, h)
    ensures (if IsMember(p, h) then Unlabel(h) else h) in Erase(p, hints)
  {
    if h == hints[0] {
      assert Erase(p, hints)[0] == if IsMember(p, h) then Unlabel(h) else h;
    } else {
      ErasedComesFrom(p, hints[1..], h);
    }
  }

  /** But for the heads it adds, what a pass puts out it took in, labels apart. */
  lemma PassedOn(p: Pass, hints: seq<RenderHint>, h: RenderHint)
    requires Untouched(p, hints) && h in Collapse(p, hints) && !IsHead(p, h)
    ensures (if IsMember(p, h) then Unlabel(h) else h) in hints
  {
    ErasedComesFrom(p, Collapse(p, hints), h);
    EraseUndoesCollapse(p, hints);
  }

  lemma BothPassesPassOn(byIndex: Index, hints: seq<RenderHint>, h: RenderHint)
    requires Plain(hints) && h in BothPasses(byIndex, hints) && !h.GroupHead? && !h.ClusterHead?
    ensures Unlabel(h) in hints
  {
    var g := Grouping(byIndex);
    assert Untouched(g, hints) && Untouched(Clustering, hints) by {
      assert forall i :: 0 <= i < |hints| ==> IsPlain(hints[i]);
    }
    GroupingLeavesClusters(byIndex, hints);
    PassedOn(Clustering, Collapse(g, hints), h);
    var inner := if h.ClusterMember? then Unlabel(h) else h;
    PassedOn(g, hints, inner);
    assert h.GroupMember? || h.GroupTextMember? || h.ClusterMember? || Unlabel(h) == h;
  }

  /** A hint that is no head carries, in order, what is owed to the messages it shows, and nothing else. */
  lemma EachHintCarriesItsOwn(messages: seq<Message>, warnings: seq<ParseWarning>, k: nat)
    requires IndexedFrom(messages, 0) && k < |HintsFor(messages, warnings)|
    ensures var h := HintsFor(messages, warnings)[k];
      WarningsOn(h) == if h.GroupHead? || h.ClusterHead? then [] else OwedTo(messages, warnings, Visits(Unlabel(h)))
  {
    var h, base := HintsFor(messages, warnings)[k], BaseHints(messages, warnings, 0);
    if !h.GroupHead? && !h.ClusterHead? {
      BaseHintsArePlain(messages, warnings, 0);
      BothPassesPassOn(ByIndex(messages), base, h);
      BaseHintsCarryTheirOwn(messages, warnings, 0, Unlabel(h));
      assert WarningsOn(Unlabel(h)) == WarningsOn(h);
    }
  }
}
