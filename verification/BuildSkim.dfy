/** The skim view: the message stream cut into user turns, agent runs, boundaries and oversized messages. */
module BuildSkim {
  import opened Wrappers
  import opened Transcript

  datatype BlockKind = UserTurn | BoundaryBlock | AgentOnly | OversizedUserMessage

  datatype BlockMeta = NoMeta | Subtype(subtype: Option<string>) | SizeBytes(size: nat) | Empty

  /** `start` and `end` are inclusive positions in the stream. */
  datatype SkimBlock = SkimBlock(kind: BlockKind, start: int, end: int, meta: BlockMeta)

  const EMPTY_SKIM := [SkimBlock(AgentOnly, 0, -1, Empty)]

  // ---------- what a skim is ----------

  predicate IsOversized(m: Message, threshold: nat) {
    m.kind.User? && m.bytes > threshold
  }

  /** A message that opens a user turn. */
  predicate OpensTurn(m: Message, threshold: nat) {
    m.kind.User? && m.bytes <= threshold
  }

  /** A message that only extends what is open: neither a boundary nor from the user. */
  predicate Extends(m: Message) {
    !m.kind.Boundary? && !m.kind.User?
  }

  predicate AllExtend(messages: seq<Message>, from: int, to: int) {
    0 <= from && to <= |messages| && forall i :: from <= i < to ==> Extends(messages[i])
  }

  /** A block that may stand in a skim of `messages`. */
  predicate BlockOk(messages: seq<Message>, threshold: nat, b: SkimBlock) {
    && 0 <= b.start <= b.end < |messages|
    && match b.kind
       case UserTurn =>
         b.meta == NoMeta && OpensTurn(messages[b.start], threshold) && AllExtend(messages, b.start + 1, b.end + 1)
       case AgentOnly =>
         b.meta == NoMeta && AllExtend(messages, b.start, b.end + 1)
       case BoundaryBlock =>
         b.start == b.end && messages[b.start].kind.Boundary? && b.meta == Subtype(messages[b.start].boundarySubtype)
       case OversizedUserMessage =>
         b.start == b.end && IsOversized(messages[b.start], threshold) && b.meta == SizeBytes(messages[b.start].bytes)
  }

  /** Consecutive blocks touch, and an agent run never follows a block it could have been part of. */
  predicate Follows(a: SkimBlock, b: SkimBlock) {
    b.start == a.end + 1 && (b.kind.AgentOnly? ==> !a.kind.AgentOnly? && !a.kind.UserTurn?)
  }

  predicate Chained(blocks: seq<SkimBlock>) {
    forall k :: 0 < k < |blocks| ==> Follows(blocks[k - 1], blocks[k])
  }

  predicate AllOk(messages: seq<Message>, threshold: nat, blocks: seq<SkimBlock>) {
    forall k :: 0 <= k < |blocks| ==> BlockOk(messages, threshold, blocks[k])
  }

  /** Where the next block after `blocks` starts. */
  function NextStart(blocks: seq<SkimBlock>): int {
    if blocks == [] then 0 else blocks[|blocks| - 1].end + 1
  }

  /** Blocks that tile the first `n` messages, in order. */
  predicate Tiles(messages: seq<Message>, threshold: nat, blocks: seq<SkimBlock>, n: int) {
    && AllOk(messages, threshold, blocks) && Chained(blocks)
    && (blocks != [] ==> blocks[0].start == 0) && NextStart(blocks) == n
  }

  predicate IsSkim(messages: seq<Message>, threshold: nat, blocks: seq<SkimBlock>) {
    if messages == [] then blocks == EMPTY_SKIM else Tiles(messages, threshold, blocks, |messages|)
  }

  // ---------- the loop ----------

  /** What the two trackers say about the region behind the closed blocks. */
  predicate OpenRegion(messages: seq<Message>, threshold: nat, blocks: seq<SkimBlock>,
                       userTurn: Option<nat>, agentOnly: Option<nat>, i: nat)
    requires i <= |messages|
  {
    && (userTurn.None? || agentOnly.None?)
    && (userTurn.Some? ==>
          var s := userTurn.value;
          && Tiles(messages, threshold, blocks, s) && s < i
          && OpensTurn(messages[s], threshold) && AllExtend(messages, s + 1, i))
    && (agentOnly.Some? ==>
          var s := agentOnly.value;
          Tiles(messages, threshold, blocks, s) && s < i && AllExtend(messages, s, i)
          && (blocks != [] ==> !blocks[|blocks| - 1].kind.AgentOnly? && !blocks[|blocks| - 1].kind.UserTurn?))
    && (userTurn.None? && agentOnly.None? ==>
          Tiles(messages, threshold, blocks, i)
          && (blocks != [] ==> !blocks[|blocks| - 1].kind.AgentOnly? && !blocks[|blocks| - 1].kind.UserTurn?))
  }

  lemma AppendTiles(messages: seq<Message>, threshold: nat, blocks: seq<SkimBlock>, n: int, b: SkimBlock)
    requires Tiles(messages, threshold, blocks, n) && BlockOk(messages, threshold, b) && b.start == n
    requires blocks != [] ==> Follows(blocks[|blocks| - 1], b)
    ensures Tiles(messages, threshold, blocks + [b], b.end + 1)
  {
    var all := blocks + [b];
    forall k | 0 < k < |all| ensures Follows(all[k - 1], all[k]) {
      if k < |blocks| {
        assert all[k - 1] == blocks[k - 1];
      }
    }
  }

  /** `closeOpenRegions`: the trackers' region, if any, becomes a block that ends before `i`. */
  method CloseOpenRegions(ghost messages: seq<Message>, ghost threshold: nat, blocks: seq<SkimBlock>,
                          userTurn: Option<nat>, agentOnly: Option<nat>, i: nat)
    returns (closed: seq<SkimBlock>)
    requires i <= |messages| && OpenRegion(messages, threshold, blocks, userTurn, agentOnly, i)
    ensures Tiles(messages, threshold, closed, i)
    ensures closed == if userTurn.Some? then blocks + [SkimBlock(UserTurn, userTurn.value, i - 1, NoMeta)]
                      else if agentOnly.Some? then blocks + [SkimBlock(AgentOnly, agentOnly.value, i - 1, NoMeta)]
                      else blocks
  {
    closed := blocks;
    if userTurn.Some? {
      var b := SkimBlock(UserTurn, userTurn.value, i - 1, NoMeta);
      AppendTiles(messages, threshold, blocks, userTurn.value, b);
      closed := closed + [b];
    } else if agentOnly.Some? {
      var b := SkimBlock(AgentOnly, agentOnly.value, i - 1, NoMeta);
      AppendTiles(messages, threshold, blocks, agentOnly.value, b);
      closed := closed + [b];
    }
  }

  /** A message that extends keeps the open region open, or opens an agent run. */
  lemma RegionGrows(messages: seq<Message>, threshold: nat, blocks: seq<SkimBlock>,
                    userTurn: Option<nat>, agentOnly: Option<nat>, i: nat)
    requires i < |messages| && Extends(messages[i])
    requires OpenRegion(messages, threshold, blocks, userTurn, agentOnly, i)
    ensures userTurn.Some? || agentOnly.Some? ==> OpenRegion(messages, threshold, blocks, userTurn, agentOnly, i + 1)
    ensures userTurn.None? && agentOnly.None? ==> OpenRegion(messages, threshold, blocks, None, Some(i), i + 1)
  {
  }

  /** A block that stands alone leaves nothing open. */
  lemma SoloBlock(messages: seq<Message>, threshold: nat, blocks: seq<SkimBlock>, b: SkimBlock)
    requires b.kind.BoundaryBlock? || b.kind.OversizedUserMessage?
    requires BlockOk(messages, threshold, b) && Tiles(messages, threshold, blocks, b.start)
    ensures OpenRegion(messages, threshold, blocks + [b], None, None, b.end + 1)
  {
    AppendTiles(messages, threshold, blocks, b.start, b);
  }

  method BuildSkim(messages: seq<Message>, threshold: nat) returns (blocks: seq<SkimBlock>)
    ensures IsSkim(messages, threshold, blocks)
    ensures messages == [] ==> blocks == [SkimBlock(AgentOnly, 0, -1, Empty)]
  {
    if |messages| == 0 {
      return EMPTY_SKIM;
    }
    blocks := [];
    var openUserTurnStart: Option<nat> := None;
    var openAgentOnlyStart: Option<nat> := None;
    for i := 0 to |messages|
      invariant OpenRegion(messages, threshold, blocks, openUserTurnStart, openAgentOnlyStart, i)
    {
      var m := messages[i];
      if m.kind.Boundary? {
        blocks := CloseOpenRegions(messages, threshold, blocks, openUserTurnStart, openAgentOnlyStart, i);
        var b := SkimBlock(BoundaryBlock, i, i, Subtype(m.boundarySubtype));
        SoloBlock(messages, threshold, blocks, b);
        blocks := blocks + [b];
        openUserTurnStart, openAgentOnlyStart := None, None;
        continue;
      }
      if m.kind.Metadata? {
        RegionGrows(messages, threshold, blocks, openUserTurnStart, openAgentOnlyStart, i);
        if openUserTurnStart.Some? {
          continue;
        }
        if openAgentOnlyStart.None? {
          openAgentOnlyStart := Some(i);
        }
        continue;
      }
      if m.kind.User? {
        blocks := CloseOpenRegions(messages, threshold, blocks, openUserTurnStart, openAgentOnlyStart, i);
        openUserTurnStart, openAgentOnlyStart := None, None;
        if m.bytes > threshold {
          var b := SkimBlock(OversizedUserMessage, i, i, SizeBytes(m.bytes));
          SoloBlock(messages, threshold, blocks, b);
          blocks := blocks + [b];
          continue;
        }
        openUserTurnStart := Some(i);
        continue;
      }
      RegionGrows(messages, threshold, blocks, openUserTurnStart, openAgentOnlyStart, i);
      if openUserTurnStart.Some? {
        continue;
      }
      if openAgentOnlyStart.None? {
        openAgentOnlyStart := Some(i);
      }
    }
    blocks := CloseOpenRegions(messages, threshold, blocks, openUserTurnStart, openAgentOnlyStart, |messages|);
  }

  // ---------- the rules fix the skim ----------

  /** A block that starts at a message has its kind from that message. */
  lemma KindIsForced(messages: seq<Message>, threshold: nat, a: SkimBlock, b: SkimBlock)
    requires BlockOk(messages, threshold, a) && BlockOk(messages, threshold, b) && a.start == b.start
    ensures a.kind == b.kind
  {
    assert Extends(messages[a.start]) || messages[a.start].kind.Boundary? || messages[a.start].kind.User?;
  }

  /** What follows a turn or an agent run is not something it could have taken in. */
  lemma RunsAreMaximal(messages: seq<Message>, threshold: nat, blocks: seq<SkimBlock>, k: nat)
    requires messages != [] && IsSkim(messages, threshold, blocks) && k < |blocks|
    requires blocks[k].kind.UserTurn? || blocks[k].kind.AgentOnly?
    ensures blocks[k].end + 1 == |messages|
         || (0 <= blocks[k].end + 1 < |messages| && !Extends(messages[blocks[k].end + 1]))
  {
    assert BlockOk(messages, threshold, blocks[k]);
    if k + 1 < |blocks| {
      assert Follows(blocks[k], blocks[k + 1]) && BlockOk(messages, threshold, blocks[k + 1]);
    }
  }

  lemma EndIsForced(messages: seq<Message>, threshold: nat, blocks: seq<SkimBlock>, k: nat, b: SkimBlock)
    requires messages != [] && IsSkim(messages, threshold, blocks) && k < |blocks|
    requires BlockOk(messages, threshold, b) && b.start == blocks[k].start
    ensures b.end <= blocks[k].end
  {
    assert BlockOk(messages, threshold, blocks[k]);
    KindIsForced(messages, threshold, blocks[k], b);
    if b.kind.UserTurn? || b.kind.AgentOnly? {
      RunsAreMaximal(messages, threshold, blocks, k);
    }
  }

  lemma NextStartsInside(messages: seq<Message>, threshold: nat, blocks: seq<SkimBlock>, k: nat)
    requires Tiles(messages, threshold, blocks, |messages|) && k + 1 < |blocks|
    ensures blocks[k].end + 1 < |messages|
  {
    assert Follows(blocks[k], blocks[k + 1]) && BlockOk(messages, threshold, blocks[k + 1]);
  }

  lemma {:induction false} SkimsAgreeUpTo(messages: seq<Message>, threshold: nat,
                                          a: seq<SkimBlock>, b: seq<SkimBlock>, k: nat)
    requires messages != [] && IsSkim(messages, threshold, a) && IsSkim(messages, threshold, b)
    requires k < |a| && k < |b|
    ensures a[k] == b[k]
  {
    if k > 0 {
      SkimsAgreeUpTo(messages, threshold, a, b, k - 1);
      assert Follows(a[k - 1], a[k]) && Follows(b[k - 1], b[k]);
    }
    assert BlockOk(messages, threshold, a[k]) && BlockOk(messages, threshold, b[k]);
    KindIsForced(messages, threshold, a[k], b[k]);
    EndIsForced(messages, threshold, a, k, b[k]);
    EndIsForced(messages, threshold, b, k, a[k]);
  }

  lemma SkimNotLonger(messages: seq<Message>, threshold: nat, a: seq<SkimBlock>, b: seq<SkimBlock>)
    requires messages != [] && IsSkim(messages, threshold, a) && IsSkim(messages, threshold, b)
    ensures |b| <= |a|
  {
    if |a| < |b| {
      NextStartsInside(messages, threshold, b, |a| - 1);
      SkimsAgreeUpTo(messages, threshold, a, b, |a| - 1);
    }
  }

  /** There is only one way to cut a stream by these rules. */
  lemma SkimIsUnique(messages: seq<Message>, threshold: nat, a: seq<SkimBlock>, b: seq<SkimBlock>)
    requires IsSkim(messages, threshold, a) && IsSkim(messages, threshold, b)
    ensures a == b
  {
    if messages != [] {
      SkimNotLonger(messages, threshold, a, b);
      SkimNotLonger(messages, threshold, b, a);
      forall k | 0 <= k < |a| ensures a[k] == b[k] {
        SkimsAgreeUpTo(messages, threshold, a, b, k);
      }
    }
  }

  // ---------- what a skim shows ----------

  predicate Covers(b: SkimBlock, i: int) {
    b.start <= i <= b.end
  }

  /** Starts and ends increase along a skim. */
  lemma {:induction false} BlocksAreOrdered(messages: seq<Message>, threshold: nat, blocks: seq<SkimBlock>,
                                            j: nat, k: nat)
    requires messages != [] && IsSkim(messages, threshold, blocks) && j < k < |blocks|
    ensures blocks[j].end < blocks[k].start
    decreases k
  {
    assert Follows(blocks[k - 1], blocks[k]) && BlockOk(messages, threshold, blocks[k - 1]);
    if j < k - 1 {
      BlocksAreOrdered(messages, threshold, blocks, j, k - 1);
    }
  }

  lemma {:induction false} CoveredBefore(messages: seq<Message>, threshold: nat, blocks: seq<SkimBlock>, n: nat, i: nat)
    returns (k: nat)
    requires messages != [] && IsSkim(messages, threshold, blocks) && n <= |blocks| && i < NextStart(blocks[..n])
    ensures k < n && Covers(blocks[k], i)
  {
    assert n > 0;
    var b := blocks[n - 1];
    if i >= b.start {
      k := n - 1;
    } else {
      assert n > 1 ==> Follows(blocks[n - 2], b);
      k := CoveredBefore(messages, threshold, blocks, n - 1, i);
    }
  }

  /**
   Every message lies in exactly one block; boundaries, oversized messages and turn openers start the
   blocks they should.
   */
  lemma EveryMessageInOneBlock(messages: seq<Message>, threshold: nat, blocks: seq<SkimBlock>, i: nat) returns (k: nat)
    requires IsSkim(messages, threshold, blocks) && i < |messages|
    ensures k < |blocks| && Covers(blocks[k], i)
    ensures forall j :: 0 <= j < |blocks| && Covers(blocks[j], i) ==> j == k
    ensures messages[i].kind == User && messages[i].bytes <= threshold
        <==> blocks[k].kind == UserTurn && blocks[k].start == i
    ensures messages[i].kind == Boundary <==>
      blocks[k] == SkimBlock(BoundaryBlock, i, i, Subtype(messages[i].boundarySubtype))
    ensures messages[i].kind == User && messages[i].bytes > threshold
        <==> blocks[k] == SkimBlock(OversizedUserMessage, i, i, SizeBytes(messages[i].bytes))
    ensures messages[i].kind !in {Boundary, User} ==> blocks[k].kind in {UserTurn, AgentOnly}
    ensures blocks[k].kind in {UserTurn, AgentOnly} ==> blocks[k].meta == NoMeta
  {
    assert blocks[..|blocks|] == blocks;
    k := CoveredBefore(messages, threshold, blocks, |blocks|, i);
    forall j | 0 <= j < |blocks| && Covers(blocks[j], i) ensures j == k {
      if j < k {
        BlocksAreOrdered(messages, threshold, blocks, j, k);
      } else if k < j {
        BlocksAreOrdered(messages, threshold, blocks, k, j);
      }
    }
    var b := blocks[k];
    assert BlockOk(messages, threshold, b);
    if b.kind.UserTurn? && i > b.start {
      assert Extends(messages[i]);
    }
  }

  /** An agent run starts at a message from nobody outside, first of all or right after what stands alone. */
  lemma AgentRunStartsExactlyWhen(messages: seq<Message>, threshold: nat, blocks: seq<SkimBlock>, i: nat)
    requires IsSkim(messages, threshold, blocks) && i < |messages|
    ensures (exists k :: 0 <= k < |blocks| && blocks[k].kind == AgentOnly && blocks[k].start == i) <==>
      && messages[i].kind !in {Boundary, User}
      && (i == 0 || messages[i - 1].kind == Boundary
          || (messages[i - 1].kind == User && messages[i - 1].bytes > threshold))
  {
    if k :| 0 <= k < |blocks| && blocks[k].kind == AgentOnly && blocks[k].start == i {
      assert BlockOk(messages, threshold, blocks[k]) && Extends(messages[i]);
      if k > 0 {
        assert Follows(blocks[k - 1], blocks[k]) && BlockOk(messages, threshold, blocks[k - 1]);
      }
    }
    if messages[i].kind !in {Boundary, User} {
      var k := EveryMessageInOneBlock(messages, threshold, blocks, i);
      assert BlockOk(messages, threshold, blocks[k]);
      if i > 0 && !Extends(messages[i - 1]) && !OpensTurn(messages[i - 1], threshold) {
        var j := EveryMessageInOneBlock(messages, threshold, blocks, i - 1);
        assert blocks[j].end == i - 1 && j != k;
        assert blocks[k].start == i;
      } else if i == 0 {
        assert blocks[k].start == 0;
      }
    }
  }
}
