/** Echo rows of a Codex stream point back at the canonical message they duplicate. */
module EchoLinks {
  import opened Wrappers
  import opened Transcript

  predicate IsEcho(m: Message) {
    m.kind.Metadata? && m.metaCategory == Some(Echo) && m.echoOf.Some?
  }

  predicate IsEchoOf(m: Message, role: CanonicalKind) {
    IsEcho(m) && m.echoOf.value.canonicalKind == role
  }

  /** A forward search for `role` ends here: at a canonical message, or at the next echo of one. */
  predicate Stops(m: Message, role: CanonicalKind) {
    m.kind == role || IsEchoOf(m, role)
  }

  function RoleAt(messages: seq<Message>, i: nat): CanonicalKind
    requires i < |messages| && IsEcho(messages[i])
  {
    messages[i].echoOf.value.canonicalKind
  }

  // ---------- which canonical message an echo duplicates ----------

  /** The nearest canonical message ahead, with no other echo of that role in between. */
  predicate IsForwardLink(messages: seq<Message>, i: nat, j: nat) {
    && i < j < |messages| && IsEcho(messages[i])
    && messages[j].kind == RoleAt(messages, i)
    && forall k :: i < k < j ==> !Stops(messages[k], RoleAt(messages, i))
  }

  /** The nearest canonical message behind, allowed only when nothing of that role lies ahead. */
  predicate IsBackwardLink(messages: seq<Message>, i: nat, j: nat) {
    && j < i < |messages| && IsEcho(messages[i])
    && messages[j].kind == RoleAt(messages, i)
    && (forall k :: i < k < |messages| ==> !Stops(messages[k], RoleAt(messages, i)))
    && (forall k :: j < k < i ==> messages[k].kind != RoleAt(messages, i))
  }

  predicate IsLink(messages: seq<Message>, i: nat, j: nat) {
    IsForwardLink(messages, i, j) || IsBackwardLink(messages, i, j)
  }

  function FirstStop(messages: seq<Message>, role: CanonicalKind, from: nat): (j: nat)
    requires from <= |messages|
    ensures from <= j <= |messages| && (j < |messages| ==> Stops(messages[j], role))
    ensures forall k :: from <= k < j ==> !Stops(messages[k], role)
    decreases |messages| - from
  {
    if from == |messages| || Stops(messages[from], role) then from else FirstStop(messages, role, from + 1)
  }

  function LastBefore(messages: seq<Message>, role: CanonicalKind, to: nat): (j: Option<nat>)
    requires to <= |messages|
    ensures j.Some? ==> j.value < to && messages[j.value].kind == role
    ensures forall k :: (if j.Some? then j.value + 1 else 0) <= k < to ==> messages[k].kind != role
  {
    if to == 0 then None else if messages[to - 1].kind == role then Some(to - 1) else LastBefore(messages, role, to - 1)
  }

  /** The canonical message of echo `i`, if it has one. */
  function Target(messages: seq<Message>, i: nat): Option<nat>
    requires i < |messages| && IsEcho(messages[i])
  {
    var role := RoleAt(messages, i);
    var j := FirstStop(messages, role, i + 1);
    if j == |messages| then LastBefore(messages, role, i)
    else if messages[j].kind == role then Some(j)
    else None
  }

  /** The search finds the link, and finds none only where there is none. */
  lemma TargetIsTheLink(messages: seq<Message>, i: nat)
    requires i < |messages| && IsEcho(messages[i])
    ensures forall j: nat :: IsLink(messages, i, j) <==> Target(messages, i) == Some(j)
  {
    var role := RoleAt(messages, i);
    var s := FirstStop(messages, role, i + 1);
    forall j: nat ensures IsLink(messages, i, j) <==> Target(messages, i) == Some(j) {
      if IsForwardLink(messages, i, j) {
        assert Stops(messages[j], role);
      }
      if IsBackwardLink(messages, i, j) {
        assert s == |messages|;
      }
    }
  }

  // ---------- the whole pass ----------

  function Linked(messages: seq<Message>, i: nat): Message
    requires i < |messages|
  {
    var m := messages[i];
    if IsEcho(m) && Target(messages, i).Some? then
      m.(echoOf := Some(EchoOf(messages[Target(messages, i).value].lineOrdinal, m.echoOf.value.canonicalKind)))
    else m
  }

  function Resolve(messages: seq<Message>): (linked: seq<Message>)
    ensures |linked| == |messages|
    ensures forall i :: 0 <= i < |messages| ==> linked[i] == Linked(messages, i)
  {
    seq(|messages|, i requires 0 <= i < |messages| => Linked(messages, i))
  }

  /** The same rows but for the lines echoes point at. */
  predicate SameRows(a: seq<Message>, b: seq<Message>) {
    && |a| == |b|
    && forall i :: 0 <= i < |a| ==>
      && b[i].kind == a[i].kind && b[i].lineOrdinal == a[i].lineOrdinal
      && (forall role: CanonicalKind :: IsEchoOf(b[i], role) == IsEchoOf(a[i], role))
      && (IsEcho(a[i]) <==> IsEcho(b[i]))
  }

  /** Links depend on none of the lines echoes point at. */
  lemma {:induction false} TargetsAgree(a: seq<Message>, b: seq<Message>, i: nat)
    requires SameRows(a, b) && i < |a| && IsEcho(a[i])
    ensures Target(a, i) == Target(b, i)
  {
    var role := RoleAt(a, i);
    assert IsEchoOf(a[i], role);
    assert RoleAt(b, i) == role;
    FirstStopsAgree(a, b, role, i + 1);
    LastBeforeAgrees(a, b, role, i);
  }

  lemma {:induction false} FirstStopsAgree(a: seq<Message>, b: seq<Message>, role: CanonicalKind, from: nat)
    requires SameRows(a, b) && from <= |a|
    ensures FirstStop(a, role, from) == FirstStop(b, role, from)
    decreases |a| - from
  {
    if from < |a| {
      assert Stops(a[from], role) == Stops(b[from], role);
      FirstStopsAgree(a, b, role, from + 1);
    }
  }

  lemma {:induction false} LastBeforeAgrees(a: seq<Message>, b: seq<Message>, role: CanonicalKind, to: nat)
    requires SameRows(a, b) && to <= |a|
    ensures LastBefore(a, role, to) == LastBefore(b, role, to)
  {
    if to > 0 {
      LastBeforeAgrees(a, b, role, to - 1);
    }
  }

  // ---------- the loops ----------

  /** The line echo `i` resolves to; searches ahead, then, only past the end of the stream, behind. */
  method FindCanonicalLine(messages: array<Message>, i: nat) returns (line: Option<nat>)
    requires i < messages.Length && IsEcho(messages[i])
    ensures line == match Target(messages[..], i) case None => None case Some(j) => Some(messages[j].lineOrdinal)
  {
    var target := messages[i].echoOf.value.canonicalKind;
    line := None;
    var j := i + 1;
    while j < messages.Length
      invariant i < j <= messages.Length
      invariant FirstStop(messages[..], target, i + 1) == FirstStop(messages[..], target, j)
    {
      if messages[j].kind == target {
        return Some(messages[j].lineOrdinal);
      }
      if IsEchoOf(messages[j], target) {
        return None;
      }
      j := j + 1;
    }
    j := i;
    while j > 0
      invariant 0 <= j <= i
      invariant LastBefore(messages[..], target, i) == LastBefore(messages[..], target, j)
    {
      if messages[j - 1].kind == target {
        return Some(messages[j - 1].lineOrdinal);
      }
      j := j - 1;
    }
  }

  method ResolveEchoBackPointers(messages: array<Message>)
    modifies messages
    ensures messages[..] == Resolve(old(messages[..]))
  {
    ghost var before := messages[..];
    for i := 0 to messages.Length
      invariant forall k :: 0 <= k < messages.Length ==> messages[k] == if k < i then Linked(before, k) else before[k]
    {
      if IsEcho(messages[i]) {
        assert SameRows(before, messages[..]);
        TargetsAgree(before, messages[..], i);
        var line := FindCanonicalLine(messages, i);
        if line.Some? && line.value != messages[i].echoOf.value.lineOrdinal {
          messages[i] := messages[i].(echoOf := Some(EchoOf(line.value, messages[i].echoOf.value.canonicalKind)));
        }
      }
    }
  }

  // ---------- what the pass guarantees ----------

  lemma ResolveKeepsRows(messages: seq<Message>)
    ensures SameRows(messages, Resolve(messages))
  {
  }

  /** Running the pass again changes nothing. */
  lemma ResolveIsIdempotent(messages: seq<Message>)
    ensures Resolve(Resolve(messages)) == Resolve(messages)
  {
    var once := Resolve(messages);
    ResolveKeepsRows(messages);
    forall i | 0 <= i < |messages| ensures Linked(once, i) == once[i] {
      if IsEcho(messages[i]) {
        TargetsAgree(messages, once, i);
      }
    }
  }

  /** The pass as single updates, in any order and with any repetition. */
  function ResolveInOrder(messages: seq<Message>, order: seq<nat>): (result: seq<Message>)
    requires forall n :: 0 <= n < |order| ==> order[n] < |messages|
    ensures |result| == |messages|
  {
    if order == [] then messages
    else
      var earlier := ResolveInOrder(messages, order[..|order| - 1]);
      var i := order[|order| - 1];
      earlier[i := Linked(earlier, i)]
  }

  /** The order of visits does not matter: each visited echo ends up with its own link, the others are untouched. */
  lemma {:induction false} OrderDoesNotMatter(messages: seq<Message>, order: seq<nat>)
    requires forall n :: 0 <= n < |order| ==> order[n] < |messages|
    ensures forall i :: 0 <= i < |messages| ==>
      ResolveInOrder(messages, order)[i] == if i in order then Linked(messages, i) else messages[i]
  {
    if order != [] {
      var earlier := ResolveInOrder(messages, order[..|order| - 1]);
      var last := order[|order| - 1];
      OrderDoesNotMatter(messages, order[..|order| - 1]);
      assert order == order[..|order| - 1] + [last];
      assert SameRows(messages, earlier);
      if IsEcho(messages[last]) {
        TargetsAgree(messages, earlier, last);
      }
    }
  }

  /** Forward links of one role never cross or meet: each echo's canonical message comes before the next such echo. */
  lemma ForwardLinksKeepOrder(messages: seq<Message>, i: nat, j: nat, i': nat, j': nat)
    requires IsForwardLink(messages, i, j) && IsForwardLink(messages, i', j')
    requires RoleAt(messages, i) == RoleAt(messages, i')
    ensures i < i' <==> j < j'
    ensures i == i' <==> j == j'
    ensures i < i' ==> j < i'
  {
    assert IsEchoOf(messages[i], RoleAt(messages, i)) && IsEchoOf(messages[i'], RoleAt(messages, i'));
    assert Stops(messages[j], RoleAt(messages, i)) && Stops(messages[j'], RoleAt(messages, i'));
  }

  /** Only the last echo of a role looks behind, and it lies behind every canonical message of that role. */
  lemma BackwardLinkIsLast(messages: seq<Message>, i: nat, j: nat, k: nat)
    requires IsBackwardLink(messages, i, j) && k < |messages|
    ensures IsEchoOf(messages[k], RoleAt(messages, i)) ==> k <= i
    ensures messages[k].kind == RoleAt(messages, i) ==> k <= j
  {
    assert k > i ==> !Stops(messages[k], RoleAt(messages, i));
  }

  lemma AtMostOneLooksBehind(messages: seq<Message>, i: nat, j: nat, i': nat, j': nat)
    requires IsBackwardLink(messages, i, j) && IsBackwardLink(messages, i', j')
    requires RoleAt(messages, i) == RoleAt(messages, i')
    ensures i == i' && j == j'
  {
    assert IsEchoOf(messages[i], RoleAt(messages, i)) && IsEchoOf(messages[i'], RoleAt(messages, i'));
    BackwardLinkIsLast(messages, i, j, i');
    BackwardLinkIsLast(messages, i', j', i);
  }
}
