/** Canonical JSON and the two halves of an idempotency key. `sha` stands for SHA-256 in hexadecimal. */
module Idempotency {
  import opened Wrappers
  import opened TextOrder

  datatype Json =
    | Null
    | Bool(value: bool)
    | Number(text: string)
    | Str(text: string)
    | Arr(elements: seq<Json>)
    | Obj(members: seq<Member>)

  datatype Member = Member(key: string, value: Json)

  function KeyOf(m: Member): string {
    m.key
  }

  /** An object is a map: no key twice, at any depth. */
  predicate WellFormed(v: Json) {
    match v
    case Arr(elements) => forall i :: 0 <= i < |elements| ==> WellFormed(elements[i])
    case Obj(members) => DistinctBy(KeyOf, members) && forall i :: 0 <= i < |members| ==> WellFormed(members[i].value)
    case _ => true
  }

  /** Where a key stands; the length when it is absent. */
  function IndexOf(members: seq<Member>, key: string): (i: nat)
    ensures i <= |members| && (i < |members| ==> members[i].key == key)
    ensures forall j :: 0 <= j < i ==> members[j].key != key
  {
    if members == [] || members[0].key == key then 0 else 1 + IndexOf(members[1..], key)
  }

  predicate HasKey(members: seq<Member>, key: string) {
    IndexOf(members, key) < |members|
  }

  function Lookup(members: seq<Member>, key: string): Option<Json> {
    var i := IndexOf(members, key);
    if i < |members| then Some(members[i].value) else None
  }

  /** Equal up to the order of object members at every depth; array order counts. */
  predicate SameJson(a: Json, b: Json) {
    match a
    case Arr(elements) =>
      b.Arr? && |elements| == |b.elements|
      && forall i :: 0 <= i < |elements| ==> SameJson(elements[i], b.elements[i])
    case Obj(members) =>
      && b.Obj?
      && (forall i :: 0 <= i < |members| ==>
            HasKey(b.members, members[i].key)
            && SameJson(members[i].value, b.members[IndexOf(b.members, members[i].key)].value))
      && (forall j :: 0 <= j < |b.members| ==> HasKey(members, b.members[j].key))
    case _ => a == b
  }

  lemma SortedFromMembers(members: seq<Member>)
    ensures |Sort(KeyOf, members)| == |members|
    ensures forall m :: m in Sort(KeyOf, members) <==> m in members
  {
    SameElements(Sort(KeyOf, members), members);
  }

  /** `canonicalize_value`. */
  function Canonical(v: Json): Json {
    match v
    case Arr(elements) => Arr(seq(|elements|, i requires 0 <= i < |elements| => Canonical(elements[i])))
    case Obj(members) =>
      SortedFromMembers(members);
      var sorted := Sort(KeyOf, members);
      Obj(seq(|sorted|, i requires 0 <= i < |sorted| =>
        assert sorted[i] in members;
        Member(sorted[i].key, Canonical(sorted[i].value))))
    case _ => v
  }

  // ---------- canonical form decides equality ----------

  function CanonicalMember(m: Member): Member {
    Member(m.key, Canonical(m.value))
  }

  lemma CanonicalIsSorted(members: seq<Member>)
    ensures var sorted, canonical := Sort(KeyOf, members), Canonical(Obj(members)).members;
      && |canonical| == |sorted| == |members|
      && (forall j :: 0 <= j < |sorted| ==> canonical[j] == CanonicalMember(sorted[j]))
      && SortedBy(KeyOf, canonical)
      && (DistinctBy(KeyOf, members) ==> DistinctBy(KeyOf, canonical))
  {
    var sorted, canonical := Sort(KeyOf, members), Canonical(Obj(members)).members;
    SortedFromMembers(members);
    assert forall j :: 0 <= j < |sorted| ==> KeyOf(canonical[j]) == KeyOf(sorted[j]);
    if DistinctBy(KeyOf, members) {
      SortKeepsDistinct(KeyOf, members);
    }
  }

  predicate IsImage(members: seq<Member>, m: Member) {
    exists i :: 0 <= i < |members| && m == CanonicalMember(members[i])
  }

  /** A canonical object holds exactly the canonical forms of its members, in strict key order. */
  lemma CanonicalMembers(members: seq<Member>)
    requires DistinctBy(KeyOf, members)
    ensures var canonical := Canonical(Obj(members)).members;
      && |canonical| == |members| && DistinctBy(KeyOf, canonical) && SortedBy(KeyOf, canonical)
      && (forall i :: 0 <= i < |members| ==> CanonicalMember(members[i]) in canonical)
      && (forall j :: 0 <= j < |canonical| ==> IsImage(members, canonical[j]))
  {
    var sorted, canonical := Sort(KeyOf, members), Canonical(Obj(members)).members;
    SortedFromMembers(members);
    CanonicalIsSorted(members);
    forall i | 0 <= i < |members| ensures CanonicalMember(members[i]) in canonical {
      assert members[i] in sorted;
      var j :| 0 <= j < |sorted| && sorted[j] == members[i];
      assert canonical[j] == CanonicalMember(members[i]);
    }
    forall j | 0 <= j < |canonical| ensures IsImage(members, canonical[j]) {
      assert sorted[j] in members;
    }
  }

  lemma KeyIsAt(members: seq<Member>, i: nat)
    requires DistinctBy(KeyOf, members) && i < |members|
    ensures IndexOf(members, members[i].key) == i
  {
    assert KeyOf(members[i]) == members[i].key;
    var j := IndexOf(members, members[i].key);
    assert j < |members| ==> KeyOf(members[j]) == KeyOf(members[i]);
  }

  /** Equal up to member order, then equal in canonical form. */
  lemma {:induction false} SameThenCanonical(a: Json, b: Json)
    requires WellFormed(a) && WellFormed(b) && SameJson(a, b)
    ensures Canonical(a) == Canonical(b)
  {
    match a
    case Arr(elements) =>
      forall i | 0 <= i < |elements| ensures Canonical(elements[i]) == Canonical(b.elements[i]) {
        SameThenCanonical(elements[i], b.elements[i]);
      }
    case Obj(members) =>
      forall i | 0 <= i < |members|
        ensures IsImage(b.members, CanonicalMember(members[i]))
      {
        var j := IndexOf(b.members, members[i].key);
        SameThenCanonical(members[i].value, b.members[j].value);
        assert CanonicalMember(members[i]) == CanonicalMember(b.members[j]);
      }
      SameImages(members, b.members);
    case _ =>
  }

  /** Objects with the same keys, each member of one an image of a member of the other, canonicalise alike. */
  lemma SameImages(a: seq<Member>, b: seq<Member>)
    requires DistinctBy(KeyOf, a) && DistinctBy(KeyOf, b)
    requires forall i :: 0 <= i < |a| ==> IsImage(b, CanonicalMember(a[i]))
    requires forall j :: 0 <= j < |b| ==> HasKey(a, b[j].key)
    ensures Canonical(Obj(a)) == Canonical(Obj(b))
  {
    CanonicalMembers(a);
    CanonicalMembers(b);
    forall j | 0 <= j < |b| ensures IsImage(a, CanonicalMember(b[j])) {
      ImageBack(a, b, j);
    }
    var x, y := Canonical(Obj(a)).members, Canonical(Obj(b)).members;
    ImagesAreContained(a, b, x, y);
    ImagesAreContained(b, a, y, x);
    SortedDistinctIsUnique(KeyOf, x, y);
  }

  lemma ImageBack(a: seq<Member>, b: seq<Member>, j: nat)
    requires DistinctBy(KeyOf, b) && j < |b| && HasKey(a, b[j].key)
    requires forall i :: 0 <= i < |a| ==> IsImage(b, CanonicalMember(a[i]))
    ensures IsImage(a, CanonicalMember(b[j]))
  {
    var i := IndexOf(a, b[j].key);
    assert IsImage(b, CanonicalMember(a[i]));
    var k :| 0 <= k < |b| && CanonicalMember(a[i]) == CanonicalMember(b[k]);
    KeyIsAt(b, j);
    KeyIsAt(b, k);
  }

  lemma ImagesAreContained(a: seq<Member>, b: seq<Member>, x: seq<Member>, y: seq<Member>)
    requires forall i :: 0 <= i < |a| ==> IsImage(b, CanonicalMember(a[i]))
    requires forall k :: 0 <= k < |x| ==> IsImage(a, x[k])
    requires forall j :: 0 <= j < |b| ==> CanonicalMember(b[j]) in y
    ensures forall m :: m in x ==> m in y
  {
    forall k | 0 <= k < |x| ensures x[k] in y {
      var i :| 0 <= i < |a| && x[k] == CanonicalMember(a[i]);
      assert IsImage(b, x[k]);
    }
  }

  /** Equal in canonical form, then equal up to member order. */
  lemma {:induction false} CanonicalThenSame(a: Json, b: Json)
    requires WellFormed(a) && WellFormed(b) && Canonical(a) == Canonical(b)
    ensures SameJson(a, b)
  {
    match a
    case Arr(elements) =>
      forall i | 0 <= i < |elements| ensures SameJson(elements[i], b.elements[i]) {
        assert Canonical(a).elements[i] == Canonical(b).elements[i];
        CanonicalThenSame(elements[i], b.elements[i]);
      }
    case Obj(members) =>
      CanonicalMembers(members);
      CanonicalMembers(b.members);
      forall i | 0 <= i < |members|
        ensures HasKey(b.members, members[i].key)
        ensures SameJson(members[i].value, b.members[IndexOf(b.members, members[i].key)].value)
      {
        var j := CounterPart(members, b.members, i);
        KeyIsAt(b.members, j);
        CanonicalThenSame(members[i].value, b.members[j].value);
      }
      forall j | 0 <= j < |b.members| ensures HasKey(members, b.members[j].key) {
        var i := CounterPart(b.members, members, j);
        KeyIsAt(members, i);
      }
    case _ =>
  }

  lemma CounterPart(a: seq<Member>, b: seq<Member>, i: nat) returns (j: nat)
    requires DistinctBy(KeyOf, a) && DistinctBy(KeyOf, b) && Canonical(Obj(a)) == Canonical(Obj(b)) && i < |a|
    ensures j < |b| && b[j].key == a[i].key && Canonical(b[j].value) == Canonical(a[i].value)
  {
    CanonicalMembers(a);
    CanonicalMembers(b);
    var canonical := Canonical(Obj(b)).members;
    var k :| 0 <= k < |canonical| && canonical[k] == CanonicalMember(a[i]);
    j :| 0 <= j < |b| && canonical[k] == CanonicalMember(b[j]);
  }

  /** The law of the canonical form: it decides equality up to member order. */
  lemma CanonicalDecidesEquality(a: Json, b: Json)
    requires WellFormed(a) && WellFormed(b)
    ensures Canonical(a) == Canonical(b) <==> SameJson(a, b)
  {
    if Canonical(a) == Canonical(b) {
      CanonicalThenSame(a, b);
    }
    if SameJson(a, b) {
      SameThenCanonical(a, b);
    }
  }

  /** Canonicalising reorders members and nothing else. */
  lemma {:induction false} CanonicalOnlyReorders(v: Json)
    requires WellFormed(v)
    ensures WellFormed(Canonical(v)) && SameJson(Canonical(v), v)
  {
    match v
    case Arr(elements) =>
      forall i | 0 <= i < |elements|
        ensures WellFormed(Canonical(elements[i])) && SameJson(Canonical(elements[i]), elements[i])
      {
        CanonicalOnlyReorders(elements[i]);
      }
    case Obj(members) =>
      CanonicalMembers(members);
      forall i | 0 <= i < |members|
        ensures WellFormed(Canonical(members[i].value)) && SameJson(Canonical(members[i].value), members[i].value)
      {
        CanonicalOnlyReorders(members[i].value);
      }
      ObjectOnlyReordered(members, Canonical(v).members);
    case _ =>
  }

  lemma ObjectOnlyReordered(members: seq<Member>, canonical: seq<Member>)
    requires DistinctBy(KeyOf, members) && DistinctBy(KeyOf, canonical)
    requires forall i :: 0 <= i < |members| ==> CanonicalMember(members[i]) in canonical
    requires forall j :: 0 <= j < |canonical| ==> IsImage(members, canonical[j])
    requires forall i :: 0 <= i < |members| ==>
      WellFormed(Canonical(members[i].value)) && SameJson(Canonical(members[i].value), members[i].value)
    ensures WellFormed(Obj(canonical)) && SameJson(Obj(canonical), Obj(members))
  {
    forall j | 0 <= j < |canonical|
      ensures WellFormed(canonical[j].value) && HasKey(members, canonical[j].key)
      ensures SameJson(canonical[j].value, members[IndexOf(members, canonical[j].key)].value)
    {
      var i :| 0 <= i < |members| && canonical[j] == CanonicalMember(members[i]);
      KeyIsAt(members, i);
    }
    forall i | 0 <= i < |members| ensures HasKey(canonical, members[i].key) {
      var j :| 0 <= j < |canonical| && canonical[j] == CanonicalMember(members[i]);
      KeyIsAt(canonical, j);
    }
  }

  lemma CanonicalIsIdempotent(v: Json)
    requires WellFormed(v)
    ensures Canonical(Canonical(v)) == Canonical(v)
  {
    CanonicalOnlyReorders(v);
    SameThenCanonical(Canonical(v), v);
  }

  /** Every lookup still answers, with the canonical form of what it answered. */
  lemma CanonicalKeepsLookups(members: seq<Member>, key: string)
    requires DistinctBy(KeyOf, members)
    ensures Lookup(Canonical(Obj(members)).members, key)
         == match Lookup(members, key) case None => None case Some(v) => Some(Canonical(v))
  {
    CanonicalMembers(members);
    var canonical := Canonical(Obj(members)).members;
    var i, j := IndexOf(members, key), IndexOf(canonical, key);
    if i < |members| {
      var k :| 0 <= k < |canonical| && canonical[k] == CanonicalMember(members[i]);
      KeyIsAt(canonical, k);
    } else {
      forall k | 0 <= k < |canonical| ensures canonical[k].key != key {
        assert IsImage(members, canonical[k]);
      }
    }
  }

  /** `canonical_params_hash`; `hash` is the digest of the serialised value. */
  function CanonicalParamsHash(hash: Json -> string, params: Json): string {
    hash(Canonical(params))
  }

  /** With a digest that tells values apart, two parameter objects share a hash exactly when they are the same. */
  lemma ParamsHashIsExact(hash: Json -> string, a: Json, b: Json)
    requires WellFormed(a) && WellFormed(b)
    requires forall x, y :: hash(x) == hash(y) ==> x == y
    ensures CanonicalParamsHash(hash, a) == CanonicalParamsHash(hash, b) <==> SameJson(a, b)
  {
    CanonicalDecidesEquality(a, b);
  }
}
