/** The order of text by code point, and sorting by it. */
module TextOrder {
  predicate LexLeq(a: string, b: string) {
    a == [] || (b != [] && (a[0] < b[0] || (a[0] == b[0] && LexLeq(a[1..], b[1..]))))
  }

  /** A prefix comes first; otherwise the first character that differs decides. */
  lemma {:induction false} LexIsByFirstDifference(a: string, b: string)
    ensures LexLeq(a, b) <==> a <= b || exists k :: LessAt(a, b, k)
  {
    if a != [] && b != [] && a[0] == b[0] {
      LexIsByFirstDifference(a[1..], b[1..]);
      assert a == [a[0]] + a[1..] && b == [b[0]] + b[1..];
      assert a <= b <==> a[1..] <= b[1..];
      if k :| LessAt(a[1..], b[1..], k) {
        assert a[..k + 1] == [a[0]] + a[1..][..k] && b[..k + 1] == [b[0]] + b[1..][..k];
        assert LessAt(a, b, k + 1);
      }
      if k :| LessAt(a, b, k) {
        assert k > 0 && a[1..][..k - 1] == a[..k][1..] && b[1..][..k - 1] == b[..k][1..];
        assert LessAt(a[1..], b[1..], k - 1);
      }
    } else if a != [] && b != [] {
      assert LexLeq(a, b) ==> LessAt(a, b, 0);
      assert forall k :: LessAt(a, b, k) && k > 0 ==> a[..k][0] == b[..k][0];
    }
  }

  /** The texts agree before `k`, where `a` has the smaller character. */
  predicate LessAt(a: string, b: string, k: int) {
    0 <= k < |a| && k < |b| && a[..k] == b[..k] && a[k] < b[k]
  }

  lemma {:induction false} LexTotal(a: string, b: string)
    ensures LexLeq(a, b) || LexLeq(b, a)
    ensures LexLeq(a, b) && LexLeq(b, a) ==> a == b
  {
    if a != [] && b != [] && a[0] == b[0] {
      LexTotal(a[1..], b[1..]);
      assert a == [a[0]] + a[1..] && b == [b[0]] + b[1..];
    }
  }

  lemma {:induction false} LexTransitive(a: string, b: string, c: string)
    requires LexLeq(a, b) && LexLeq(b, c)
    ensures LexLeq(a, c)
  {
    if a != [] && a[0] == b[0] && b[0] == c[0] {
      LexTransitive(a[1..], b[1..], c[1..]);
    }
  }

  // ---------- sorting by a text key ----------

  predicate SortedBy<T>(key: T -> string, items: seq<T>) {
    forall i, j :: 0 <= i < j < |items| ==> LexLeq(key(items[i]), key(items[j]))
  }

  function Insert<T>(key: T -> string, x: T, sorted: seq<T>): (result: seq<T>)
    requires SortedBy(key, sorted)
    ensures SortedBy(key, result) && multiset(result) == multiset(sorted) + multiset{x}
  {
    if sorted == [] then [x]
    else
      LexTotal(key(x), key(sorted[0]));
      assert sorted == [sorted[0]] + sorted[1..];
      if LexLeq(key(x), key(sorted[0])) then
        FrontStaysSorted(key, x, sorted);
        [x] + sorted
      else
        var rest := Insert(key, x, sorted[1..]);
        FrontStaysSortedOver(key, sorted[0], rest, x, sorted[1..]);
        [sorted[0]] + rest
  }

  lemma FrontStaysSorted<T>(key: T -> string, x: T, sorted: seq<T>)
    requires SortedBy(key, sorted) && (sorted != [] ==> LexLeq(key(x), key(sorted[0])))
    ensures SortedBy(key, [x] + sorted)
  {
    forall j | 0 <= j < |sorted| ensures LexLeq(key(x), key(sorted[j])) {
      if j > 0 {
        LexTransitive(key(x), key(sorted[0]), key(sorted[j]));
      }
    }
  }

  lemma FrontStaysSortedOver<T>(key: T -> string, first: T, rest: seq<T>, x: T, before: seq<T>)
    requires SortedBy(key, rest) && multiset(rest) == multiset(before) + multiset{x}
    requires LexLeq(key(first), key(x)) && forall o :: o in before ==> LexLeq(key(first), key(o))
    ensures SortedBy(key, [first] + rest)
  {
    forall j | 0 <= j < |rest| ensures LexLeq(key(first), key(rest[j])) {
      assert rest[j] in multiset(rest);
    }
  }

  /** The items in order of their keys. */
  function Sort<T>(key: T -> string, items: seq<T>): (sorted: seq<T>)
    ensures SortedBy(key, sorted) && multiset(sorted) == multiset(items)
  {
    if items == [] then []
    else
      assert items == [items[0]] + items[1..];
      Insert(key, items[0], Sort(key, items[1..]))
  }

  lemma {:induction false} LexReflexive(a: string)
    ensures LexLeq(a, a)
  {
    if a != [] {
      LexReflexive(a[1..]);
    }
  }

  lemma FirstIsLeast<T>(key: T -> string, a: seq<T>, x: T)
    requires SortedBy(key, a) && x in a
    ensures LexLeq(key(a[0]), key(x))
  {
    LexReflexive(key(a[0]));
  }

  lemma SameElements<T>(a: seq<T>, b: seq<T>)
    requires multiset(a) == multiset(b)
    ensures |a| == |b| && forall x :: x in a <==> x in b
  {
    assert |multiset(a)| == |multiset(b)|;
    forall x ensures x in a <==> x in b {
      assert x in multiset(a) <==> x in multiset(b);
    }
  }

  lemma SameTails<T>(a: seq<T>, b: seq<T>)
    requires a != [] && b != [] && a[0] == b[0] && multiset(a) == multiset(b)
    ensures multiset(a[1..]) == multiset(b[1..])
  {
    assert a == [a[0]] + a[1..] && b == [b[0]] + b[1..];
    assert multiset(a[1..]) == multiset(a) - multiset{a[0]};
    assert multiset(b[1..]) == multiset(b) - multiset{b[0]};
  }

  ghost predicate KeysTell<T>(key: T -> string, items: seq<T>) {
    forall i, j :: 0 <= i < |items| && 0 <= j < |items| && key(items[i]) == key(items[j]) ==> items[i] == items[j]
  }

  /** There is one sorted arrangement of given items. */
  lemma {:induction false} SortedIsUnique<T>(key: T -> string, a: seq<T>, b: seq<T>)
    requires SortedBy(key, a) && SortedBy(key, b) && multiset(a) == multiset(b) && KeysTell(key, a)
    ensures a == b
  {
    SameElements(a, b);
    if a != [] {
      assert a[0] in b && b[0] in a;
      FirstIsLeast(key, a, b[0]);
      FirstIsLeast(key, b, a[0]);
      LexTotal(key(a[0]), key(b[0]));
      assert a[0] == b[0] by {
        var j :| 0 <= j < |a| && a[j] == b[0];
      }
      SameTails(a, b);
      SortedIsUnique(key, a[1..], b[1..]);
      assert a == [a[0]] + a[1..] && b == [b[0]] + b[1..];
    }
  }

  /** No two items have the same key. */
  predicate DistinctBy<T>(key: T -> string, items: seq<T>) {
    forall i, j :: 0 <= i < j < |items| ==> key(items[i]) != key(items[j])
  }

  lemma {:induction false} InsertKeepsDistinct<T>(key: T -> string, x: T, sorted: seq<T>)
    requires SortedBy(key, sorted) && DistinctBy(key, sorted)
    requires forall i :: 0 <= i < |sorted| ==> key(sorted[i]) != key(x)
    ensures DistinctBy(key, Insert(key, x, sorted))
  {
    if sorted != [] && !LexLeq(key(x), key(sorted[0])) {
      InsertKeepsDistinct(key, x, sorted[1..]);
      var rest := Insert(key, x, sorted[1..]);
      forall j | 0 <= j < |rest| ensures key(rest[j]) != key(sorted[0]) {
        assert rest[j] in multiset(rest);
      }
    }
  }

  lemma {:induction false} SortKeepsDistinct<T>(key: T -> string, items: seq<T>)
    requires DistinctBy(key, items)
    ensures DistinctBy(key, Sort(key, items))
  {
    if items != [] {
      SortKeepsDistinct(key, items[1..]);
      var rest := Sort(key, items[1..]);
      forall i | 0 <= i < |rest| ensures key(rest[i]) != key(items[0]) {
        assert rest[i] in multiset(rest) && rest[i] in multiset(items[1..]);
        var j :| 0 <= j < |items| - 1 && items[1..][j] == rest[i];
      }
      InsertKeepsDistinct(key, items[0], rest);
    }
  }

  /** Two strictly sorted sequences with the same elements are the same sequence. */
  lemma {:induction false} SortedDistinctIsUnique<T>(key: T -> string, a: seq<T>, b: seq<T>)
    requires SortedBy(key, a) && SortedBy(key, b) && DistinctBy(key, a) && DistinctBy(key, b)
    requires forall x :: x in a <==> x in b
    ensures a == b
  {
    assert a != [] ==> a[0] in b;
    assert b != [] ==> b[0] in a;
    if a != [] {
      FirstIsLeast(key, a, b[0]);
      FirstIsLeast(key, b, a[0]);
      LexTotal(key(a[0]), key(b[0]));
      SameKeySameItem(key, a, a[0], b[0]);
      TailElements(key, a);
      TailElements(key, b);
      SortedDistinctIsUnique(key, a[1..], b[1..]);
      assert a == [a[0]] + a[1..] && b == [b[0]] + b[1..];
    }
  }

  lemma SameKeySameItem<T>(key: T -> string, items: seq<T>, x: T, y: T)
    requires DistinctBy(key, items) && x in items && y in items && key(x) == key(y)
    ensures x == y
  {
    var i :| 0 <= i < |items| && items[i] == x;
    var j :| 0 <= j < |items| && items[j] == y;
  }

  lemma TailElements<T>(key: T -> string, items: seq<T>)
    requires items != [] && DistinctBy(key, items)
    ensures forall x :: x in items[1..] <==> x in items && x != items[0]
  {
    assert items == [items[0]] + items[1..];
  }
}
