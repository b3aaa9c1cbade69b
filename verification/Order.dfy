/** Lists sorted by a strict order. */
module Sorting {
  ghost predicate Transitive<T(!new)>(before: (T, T) -> bool) {
    forall a, b, c :: before(a, b) && before(b, c) ==> before(a, c)
  }

  predicate Sorted<T>(xs: seq<T>, before: (T, T) -> bool) {
    forall i, j :: 0 <= i < j < |xs| ==> before(xs[i], xs[j])
  }

  lemma BeforeRest<T(!new)>(xs: seq<T>, x: T, k: nat, before: (T, T) -> bool)
    requires Transitive(before) && Sorted(xs, before) && k < |xs| && before(x, xs[k])
    ensures forall i :: k <= i < |xs| ==> before(x, xs[i])
  {
    forall i | k < i < |xs|
      ensures before(x, xs[i])
    {
      assert before(xs[k], xs[i]);
    }
  }

  lemma InsertedIsSorted<T>(xs: seq<T>, x: T, k: nat, before: (T, T) -> bool)
    requires Sorted(xs, before) && k <= |xs|
    requires forall i :: 0 <= i < k ==> before(xs[i], x)
    requires forall i :: k <= i < |xs| ==> before(x, xs[i])
    ensures Sorted(xs[..k] + [x] + xs[k..], before)
  {
    var r := xs[..k] + [x] + xs[k..];
    forall i, j | 0 <= i < j < |r|
      ensures before(r[i], r[j])
    {
      var here := if i < k then r[i] == xs[i] else i == k || r[i] == xs[i - 1];
      var there := if j < k then r[j] == xs[j] else j == k || r[j] == xs[j - 1];
      assert here && there;
    }
  }

  lemma InsertedHas<T>(xs: seq<T>, x: T, k: nat)
    requires k <= |xs|
    ensures forall y :: y in xs[..k] + [x] + xs[k..] <==> y in xs || y == x
  {
    assert xs == xs[..k] + xs[k..];
  }

  /** Puts an element in its place in a sorted list, when it is before or after each of its elements. */
  method Insert<T(!new)>(xs: seq<T>, x: T, before: (T, T) -> bool) returns (r: seq<T>)
    requires Transitive(before) && Sorted(xs, before)
    requires forall y :: y in xs ==> before(x, y) || before(y, x)
    ensures Sorted(r, before) && forall y :: y in r <==> y in xs || y == x
  {
    var k := 0;
    while k < |xs| && before(xs[k], x)
      invariant k <= |xs| && forall i :: 0 <= i < k ==> before(xs[i], x)
      decreases |xs| - k
    {
      k := k + 1;
    }
    if k < |xs| {
      assert xs[k] in xs;
      BeforeRest(xs, x, k, before);
    }
    InsertedIsSorted(xs, x, k, before);
    InsertedHas(xs, x, k);
    r := xs[..k] + [x] + xs[k..];
  }

  /** With no two elements before each other, a sorted list is known by its elements. */
  lemma {:induction false} SortedOnce<T>(a: seq<T>, b: seq<T>, before: (T, T) -> bool)
    requires Sorted(a, before) && Sorted(b, before) && forall x :: x in a <==> x in b
    requires forall x, y :: x in a && y in a ==> !(before(x, y) && before(y, x))
    ensures a == b
    decreases |a|
  {
    assert a != [] ==> a[0] in b;
    assert b != [] ==> b[0] in a;
    if a != [] {
      FirstIsFirst(a, b[0], before);
      FirstIsFirst(b, a[0], before);
      RestHasOthers(a, b, before);
      SortedOnce(a[1..], b[1..], before);
      assert a == [a[0]] + a[1..] && b == [b[0]] + b[1..];
    }
  }

  lemma FirstIsFirst<T>(a: seq<T>, x: T, before: (T, T) -> bool)
    requires Sorted(a, before) && x in a
    ensures x == a[0] || before(a[0], x)
  {
  }

  lemma RestHasOthers<T>(a: seq<T>, b: seq<T>, before: (T, T) -> bool)
    requires Sorted(a, before) && Sorted(b, before) && a != [] && b != [] && a[0] == b[0]
    requires forall x :: x in a <==> x in b
    requires forall x, y :: x in a && y in a ==> !(before(x, y) && before(y, x))
    ensures forall x :: x in a[1..] <==> x in b[1..]
  {
    forall x
      ensures x in a[1..] <==> x in b[1..]
    {
      assert a == [a[0]] + a[1..] && b == [b[0]] + b[1..];
      assert x in a[1..] ==> before(a[0], x);
      assert x in b[1..] ==> before(b[0], x);
      assert x in a <==> x == a[0] || x in a[1..];
      assert x in b <==> x == b[0] || x in b[1..];
    }
  }
}

/** The order of strings by bytes, or by code points. */
module Order {
  import opened Sorting

  predicate Less(a: string, b: string) {
    if b == "" then false
    else if a == "" then true
    else a[0] < b[0] || (a[0] == b[0] && Less(a[1..], b[1..]))
  }

  lemma {:induction false} LessTotal(a: string, b: string)
    ensures a == b || Less(a, b) || Less(b, a)
    ensures !(Less(a, b) && (Less(b, a) || a == b))
  {
    if a != "" && b != "" && a[0] == b[0] {
      LessTotal(a[1..], b[1..]);
      assert a == [a[0]] + a[1..] && b == [b[0]] + b[1..];
    }
  }

  lemma {:induction false} LessTransitive(a: string, b: string, c: string)
    requires Less(a, b) && Less(b, c)
    ensures Less(a, c)
  {
    if a != "" && a[0] == b[0] == c[0] {
      LessTransitive(a[1..], b[1..], c[1..]);
    }
  }

  lemma LessIsTransitive()
    ensures Transitive(Less)
  {
    forall a, b, c | Less(a, b) && Less(b, c)
      ensures Less(a, c)
    {
      LessTransitive(a, b, c);
    }
  }

  /** Ascending, and so without duplicates. */
  ghost predicate Ascending(ids: seq<string>) {
    Sorted(ids, Less)
  }

  ghost predicate Lists(ids: seq<string>, s: set<string>) {
    Ascending(ids) && forall id :: id in ids <==> id in s
  }

  /** There is one ascending list of a set, and it is as long as the set is big. */
  lemma ListsOnce(a: seq<string>, b: seq<string>, s: set<string>)
    requires Lists(a, s) && Lists(b, s)
    ensures a == b && |a| == |s|
  {
    forall x, y | x in a && y in a
      ensures !(Less(x, y) && Less(y, x))
    {
      LessTotal(x, y);
    }
    SortedOnce(a, b, Less);
    ListedSize(a, s);
  }

  lemma {:induction false} ListedSize(a: seq<string>, s: set<string>)
    requires Lists(a, s)
    ensures |a| == |s|
    decreases |a|
  {
    if a == [] {
      assert s == {};
    } else {
      assert a == [a[0]] + a[1..];
      forall id | id in a[1..]
        ensures id != a[0]
      {
        LessTotal(a[0], id);
      }
      assert forall id :: id in a[1..] <==> id in s - {a[0]};
      ListedSize(a[1..], s - {a[0]});
    }
  }

  /** sortedMessageIDs; a map is walked in any order. */
  method SortedIds(values: set<string>) returns (ids: seq<string>)
    ensures Lists(ids, values) && |ids| == |values|
  {
    var todo := values;
    ids := [];
    LessIsTransitive();
    while todo != {}
      invariant todo <= values && Ascending(ids)
      invariant forall id :: id in ids <==> id in values && id !in todo
      decreases |todo|
    {
      var id :| id in todo;
      forall other | other in ids
        ensures Less(id, other) || Less(other, id)
      {
        LessTotal(id, other);
      }
      ids := Insert(ids, id, Less);
      todo := todo - {id};
    }
    ListsOnce(ids, ids, values);
  }
}
