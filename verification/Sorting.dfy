/** Stable sorting by a numeric key, as the standard library's `sort_by_key` does. */
module Sorting {

  predicate Ordered<T>(key: T -> nat, s: seq<T>) {
    forall i {:trigger s[i]} :: 0 < i < |s| ==> key(s[i - 1]) <= key(s[i])
  }

  function InsertBy<T>(key: T -> nat, x: T, s: seq<T>): seq<T> {
    if s == [] || key(x) < key(s[0]) then [x] + s else [s[0]] + InsertBy(key, x, s[1..])
  }

  function SortBy<T>(key: T -> nat, s: seq<T>): seq<T> {
    if s == [] then [] else InsertBy(key, s[|s| - 1], SortBy(key, s[..|s| - 1]))
  }

  lemma TailOrdered<T>(key: T -> nat, s: seq<T>)
    requires Ordered(key, s) && s != []
    ensures Ordered(key, s[1..])
  {
    forall i {:trigger s[1..][i]} | 0 < i < |s[1..]| ensures key(s[1..][i - 1]) <= key(s[1..][i]) {
      assert key(s[i + 1 - 1]) <= key(s[i + 1]);
    }
  }

  lemma HeadOrdered<T>(key: T -> nat, x: T, s: seq<T>)
    requires Ordered(key, s) && s != [] && key(x) <= key(s[0])
    ensures Ordered(key, [x] + s)
  {
    var r := [x] + s;
    forall i {:trigger r[i]} | 0 < i < |r| ensures key(r[i - 1]) <= key(r[i]) {
      assert r[i] == s[i - 1];
    }
  }

  lemma {:induction false} InsertIsOrdered<T>(key: T -> nat, x: T, s: seq<T>)
    requires Ordered(key, s)
    ensures Ordered(key, InsertBy(key, x, s)) && |InsertBy(key, x, s)| == |s| + 1
    ensures InsertBy(key, x, s)[0] == x || (s != [] && InsertBy(key, x, s)[0] == s[0])
  {
    if s == [] {
    } else if key(x) < key(s[0]) {
      HeadOrdered(key, x, s);
    } else {
      TailOrdered(key, s);
      InsertIsOrdered(key, x, s[1..]);
      if |s| > 1 { assert key(s[0]) <= key(s[1]); }
      HeadOrdered(key, s[0], InsertBy(key, x, s[1..]));
    }
  }

  lemma {:induction false} InsertKeepsElements<T>(key: T -> nat, x: T, s: seq<T>)
    ensures multiset(InsertBy(key, x, s)) == multiset(s) + multiset{x}
  {
    if s == [] || key(x) < key(s[0]) {
    } else {
      InsertKeepsElements(key, x, s[1..]);
      assert s == [s[0]] + s[1..];
    }
  }

  /** The result is ordered by key and a permutation of the input. */
  lemma SortIsOrdered<T>(key: T -> nat, s: seq<T>)
    ensures Ordered(key, SortBy(key, s)) && multiset(SortBy(key, s)) == multiset(s)
    ensures |SortBy(key, s)| == |s|
  {
    SortOrders(key, s);
    SortKeepsElements(key, s);
  }

  lemma {:induction false} SortOrders<T>(key: T -> nat, s: seq<T>)
    ensures Ordered(key, SortBy(key, s)) && |SortBy(key, s)| == |s|
  {
    if s != [] {
      SortOrders(key, s[..|s| - 1]);
      InsertIsOrdered(key, s[|s| - 1], SortBy(key, s[..|s| - 1]));
    }
  }

  lemma {:induction false} SortKeepsElements<T>(key: T -> nat, s: seq<T>)
    ensures multiset(SortBy(key, s)) == multiset(s)
  {
    if s != [] {
      var front, last := s[..|s| - 1], s[|s| - 1];
      SortKeepsElements(key, front);
      InsertKeepsElements(key, last, SortBy(key, front));
      assert s == front + [last];
    }
  }

  lemma {:induction false} OrderedAt<T>(key: T -> nat, s: seq<T>, i: nat, j: nat)
    requires Ordered(key, s) && i <= j < |s|
    ensures key(s[i]) <= key(s[j])
    decreases j
  {
    if i < j {
      OrderedAt(key, s, i, j - 1);
    }
  }

  /** With distinct keys an ordered list is determined by its elements. */
  lemma {:induction false} OrderedIsUnique<T>(key: T -> nat, a: seq<T>, b: seq<T>)
    requires Ordered(key, a) && Ordered(key, b) && multiset(a) == multiset(b)
    requires forall x, y :: x in a && y in a && key(x) == key(y) ==> x == y
    ensures a == b
  {
    assert |multiset(a)| == |a| && |multiset(b)| == |b|;
    if a != [] {
      SmallestFirst(key, a, b);
      TailOrdered(key, a);
      TailOrdered(key, b);
      hide Ordered;
      TailMultiset(a);
      TailMultiset(b);
      OrderedIsUnique(key, a[1..], b[1..]);
      SameHeadAndTail(a, b);
    }
  }

  lemma SameHeadAndTail<T>(a: seq<T>, b: seq<T>)
    requires a != [] && b != [] && a[0] == b[0] && a[1..] == b[1..]
    ensures a == b
  {
    assert a == [a[0]] + a[1..] && b == [b[0]] + b[1..];
  }

  lemma TailMultiset<T>(a: seq<T>)
    requires a != []
    ensures multiset(a[1..]) == multiset(a) - multiset{a[0]}
    ensures forall x :: x in a[1..] ==> x in a
  {
    assert a == [a[0]] + a[1..];
  }

  lemma SmallestFirst<T>(key: T -> nat, a: seq<T>, b: seq<T>)
    requires Ordered(key, a) && Ordered(key, b) && multiset(a) == multiset(b)
    requires forall x, y :: x in a && y in a && key(x) == key(y) ==> x == y
    requires a != [] && b != []
    ensures a[0] == b[0]
  {
    assert a[0] in multiset(b) && b[0] in multiset(a);
    var i :| 0 <= i < |a| && a[i] == b[0];
    var j :| 0 <= j < |b| && b[j] == a[0];
    OrderedAt(key, a, 0, i);
    OrderedAt(key, b, 0, j);
  }
}
