/** Sorting a sequence with a comparator that returns a negative number, zero
    or a positive number, in the manner of Array.prototype.sort: the result is
    a permutation of the input, elements that compare equal keep their input
    order, and when the comparator is consistent every element compares at
    most 0 against every element after it. */
module Sorting {

  /** Puts x in front of the first element it compares strictly below, so x
      lands after every element it ties with. */
  function Insert<T>(x: T, s: seq<T>, cmp: (T, T) -> int): (r: seq<T>)
    ensures multiset(r) == multiset(s) + multiset{x}
  {
    if s == [] then [x]
    else if cmp(x, s[0]) < 0 then [x] + s
    else
      assert s == [s[0]] + s[1..];
      [s[0]] + Insert(x, s[1..], cmp)
  }

  /** Stable insertion sort: each element in turn is inserted into the sorted
      prefix that precedes it. */
  function Sort<T>(s: seq<T>, cmp: (T, T) -> int): (r: seq<T>)
    ensures multiset(r) == multiset(s)
  {
    if s == [] then []
    else
      assert s == s[..|s| - 1] + [s[|s| - 1]];
      Insert(s[|s| - 1], Sort(s[..|s| - 1], cmp), cmp)
  }

  ghost predicate Sorted<T>(s: seq<T>, cmp: (T, T) -> int)
  {
    forall i, j :: 0 <= i < j < |s| ==> cmp(s[i], s[j]) <= 0
  }

  /** On the elements of `elems`, cmp is the comparator of a total preorder:
      swapping the arguments negates the answer, and "at most 0" is transitive. */
  ghost predicate Consistent<T>(elems: set<T>, cmp: (T, T) -> int)
  {
    && (forall x, y :: x in elems && y in elems ==> cmp(y, x) == -cmp(x, y))
    && (forall x, y, z :: x in elems && y in elems && z in elems && cmp(x, y) <= 0 && cmp(y, z) <= 0 ==> cmp(x, z) <= 0)
  }

  lemma SortedHeadFirst<T>(t: seq<T>, cmp: (T, T) -> int, elems: set<T>)
    requires t != [] && Sorted(t, cmp) && Consistent(elems, cmp)
    requires forall y :: y in t ==> y in elems
    ensures forall y :: y in t ==> cmp(t[0], y) <= 0
  {
    forall y | y in t ensures cmp(t[0], y) <= 0 {
      var i :| 0 <= i < |t| && t[i] == y;
      if i == 0 {
        assert cmp(y, y) == -cmp(y, y);
      }
    }
  }

  lemma PrependSorted<T>(h: T, t: seq<T>, cmp: (T, T) -> int)
    requires Sorted(t, cmp)
    requires forall y :: y in t ==> cmp(h, y) <= 0
    ensures Sorted([h] + t, cmp)
  {
    var r := [h] + t;
    forall i, j | 0 <= i < j < |r| ensures cmp(r[i], r[j]) <= 0 {
      if i == 0 {
        assert r[j] in t;
      } else {
        assert r[i] == t[i - 1] && r[j] == t[j - 1];
      }
    }
  }

  lemma TailSorted<T>(t: seq<T>, cmp: (T, T) -> int)
    requires t != [] && Sorted(t, cmp)
    ensures Sorted(t[1..], cmp)
  {
    var tail := t[1..];
    forall i, j | 0 <= i < j < |tail| ensures cmp(tail[i], tail[j]) <= 0 {
      assert tail[i] == t[i + 1] && tail[j] == t[j + 1];
    }
  }

  lemma InsertElements<T>(x: T, t: seq<T>, cmp: (T, T) -> int)
    ensures forall y :: y in Insert(x, t, cmp) ==> y == x || y in t
  {
    var r := Insert(x, t, cmp);
    forall y | y in r ensures y == x || y in t {
      assert y in multiset(r);
    }
  }

  lemma {:induction false} InsertSorted<T>(x: T, t: seq<T>, cmp: (T, T) -> int, elems: set<T>)
    requires Consistent(elems, cmp) && x in elems
    requires forall y :: y in t ==> y in elems
    requires Sorted(t, cmp)
    ensures Sorted(Insert(x, t, cmp), cmp)
  {
    if t == [] {
    } else if cmp(x, t[0]) < 0 {
      SortedHeadFirst(t, cmp, elems);
      PrependSorted(x, t, cmp);
    } else {
      var tail := t[1..];
      TailSorted(t, cmp);
      InsertSorted(x, tail, cmp, elems);
      SortedHeadFirst(t, cmp, elems);
      var rest := Insert(x, tail, cmp);
      InsertElements(x, tail, cmp);
      assert cmp(t[0], x) <= 0;
      assert forall y :: y in tail ==> y in t;
      PrependSorted(t[0], rest, cmp);
    }
  }

  /** With a consistent comparator the sort really sorts. */
  lemma {:induction false} SortSorted<T>(s: seq<T>, cmp: (T, T) -> int, elems: set<T>)
    requires Consistent(elems, cmp)
    requires forall y :: y in s ==> y in elems
    ensures Sorted(Sort(s, cmp), cmp)
  {
    if s != [] {
      var init := s[..|s| - 1];
      assert forall y :: y in init ==> y in s;
      SortSorted(init, cmp, elems);
      var sorted := Sort(init, cmp);
      forall y | y in sorted ensures y in elems {
        assert y in multiset(sorted);
        assert y in multiset(init);
      }
      InsertSorted(s[|s| - 1], sorted, cmp, elems);
    }
  }

  /** The elements of the sorted sequence are those of the input. */
  lemma SortSameElements<T>(s: seq<T>, cmp: (T, T) -> int)
    ensures forall y :: y in Sort(s, cmp) <==> y in s
    ensures |Sort(s, cmp)| == |s|
  {
    var r := Sort(s, cmp);
    assert |r| == |multiset(r)| == |multiset(s)| == |s|;
    forall y ensures y in r <==> y in s {
      assert y in r <==> y in multiset(r);
      assert y in s <==> y in multiset(s);
    }
  }
}
