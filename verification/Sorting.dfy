/** The stable library sort that the task views rely on (JavaScript's `Array.prototype.sort`,
    Rust's `Vec::sort`), as a function of the comparison it is given. */
module Sorting {

  ghost predicate TotalPreorder<T(!new)>(le: (T, T) -> bool) {
    && (forall x, y :: le(x, y) || le(y, x))
    && (forall x, y, z :: le(x, y) && le(y, z) ==> le(x, z))
  }

  ghost predicate TotalOrder<T(!new)>(le: (T, T) -> bool) {
    TotalPreorder(le) && forall x, y :: le(x, y) && le(y, x) ==> x == y
  }

  ghost predicate SortedBy<T>(le: (T, T) -> bool, s: seq<T>) {
    forall i, j | 0 <= i < j < |s| :: le(s[i], s[j])
  }

  ghost predicate Distinct<T(!new)>(s: seq<T>) {
    forall i, j | 0 <= i < j < |s| :: s[i] != s[j]
  }

  /** Puts `x` before the first element that does not precede it. */
  function Insert<T>(le: (T, T) -> bool, x: T, s: seq<T>): (r: seq<T>)
    ensures multiset(r) == multiset{x} + multiset(s)
    ensures |r| == |s| + 1
  {
    if s == [] then [x]
    else if le(x, s[0]) then [x] + s
    else
      assert s == [s[0]] + s[1..];
      [s[0]] + Insert(le, x, s[1..])
  }

  function StableSort<T>(le: (T, T) -> bool, s: seq<T>): (r: seq<T>)
    ensures multiset(r) == multiset(s)
    ensures |r| == |s|
  {
    if s == [] then []
    else
      assert s == [s[0]] + s[1..];
      Insert(le, s[0], StableSort(le, s[1..]))
  }

  function Filter<T>(p: T -> bool, s: seq<T>): (r: seq<T>)
    ensures |r| <= |s|
  {
    if s == [] then []
    else if p(s[0]) then [s[0]] + Filter(p, s[1..])
    else Filter(p, s[1..])
  }

  lemma {:induction false} FilterMembers<T(!new)>(p: T -> bool, s: seq<T>)
    ensures forall x :: x in Filter(p, s) <==> x in s && p(x)
  {
    if s != [] {
      FilterMembers(p, s[1..]);
      assert s == [s[0]] + s[1..];
    }
  }

  lemma {:induction false} FilterDistinct<T(!new)>(p: T -> bool, s: seq<T>)
    requires Distinct(s)
    ensures Distinct(Filter(p, s))
  {
    if s != [] {
      FilterDistinct(p, s[1..]);
      FilterMembers(p, s[1..]);
    }
  }

  lemma {:induction false} InsertSorted<T(!new)>(le: (T, T) -> bool, x: T, s: seq<T>)
    requires TotalPreorder(le) && SortedBy(le, s)
    ensures SortedBy(le, Insert(le, x, s))
  {
    if s != [] && !le(x, s[0]) {
      InsertSorted(le, x, s[1..]);
      var r := Insert(le, x, s[1..]);
      forall j | 0 <= j < |r| ensures le(s[0], r[j]) {
        assert r[j] in multiset(r);
        assert r[j] == x || r[j] in s[1..];
      }
    } else if s != [] {
      forall j | 0 <= j < |s| ensures le(x, s[j]) {
        assert j == 0 || le(s[0], s[j]);
      }
    }
  }

  lemma {:induction false} StableSortSorted<T(!new)>(le: (T, T) -> bool, s: seq<T>)
    requires TotalPreorder(le)
    ensures SortedBy(le, StableSort(le, s))
  {
    if s != [] {
      StableSortSorted(le, s[1..]);
      InsertSorted(le, s[0], StableSort(le, s[1..]));
    }
  }

  /** Membership survives sorting. */
  lemma {:induction false} SortKeepsMembers<T(!new)>(le: (T, T) -> bool, s: seq<T>)
    ensures forall x :: x in StableSort(le, s) <==> x in s
  {
    forall x ensures x in StableSort(le, s) <==> x in s {
      assert x in StableSort(le, s) <==> x in multiset(StableSort(le, s));
      assert x in s <==> x in multiset(s);
    }
  }

  lemma {:induction false} FilterAppend<T(!new)>(p: T -> bool, a: seq<T>, b: seq<T>)
    ensures Filter(p, a + b) == Filter(p, a) + Filter(p, b)
  {
    if a == [] {
      assert a + b == b;
    } else {
      assert (a + b)[0] == a[0] && (a + b)[1..] == a[1..] + b;
      FilterAppend(p, a[1..], b);
    }
  }

  /** The head of one sorted sequence is below every element of any rearrangement of it. */
  lemma HeadBelow<T(!new)>(le: (T, T) -> bool, a: seq<T>, b: seq<T>, k: nat)
    requires SortedBy(le, a) && a != [] && multiset(a) == multiset(b) && k < |b| && le(a[0], a[0])
    ensures le(a[0], b[k])
  {
    assert b[k] in multiset(a);
    var i :| 0 <= i < |a| && a[i] == b[k];
  }

  /** Sorted sequences with the same elements are equal when the comparison is antisymmetric. */
  lemma {:induction false} SortedIsUnique<T(!new)>(le: (T, T) -> bool, a: seq<T>, b: seq<T>)
    requires forall x, y | x in a && y in a && le(x, y) && le(y, x) :: x == y
    requires forall x | x in a :: le(x, x)
    requires SortedBy(le, a) && SortedBy(le, b) && multiset(a) == multiset(b)
    ensures a == b
  {
    SameSize(a, b);
    if a != [] {
      HeadsAgree(le, a, b);
      SameTails(a, b);
      assert forall x | x in a[1..] :: x in a;
      SortedIsUnique(le, a[1..], b[1..]);
      HeadAndTail(a, b);
    }
  }

  lemma SameSize<T>(a: seq<T>, b: seq<T>)
    requires multiset(a) == multiset(b)
    ensures |a| == |b|
  {
    assert |multiset(a)| == |a| && |multiset(b)| == |b|;
  }

  lemma HeadAndTail<T>(a: seq<T>, b: seq<T>)
    requires a != [] && b != [] && a[0] == b[0] && a[1..] == b[1..]
    ensures a == b
  {
    assert a == [a[0]] + a[1..] && b == [b[0]] + b[1..];
  }

  lemma SameTails<T>(a: seq<T>, b: seq<T>)
    requires a != [] && b != [] && a[0] == b[0] && multiset(a) == multiset(b)
    ensures multiset(a[1..]) == multiset(b[1..])
  {
    TailMultiset(a);
    TailMultiset(b);
  }

  lemma HeadsAgree<T(!new)>(le: (T, T) -> bool, a: seq<T>, b: seq<T>)
    requires forall x, y | x in a && y in a && le(x, y) && le(y, x) :: x == y
    requires forall x | x in a :: le(x, x)
    requires SortedBy(le, a) && SortedBy(le, b) && multiset(a) == multiset(b) && a != [] && b != []
    ensures a[0] == b[0]
  {
    assert b[0] in multiset(a);
    assert b[0] in a;
    HeadBelow(le, a, b, 0);
    HeadBelow(le, b, a, 0);
  }

  lemma TailMultiset<T>(s: seq<T>)
    requires s != []
    ensures multiset(s[1..]) == multiset(s) - multiset{s[0]}
  {
    assert s == [s[0]] + s[1..];
  }

  /** An element below the head of a sorted sequence goes in front of whatever part is kept. */
  lemma {:induction false} InsertBelow<T(!new)>(le: (T, T) -> bool, p: T -> bool, x: T, s: seq<T>)
    requires TotalPreorder(le) && SortedBy(le, s) && s != [] && le(x, s[0])
    ensures Insert(le, x, Filter(p, s)) == [x] + Filter(p, s)
  {
    var f := Filter(p, s);
    if f != [] {
      FilterMembers(p, s);
      assert f[0] in f;
      var i :| 0 <= i < |s| && s[i] == f[0];
      assert le(s[0], s[i]);
    }
  }

  /** Insertion into a sorted sequence commutes with keeping only some of the elements. */
  lemma {:induction false} FilterInsert<T(!new)>(le: (T, T) -> bool, p: T -> bool, x: T, s: seq<T>)
    requires TotalPreorder(le) && SortedBy(le, s)
    ensures Filter(p, Insert(le, x, s)) == if p(x) then Insert(le, x, Filter(p, s)) else Filter(p, s)
  {
    if s == [] {
    } else if le(x, s[0]) {
      FilterAppend(p, [x], s);
      InsertBelow(le, p, x, s);
    } else {
      FilterInsert(le, p, x, s[1..]);
      FilterAppend(p, [s[0]], Insert(le, x, s[1..]));
      if p(s[0]) {
        assert Filter(p, s)[1..] == Filter(p, s[1..]);
      }
    }
  }

  /** Sorting and then keeping a column is the same as sorting that column. */
  lemma {:induction false} FilterSort<T(!new)>(le: (T, T) -> bool, p: T -> bool, s: seq<T>)
    requires TotalPreorder(le)
    ensures Filter(p, StableSort(le, s)) == StableSort(le, Filter(p, s))
  {
    if s != [] {
      FilterSort(le, p, s[1..]);
      StableSortSorted(le, s[1..]);
      FilterInsert(le, p, s[0], StableSort(le, s[1..]));
      if p(s[0]) {
        assert Filter(p, s)[1..] == Filter(p, s[1..]);
      }
    }
  }
}
