/** Rows of items that share a level, in the order of the levels: the way both the card graph and the
    window map lay out a levelled graph. */
module Layers {
  import opened Common
  import opened Sorting

  function AtLevel<T>(level: T -> nat, d: nat, items: seq<T>): seq<T> {
    Filter(x => level(x) == d, items)
  }

  lemma AtLevelMembers<T(!new)>(level: T -> nat, d: nat, items: seq<T>)
    ensures forall x :: x in AtLevel(level, d, items) <==> x in items && level(x) == d
  {
    FilterMembers(x => level(x) == d, items);
  }

  // Rows as the maps `layers` and `rows` end up: one entry for each occupied level, in ascending order.
  ghost predicate IsLayering<T(!new)>(items: seq<T>, level: T -> nat, rows: seq<(nat, seq<T>)>) {
    && (forall i, j | 0 <= i < j < |rows| :: rows[i].0 < rows[j].0)
    && (forall i | 0 <= i < |rows| :: rows[i].1 != [] && rows[i].1 == AtLevel(level, rows[i].0, items))
    && (forall x | x in items :: exists i :: 0 <= i < |rows| && rows[i].0 == level(x))
  }

  predicate NatLe(a: nat, b: nat) { a <= b }

  // The buckets of the first n items, and their keys in the order in which they were added.
  ghost predicate Bucketed<T(!new)>(items: seq<T>, level: T -> nat, n: nat, keys: seq<nat>,
      buckets: map<nat, seq<T>>)
    requires n <= |items|
  {
    && (forall d :: d in keys <==> d in buckets)
    && (forall i, j | 0 <= i < j < |keys| :: keys[i] != keys[j])
    && (forall d | d in buckets :: buckets[d] != [] && buckets[d] == AtLevel(level, d, items[..n]))
    && (forall i | 0 <= i < n :: level(items[i]) in buckets)
  }

  /** Buckets the items by level, keeping their order, and sorts the buckets by level. */
  method GroupByLevel<T(!new, ==)>(items: seq<T>, level: T -> nat) returns (rows: seq<(nat, seq<T>)>)
    ensures IsLayering(items, level, rows)
  {
    var buckets: map<nat, seq<T>> := map[];
    var keys: seq<nat> := [];
    for n := 0 to |items|
      invariant Bucketed(items, level, n, keys, buckets)
    {
      var d := level(items[n]);
      if d in buckets {
        JoinsBucket(items, level, n, keys, buckets);
        buckets := buckets[d := buckets[d] + [items[n]]];
      } else {
        OpensBucket(items, level, n, keys, buckets);
        buckets := buckets[d := [items[n]]];
        keys := keys + [d];
      }
    }
    var sorted := StableSort(NatLe, keys);
    SortedKeys(keys, sorted);
    rows := seq(|sorted|, i requires 0 <= i < |sorted| => (sorted[i], buckets[sorted[i]]));
    BucketsLayer(items, level, keys, buckets, sorted, rows);
  }

  lemma BucketsLayer<T(!new)>(items: seq<T>, level: T -> nat, keys: seq<nat>, buckets: map<nat, seq<T>>,
                              sorted: seq<nat>, rows: seq<(nat, seq<T>)>)
    requires Bucketed(items, level, |items|, keys, buckets) && |rows| == |sorted|
    requires forall i, j | 0 <= i < j < |sorted| :: sorted[i] < sorted[j]
    requires forall d :: d in sorted <==> d in buckets
    requires forall i | 0 <= i < |sorted| :: sorted[i] in buckets && rows[i] == (sorted[i], buckets[sorted[i]])
    ensures IsLayering(items, level, rows)
  {
    TakeAll(items);
    RowsCover(items, level, sorted, rows);
  }

  lemma JoinsBucket<T(!new)>(items: seq<T>, level: T -> nat, n: nat, keys: seq<nat>, buckets: map<nat, seq<T>>)
    requires n < |items| && Bucketed(items, level, n, keys, buckets) && level(items[n]) in buckets
    ensures var d := level(items[n]);
      Bucketed(items, level, n + 1, keys, buckets[d := buckets[d] + [items[n]]])
  {
    OneMoreItem(items, level, n);
  }

  lemma OpensBucket<T(!new)>(items: seq<T>, level: T -> nat, n: nat, keys: seq<nat>, buckets: map<nat, seq<T>>)
    requires n < |items| && Bucketed(items, level, n, keys, buckets) && level(items[n]) !in buckets
    ensures var d := level(items[n]); Bucketed(items, level, n + 1, keys + [d], buckets[d := [items[n]]])
  {
    OneMoreItem(items, level, n);
    AbsentLevel(level, level(items[n]), items[..n]);
  }

  lemma OneMoreItem<T(!new)>(items: seq<T>, level: T -> nat, n: nat)
    requires n < |items|
    ensures forall e: nat ::
      AtLevel(level, e, items[..n + 1])
        == AtLevel(level, e, items[..n]) + (if e == level(items[n]) then [items[n]] else [])
  {
    TakeNext(items, n);
    forall e: nat
      ensures AtLevel(level, e, items[..n + 1])
        == AtLevel(level, e, items[..n]) + (if e == level(items[n]) then [items[n]] else [])
    {
      FilterAppend(x => level(x) == e, items[..n], [items[n]]);
    }
  }

  lemma RowsCover<T(!new)>(items: seq<T>, level: T -> nat, keys: seq<nat>, rows: seq<(nat, seq<T>)>)
    requires |rows| == |keys| && forall i | 0 <= i < |rows| :: rows[i].0 == keys[i]
    requires forall x | x in items :: level(x) in keys
    ensures forall x | x in items :: exists i :: 0 <= i < |rows| && rows[i].0 == level(x)
  {
    forall x | x in items ensures exists i :: 0 <= i < |rows| && rows[i].0 == level(x) {
      var i :| 0 <= i < |keys| && keys[i] == level(x);
      assert rows[i].0 == level(x);
    }
  }

  lemma {:induction false} AbsentLevel<T(!new)>(level: T -> nat, d: nat, items: seq<T>)
    requires forall i | 0 <= i < |items| :: level(items[i]) != d
    ensures AtLevel(level, d, items) == []
  {
    if items != [] {
      AbsentLevel(level, d, items[1..]);
    }
  }

  /** Sorting distinct keys puts them in strictly ascending order. */
  lemma {:induction false} SortedKeys(keys: seq<nat>, sorted: seq<nat>)
    requires forall i, j | 0 <= i < j < |keys| :: keys[i] != keys[j]
    requires sorted == StableSort(NatLe, keys)
    ensures forall i, j | 0 <= i < j < |sorted| :: sorted[i] < sorted[j]
    ensures forall d :: d in sorted <==> d in keys
  {
    StableSortSorted(NatLe, keys);
    SortKeepsMembers(NatLe, keys);
    forall i, j | 0 <= i < j < |sorted| ensures sorted[i] < sorted[j] {
      assert NatLe(sorted[i], sorted[j]);
      if sorted[i] == sorted[j] {
        TwiceCounted(sorted, i, j);
        OnceCounted(keys, sorted[i]);
      }
    }
  }

  lemma TwiceCounted(s: seq<nat>, i: nat, j: nat)
    requires i < j < |s| && s[i] == s[j]
    ensures multiset(s)[s[i]] >= 2
  {
    assert s == s[..j] + [s[j]] + s[j + 1..];
    assert s[i] in s[..j];
    assert multiset(s[..j])[s[i]] >= 1;
  }

  lemma {:induction false} OnceCounted(s: seq<nat>, d: nat)
    requires forall i, j | 0 <= i < j < |s| :: s[i] != s[j]
    ensures multiset(s)[d] <= 1
  {
    if s != [] {
      OnceCounted(s[1..], d);
      assert s == [s[0]] + s[1..];
      if s[0] == d {
        assert d !in s[1..];
        assert multiset(s[1..])[d] == 0;
      }
    }
  }

  ghost predicate Occupied<T(!new)>(items: seq<T>, level: T -> nat, d: nat) {
    exists y :: y in items && level(y) == d
  }

  ghost predicate NoGaps<T(!new)>(items: seq<T>, level: T -> nat) {
    forall d: nat, e: nat | d <= e && Occupied(items, level, e) :: Occupied(items, level, d)
  }

  /** Without gaps, the index of a row is its level. */
  lemma {:induction false} RowIndexIsLevel<T(!new)>(items: seq<T>, level: T -> nat, rows: seq<(nat, seq<T>)>, k: nat)
    requires IsLayering(items, level, rows) && k <= |rows|
    requires NoGaps(items, level)
    ensures forall i | 0 <= i < k :: rows[i].0 == i
  {
    if k > 0 {
      RowIndexIsLevel(items, level, rows, k - 1);
      var i := k - 1;
      assert i == 0 || rows[i - 1].0 < rows[i].0;
      FilterMembers(x => level(x) == rows[i].0, items);
      var x := rows[i].1[0];
      assert x in rows[i].1;
      assert Occupied(items, level, rows[i].0) && Occupied(items, level, i);
      var y :| y in items && level(y) == i;
      var j :| 0 <= j < |rows| && rows[j].0 == level(y);
      assert j >= i;
    }
  }
}
