/** Filtering, counting and stable sorting of sequences: what SQL's WHERE, COUNT and ORDER BY, and Rust's
    `sort_by_key`, mean on rows kept in insertion order. */
module Collections {

  lemma Assoc<T>(a: seq<T>, b: seq<T>, c: seq<T>)
    ensures a + b + c == a + (b + c)
  {
  }

  lemma HeadTail<T>(xs: seq<T>, ys: seq<T>)
    requires xs != []
    ensures xs + ys == [xs[0]] + (xs[1..] + ys)
    ensures xs == [xs[0]] + xs[1..]
  {
  }

  predicate EndsWith<T(==)>(s: seq<T>, suffix: seq<T>) {
    |suffix| <= |s| && s[|s| - |suffix|..] == suffix
  }

  function Filter<T>(xs: seq<T>, p: T -> bool): seq<T> {
    if xs == [] then [] else (if p(xs[0]) then [xs[0]] else []) + Filter(xs[1..], p)
  }

  lemma {:induction false} FilterMembers<T>(xs: seq<T>, p: T -> bool, x: T)
    ensures x in Filter(xs, p) <==> x in xs && p(x)
  {
    if xs != [] {
      FilterMembers(xs[1..], p, x);
      assert xs == [xs[0]] + xs[1..];
    }
  }

  lemma FilterStep<T>(x: T, xs: seq<T>, p: T -> bool)
    ensures Filter([x] + xs, p) == if p(x) then [x] + Filter(xs, p) else Filter(xs, p)
  {
    assert ([x] + xs)[1..] == xs;
  }

  function CountIf<T>(xs: seq<T>, p: T -> bool): nat {
    if xs == [] then 0 else (if p(xs[0]) then 1 else 0) + CountIf(xs[1..], p)
  }

  lemma {:induction false} CountConcat<T>(xs: seq<T>, ys: seq<T>, p: T -> bool)
    ensures CountIf(xs + ys, p) == CountIf(xs, p) + CountIf(ys, p)
  {
    if xs == [] {
      assert xs + ys == ys;
    } else {
      assert (xs + ys)[1..] == xs[1..] + ys;
      CountConcat(xs[1..], ys, p);
    }
  }

  lemma MultisetAround<T>(ys: seq<T>, k: nat)
    requires k < |ys|
    ensures multiset(ys) == multiset(ys[..k] + ys[k + 1..]) + multiset{ys[k]}
  {
    assert ys == ys[..k] + [ys[k]] + ys[k + 1..];
  }

  lemma MultisetHead<T>(xs: seq<T>)
    requires xs != []
    ensures multiset(xs) == multiset(xs[1..]) + multiset{xs[0]}
  {
    assert xs == [xs[0]] + xs[1..];
  }

  lemma Cancel<T>(a: multiset<T>, b: multiset<T>, c: multiset<T>)
    requires a + c == b + c
    ensures a == b
  {
    assert a == (a + c) - c;
    assert b == (b + c) - c;
  }

  lemma CountStep<T>(x: T, xs: seq<T>, p: T -> bool)
    ensures CountIf([x] + xs, p) == (if p(x) then 1 else 0) + CountIf(xs, p)
  {
    assert ([x] + xs)[1..] == xs;
  }

  lemma Around<T>(ys: seq<T>, k: nat)
    requires k < |ys|
    ensures ys == ys[..k] + ([ys[k]] + ys[k + 1..])
  {
  }

  lemma CountAround<T>(ys: seq<T>, k: nat, p: T -> bool)
    requires k < |ys|
    ensures CountIf(ys, p) == CountIf(ys[..k] + ys[k + 1..], p) + if p(ys[k]) then 1 else 0
  {
    Around(ys, k);
    CountStep(ys[k], ys[k + 1..], p);
    CountConcat(ys[..k], [ys[k]] + ys[k + 1..], p);
    CountConcat(ys[..k], ys[k + 1..], p);
  }

  lemma {:induction false} CountPermuted<T>(xs: seq<T>, ys: seq<T>, p: T -> bool)
    requires multiset(xs) == multiset(ys)
    ensures CountIf(xs, p) == CountIf(ys, p)
  {
    if xs == [] {
      assert |multiset(ys)| == 0;
    } else {
      MultisetHead(xs);
      assert xs[0] in multiset(ys);
      var k :| 0 <= k < |ys| && ys[k] == xs[0];
      var rest := ys[..k] + ys[k + 1..];
      MultisetAround(ys, k);
      Cancel(multiset(xs[1..]), multiset(rest), multiset{xs[0]});
      CountPermuted(xs[1..], rest, p);
      CountAround(ys, k, p);
    }
  }

  lemma {:induction false} CountNone<T>(xs: seq<T>, p: T -> bool)
    requires forall i | 0 <= i < |xs| :: !p(xs[i])
    ensures CountIf(xs, p) == 0
  {
    if xs != [] {
      CountNone(xs[1..], p);
    }
  }

  lemma CountUnique<T>(xs: seq<T>, k: nat, p: T -> bool)
    requires k < |xs| && p(xs[k]) && forall i | 0 <= i < |xs| && i != k :: !p(xs[i])
    ensures CountIf(xs, p) == 1
  {
    CountAround(xs, k, p);
    CountNone(xs[..k] + xs[k + 1..], p);
  }

  predicate SortedBy<T>(xs: seq<T>, key: T -> int) {
    forall i, j | 0 <= i < j < |xs| :: key(xs[i]) <= key(xs[j])
  }

  /** Insert before the first element with an equal or larger key. */
  function Inserted<T>(x: T, ys: seq<T>, key: T -> int): (r: seq<T>)
    ensures |r| == |ys| + 1
  {
    if ys == [] then [x]
    else if key(x) <= key(ys[0]) then [x] + ys
    else [ys[0]] + Inserted(x, ys[1..], key)
  }

  /** Stable ascending sort. */
  function Sort<T>(xs: seq<T>, key: T -> int): (r: seq<T>)
    ensures |r| == |xs|
  {
    if xs == [] then [] else Inserted(xs[0], Sort(xs[1..], key), key)
  }

  lemma {:induction false} InsertedIsPermutation<T>(x: T, ys: seq<T>, key: T -> int)
    ensures multiset(Inserted(x, ys, key)) == multiset(ys) + multiset{x}
  {
    if ys != [] && key(x) > key(ys[0]) {
      InsertedIsPermutation(x, ys[1..], key);
      assert ys == [ys[0]] + ys[1..];
    }
  }

  lemma {:induction false} InsertedIsSorted<T>(x: T, ys: seq<T>, key: T -> int)
    requires SortedBy(ys, key)
    ensures SortedBy(Inserted(x, ys, key), key)
  {
    if ys != [] && key(x) > key(ys[0]) {
      InsertedIsSorted(x, ys[1..], key);
      InsertedIsPermutation(x, ys[1..], key);
      var rest := Inserted(x, ys[1..], key);
      forall j | 0 <= j < |rest|
        ensures key(ys[0]) <= key(rest[j])
      {
        assert rest[j] in multiset(ys[1..]) + multiset{x};
      }
    }
  }

  lemma {:induction false} SortPermutes<T>(xs: seq<T>, key: T -> int)
    ensures multiset(Sort(xs, key)) == multiset(xs)
  {
    if xs != [] {
      var tail, sorted := xs[1..], Sort(xs[1..], key);
      SortPermutes(tail, key);
      InsertedIsPermutation(xs[0], sorted, key);
      MultisetHead(xs);
    }
  }

  lemma {:induction false} SortOrders<T>(xs: seq<T>, key: T -> int)
    ensures SortedBy(Sort(xs, key), key)
  {
    if xs != [] {
      SortOrders(xs[1..], key);
      InsertedIsSorted(xs[0], Sort(xs[1..], key), key);
    }
  }

  lemma SortMembers<T>(xs: seq<T>, key: T -> int, x: T)
    ensures x in Sort(xs, key) <==> x in xs
  {
    SortPermutes(xs, key);
    assert x in Sort(xs, key) <==> x in multiset(Sort(xs, key));
  }

  lemma InsertedAtFront<T>(x: T, ys: seq<T>, key: T -> int)
    requires forall i | 0 <= i < |ys| :: key(x) <= key(ys[i])
    ensures Inserted(x, ys, key) == [x] + ys
  {
  }

  /** Sorting leaves elements with equal keys as they stand. */
  lemma {:induction false} SortOfTies<T>(xs: seq<T>, key: T -> int, k: int)
    requires forall i | 0 <= i < |xs| :: key(xs[i]) == k
    ensures Sort(xs, key) == xs
  {
    if xs != [] {
      SortOfTies(xs[1..], key, k);
      InsertedAtFront(xs[0], xs[1..], key);
      assert xs == [xs[0]] + xs[1..];
    }
  }

  lemma FilterInsertedFront<T>(x: T, ys: seq<T>, key: T -> int, p: T -> bool)
    requires forall i | 0 <= i < |ys| :: key(x) <= key(ys[i])
    ensures Filter([x] + ys, p) == if p(x) then Inserted(x, Filter(ys, p), key) else Filter(ys, p)
  {
    FilterStep(x, ys, p);
    var kept := Filter(ys, p);
    forall i | 0 <= i < |kept|
      ensures key(x) <= key(kept[i])
    {
      FilterMembers(ys, p, kept[i]);
      assert kept[i] in ys;
    }
    InsertedAtFront(x, kept, key);
  }

  lemma InsertedPast<T>(x: T, y: T, ys: seq<T>, key: T -> int)
    requires key(x) > key(y)
    ensures Inserted(x, [y] + ys, key) == [y] + Inserted(x, ys, key)
  {
    assert ([y] + ys)[1..] == ys;
  }

  lemma {:induction false} FilterInserted<T>(x: T, ys: seq<T>, key: T -> int, p: T -> bool)
    requires SortedBy(ys, key)
    ensures Filter(Inserted(x, ys, key), p) == if p(x) then Inserted(x, Filter(ys, p), key) else Filter(ys, p)
  {
    if ys == [] || key(x) <= key(ys[0]) {
      InsertedAtFront(x, ys, key);
      FilterInsertedFront(x, ys, key, p);
    } else {
      var y, tail := ys[0], ys[1..];
      assert ys == [y] + tail;
      FilterInserted(x, tail, key, p);
      InsertedPast(x, y, tail, key);
      FilterStep(y, Inserted(x, tail, key), p);
      FilterStep(y, tail, p);
      InsertedPast(x, y, Filter(tail, p), key);
    }
  }

  /** A WHERE clause commutes with a stable ORDER BY. */
  lemma {:induction false} FilterSort<T>(xs: seq<T>, key: T -> int, p: T -> bool)
    ensures Filter(Sort(xs, key), p) == Sort(Filter(xs, p), key)
  {
    if xs != [] {
      FilterSort(xs[1..], key, p);
      SortOrders(xs[1..], key);
      FilterInserted(xs[0], Sort(xs[1..], key), key, p);
      FilterStep(xs[0], xs[1..], p);
      assert xs == [xs[0]] + xs[1..];
      var kept := Filter(xs[1..], p);
      assert ([xs[0]] + kept)[1..] == kept;
    }
  }

  lemma {:induction false} FilterConcat<T>(xs: seq<T>, ys: seq<T>, p: T -> bool)
    ensures Filter(xs + ys, p) == Filter(xs, p) + Filter(ys, p)
  {
    if xs == [] {
      assert xs + ys == ys;
    } else {
      FilterConcat(xs[1..], ys, p);
      HeadTail(xs, ys);
      FilterStep(xs[0], xs[1..] + ys, p);
      FilterStep(xs[0], xs[1..], p);
      Assoc([xs[0]], Filter(xs[1..], p), Filter(ys, p));
    }
  }

  lemma {:induction false} FilterAll<T>(xs: seq<T>, p: T -> bool)
    requires forall i | 0 <= i < |xs| :: p(xs[i])
    ensures Filter(xs, p) == xs
  {
    if xs != [] {
      FilterAll(xs[1..], p);
      assert xs == [xs[0]] + xs[1..];
    }
  }

  lemma {:induction false} FilterNone<T>(xs: seq<T>, p: T -> bool)
    requires forall i | 0 <= i < |xs| :: !p(xs[i])
    ensures Filter(xs, p) == []
  {
    if xs != [] {
      FilterNone(xs[1..], p);
    }
  }

  lemma {:induction false} FilterTwice<T>(xs: seq<T>, p: T -> bool, q: T -> bool, both: T -> bool)
    requires forall i | 0 <= i < |xs| :: both(xs[i]) <==> p(xs[i]) && q(xs[i])
    ensures Filter(Filter(xs, p), q) == Filter(xs, both)
  {
    if xs != [] {
      FilterTwice(xs[1..], p, q, both);
      FilterStep(xs[0], Filter(xs[1..], p), q);
      FilterStep(xs[0], xs[1..], p);
      FilterStep(xs[0], xs[1..], both);
      assert xs == [xs[0]] + xs[1..];
      assert both(xs[0]) <==> p(xs[0]) && q(xs[0]);
    }
  }
}
