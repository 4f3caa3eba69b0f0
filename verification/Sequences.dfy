/** List comprehensions and `sorted` over sequences, with what they do to the bag of elements. */
module Sequences {

  function Map<T, U>(f: T -> U, xs: seq<T>): (ys: seq<U>)
    ensures |ys| == |xs| && forall i :: 0 <= i < |xs| ==> ys[i] == f(xs[i])
  {
    seq(|xs|, i requires 0 <= i < |xs| => f(xs[i]))
  }

  function Filter<T(!new)>(p: T -> bool, xs: seq<T>): (ys: seq<T>)
    ensures forall y :: y in ys <==> y in xs && p(y)
  {
    if xs == [] then []
    else (if p(xs[0]) then [xs[0]] else []) + Filter(p, xs[1..])
  }

  /** One step of the stable insertion sort. */
  function Insert<T>(le: (T, T) -> bool, x: T, xs: seq<T>): seq<T> {
    if xs == [] || le(x, xs[0]) then [x] + xs else [xs[0]] + Insert(le, x, xs[1..])
  }

  function SortBy<T>(le: (T, T) -> bool, xs: seq<T>): seq<T> {
    if xs == [] then [] else Insert(le, xs[0], SortBy(le, xs[1..]))
  }

  lemma {:induction false} InsertBag<T>(le: (T, T) -> bool, x: T, xs: seq<T>)
    ensures multiset(Insert(le, x, xs)) == multiset{x} + multiset(xs)
  {
    if xs != [] && !le(x, xs[0]) {
      InsertBag(le, x, xs[1..]);
      assert xs == [xs[0]] + xs[1..];
    }
  }

  lemma {:induction false} SortBag<T>(le: (T, T) -> bool, xs: seq<T>)
    ensures multiset(SortBy(le, xs)) == multiset(xs)
  {
    if xs != [] {
      SortBag(le, xs[1..]);
      InsertBag(le, xs[0], SortBy(le, xs[1..]));
      assert xs == [xs[0]] + xs[1..];
    }
  }

  lemma SortMembers<T(!new)>(le: (T, T) -> bool, xs: seq<T>)
    ensures |SortBy(le, xs)| == |xs| && forall x :: x in SortBy(le, xs) <==> x in xs
  {
    SortBag(le, xs);
    assert |multiset(SortBy(le, xs))| == |multiset(xs)|;
    forall x
      ensures x in SortBy(le, xs) <==> x in xs
    {
      assert x in SortBy(le, xs) <==> x in multiset(SortBy(le, xs));
    }
  }

  ghost predicate IsOrder<T(!new)>(le: (T, T) -> bool) {
    && (forall x, y :: le(x, y) || le(y, x))
    && forall x, y, z :: le(x, y) && le(y, z) ==> le(x, z)
  }

  predicate SortedBy<T>(le: (T, T) -> bool, xs: seq<T>) {
    forall i, j :: 0 <= i < j < |xs| ==> le(xs[i], xs[j])
  }

  lemma {:induction false} InsertSorted<T(!new)>(le: (T, T) -> bool, x: T, xs: seq<T>)
    requires IsOrder(le) && SortedBy(le, xs)
    ensures SortedBy(le, Insert(le, x, xs))
  {
    if xs != [] && !le(x, xs[0]) {
      InsertSorted(le, x, xs[1..]);
      InsertBag(le, x, xs[1..]);
      var rest := Insert(le, x, xs[1..]);
      forall j | 0 <= j < |rest|
        ensures le(xs[0], rest[j])
      {
        assert rest[j] in multiset(rest);
        if rest[j] != x {
          assert rest[j] in xs[1..];
        }
      }
    }
  }

  /** Sorting sorts. */
  lemma {:induction false} SortSorted<T(!new)>(le: (T, T) -> bool, xs: seq<T>)
    requires IsOrder(le)
    ensures SortedBy(le, SortBy(le, xs))
  {
    if xs != [] {
      SortSorted(le, xs[1..]);
      InsertSorted(le, xs[0], SortBy(le, xs[1..]));
    }
  }

  lemma MapConcat<T, U>(f: T -> U, xs: seq<T>, ys: seq<T>)
    ensures Map(f, xs + ys) == Map(f, xs) + Map(f, ys)
  {
    hide Map;
    assert forall i :: 0 <= i < |xs + ys| ==> Map(f, xs + ys)[i] == (Map(f, xs) + Map(f, ys))[i];
  }

  lemma MapHead<T, U>(f: T -> U, xs: seq<T>)
    requires xs != []
    ensures Map(f, xs) == [f(xs[0])] + Map(f, xs[1..])
  {
  }

  lemma FilterHead<T(!new)>(p: T -> bool, xs: seq<T>)
    ensures xs == [] ==> Filter(p, xs) == []
    ensures xs != [] ==> Filter(p, xs) == (if p(xs[0]) then [xs[0]] else []) + Filter(p, xs[1..])
  {
  }

  /** Sorting does not change the bag of images. */
  lemma {:induction false} MapSortBag<T, U>(f: T -> U, le: (T, T) -> bool, xs: seq<T>)
    ensures multiset(Map(f, SortBy(le, xs))) == multiset(Map(f, xs))
  {
    SortBag(le, xs);
    MapBag(f, SortBy(le, xs), xs);
  }

  /** The bag of images depends only on the bag of elements. */
  lemma {:induction false} MapBag<T, U>(f: T -> U, xs: seq<T>, ys: seq<T>)
    requires multiset(xs) == multiset(ys)
    ensures multiset(Map(f, xs)) == multiset(Map(f, ys))
  {
    hide Map;
    if xs == [] {
      assert |multiset(ys)| == 0;
    } else {
      var x := xs[0];
      assert x in multiset(ys);
      var i :| 0 <= i < |ys| && ys[i] == x;
      var rest := ys[..i] + ys[i + 1..];
      assert xs == [x] + xs[1..];
      assert ys == ys[..i] + [x] + ys[i + 1..];
      assert multiset(xs[1..]) == multiset(xs) - multiset{x};
      assert multiset(ys) == multiset(ys[..i]) + multiset{x} + multiset(ys[i + 1..]);
      MapBag(f, xs[1..], rest);
      MapConcat(f, [x], xs[1..]);
      MapConcat(f, ys[..i], ys[i + 1..]);
      MapConcat(f, ys[..i] + [x], ys[i + 1..]);
      MapConcat(f, ys[..i], [x]);
    }
  }

  /** Splitting a list by a condition splits its bag. */
  lemma {:induction false} SplitBag<T(!new)>(p: T -> bool, q: T -> bool, xs: seq<T>)
    requires forall i :: 0 <= i < |xs| ==> (q(xs[i]) <==> !p(xs[i]))
    ensures multiset(Filter(p, xs)) + multiset(Filter(q, xs)) == multiset(xs)
  {
    hide Filter;
    FilterHead(p, xs);
    FilterHead(q, xs);
    if xs != [] {
      SplitBag(p, q, xs[1..]);
      assert xs == [xs[0]] + xs[1..];
    }
  }

  lemma MapSplitBag<T(!new), U>(f: T -> U, p: T -> bool, q: T -> bool, xs: seq<T>)
    requires forall i :: 0 <= i < |xs| ==> (q(xs[i]) <==> !p(xs[i]))
    ensures multiset(Map(f, Filter(p, xs))) + multiset(Map(f, Filter(q, xs))) == multiset(Map(f, xs))
  {
    hide Map, Filter;
    SplitBag(p, q, xs);
    MapBag(f, Filter(p, xs) + Filter(q, xs), xs);
    MapConcat(f, Filter(p, xs), Filter(q, xs));
  }

  lemma MapMember<T, U>(f: T -> U, xs: seq<T>, x: T)
    requires x in xs
    ensures f(x) in multiset(Map(f, xs))
  {
    var i :| 0 <= i < |xs| && xs[i] == x;
    assert Map(f, xs)[i] == f(x);
  }

  lemma MapOrigin<T, U>(f: T -> U, xs: seq<T>, u: U) returns (x: T)
    requires u in multiset(Map(f, xs))
    ensures x in xs && f(x) == u
  {
    assert u in Map(f, xs);
    var i :| 0 <= i < |xs| && Map(f, xs)[i] == u;
    x := xs[i];
  }

  /** No two positions have the same key. */
  predicate DistinctBy<T, U(==)>(key: T -> U, xs: seq<T>) {
    forall i, j :: 0 <= i < j < |xs| ==> key(xs[i]) != key(xs[j])
  }

  lemma CountTwice<T>(xs: seq<T>, i: nat, j: nat)
    requires i < j < |xs| && xs[i] == xs[j]
    ensures multiset(xs)[xs[i]] >= 2
  {
    assert xs == xs[..i] + [xs[i]] + xs[i + 1..j] + [xs[j]] + xs[j + 1..];
  }

  lemma {:induction false} DistinctAsBag<T, U(!new)>(key: T -> U, xs: seq<T>)
    ensures DistinctBy(key, xs) <==> forall u :: u in multiset(Map(key, xs)) ==> multiset(Map(key, xs))[u] == 1
  {
    if DistinctBy(key, xs) {
      CountOnce(key, xs);
    } else {
      var i, j :| 0 <= i < j < |xs| && key(xs[i]) == key(xs[j]);
      CountTwice(Map(key, xs), i, j);
    }
  }

  lemma {:induction false} CountOnce<T, U(!new)>(key: T -> U, xs: seq<T>)
    requires DistinctBy(key, xs)
    ensures forall u :: u in multiset(Map(key, xs)) ==> multiset(Map(key, xs))[u] == 1
  {
    if xs != [] {
      CountOnce(key, xs[1..]);
      MapHead(key, xs);
      assert key(xs[0]) !in Map(key, xs[1..]);
    }
  }

  lemma DistinctSort<T, U(!new)>(key: T -> U, le: (T, T) -> bool, xs: seq<T>)
    requires DistinctBy(key, xs)
    ensures DistinctBy(key, SortBy(le, xs))
  {
    MapSortBag(key, le, xs);
    DistinctAsBag(key, xs);
    DistinctAsBag(key, SortBy(le, xs));
  }

  lemma {:induction false} DistinctFilter<T(!new), U>(key: T -> U, p: T -> bool, xs: seq<T>)
    requires DistinctBy(key, xs)
    ensures DistinctBy(key, Filter(p, xs))
  {
    hide Filter;
    FilterHead(p, xs);
    if xs != [] {
      DistinctFilter(key, p, xs[1..]);
      var kept := Filter(p, xs[1..]);
      forall j | 0 <= j < |kept|
        ensures key(kept[j]) != key(xs[0])
      {
        assert kept[j] in xs[1..];
      }
    }
  }

  lemma DistinctMember<T, U>(key: T -> U, xs: seq<T>, x: T, y: T)
    requires DistinctBy(key, xs) && x in xs && y in xs && key(x) == key(y)
    ensures x == y
  {
  }

  /** Filtering by a condition that holds for one member alone gives that member. */
  lemma {:induction false} FilterOne<T(!new), U>(key: T -> U, p: T -> bool, xs: seq<T>, x: T)
    requires DistinctBy(key, xs) && x in xs && forall y :: y in xs ==> (p(y) <==> key(y) == key(x))
    ensures Filter(p, xs) == [x]
  {
    hide Filter;
    FilterHead(p, xs);
    if xs[0] == x {
      FilterNone(p, xs[1..]);
    } else {
      FilterOne(key, p, xs[1..], x);
    }
  }

  lemma {:induction false} FilterNone<T(!new)>(p: T -> bool, xs: seq<T>)
    requires forall y :: y in xs ==> !p(y)
    ensures Filter(p, xs) == []
  {
    if xs != [] {
      FilterNone(p, xs[1..]);
    }
  }

  lemma SizeOfBag<T>(whole: seq<T>, a: seq<T>, b: seq<T>)
    requires multiset(a) + multiset(b) == multiset(whole)
    ensures |a| + |b| == |whole|
  {
    assert |multiset(whole)| == |multiset(a)| + |multiset(b)|;
  }

  lemma {:induction false} FilterAppend<T(!new)>(p: T -> bool, xs: seq<T>, x: T)
    ensures Filter(p, xs + [x]) == Filter(p, xs) + if p(x) then [x] else []
  {
    hide Filter;
    FilterHead(p, xs + [x]);
    FilterHead(p, xs);
    if xs == [] {
      FilterHead(p, []);
      assert ([] + [x])[1..] == [];
    } else {
      FilterAppend(p, xs[1..], x);
      assert (xs + [x])[1..] == xs[1..] + [x];
    }
  }

  // ---------------------------------------------------------------- grouping by a key

  function HasKey<T, K(==)>(key: T -> K, k: K): T -> bool {
    (x: T) => key(x) == k
  }

  function HasOtherKey<T, K(==)>(key: T -> K, k: K): T -> bool {
    (x: T) => key(x) != k
  }

  /** The images of the groups of `xs` for the keys `ks`, all together. */
  ghost function GroupsBag<T(!new), K, V>(f: T -> V, key: T -> K, ks: seq<K>, xs: seq<T>): multiset<V> {
    if ks == [] then multiset{}
    else multiset(Map(f, Filter(HasKey(key, ks[0]), xs))) + GroupsBag(f, key, ks[1..], xs)
  }

  lemma {:induction false} FilterWithin<T(!new)>(p: T -> bool, q: T -> bool, xs: seq<T>)
    requires forall x :: p(x) ==> q(x)
    ensures Filter(p, Filter(q, xs)) == Filter(p, xs)
  {
    hide Filter;
    FilterHead(p, xs);
    FilterHead(q, xs);
    FilterHead(p, Filter(q, xs));
    if xs != [] {
      FilterWithin(p, q, xs[1..]);
      if q(xs[0]) {
        assert Filter(q, xs)[1..] == Filter(q, xs[1..]);
      } else {
        assert Filter(q, xs) == Filter(q, xs[1..]);
        assert Filter(p, xs) == Filter(p, xs[1..]);
      }
    }
  }

  lemma {:induction false} GroupsWithin<T(!new), K(!new), V>(f: T -> V, key: T -> K, ks: seq<K>, k: K, xs: seq<T>)
    requires k !in ks
    ensures GroupsBag(f, key, ks, Filter(HasOtherKey(key, k), xs)) == GroupsBag(f, key, ks, xs)
  {
    hide Filter, Map;
    if ks != [] {
      FilterWithin(HasKey(key, ks[0]), HasOtherKey(key, k), xs);
      GroupsWithin(f, key, ks[1..], k, xs);
    }
  }

  /** Grouping loses and doubles nothing. */
  lemma {:induction false} GroupsPartition<T(!new), K(!new), V>(f: T -> V, key: T -> K, ks: seq<K>, xs: seq<T>)
    requires forall i, j :: 0 <= i < j < |ks| ==> ks[i] != ks[j]
    requires forall x :: x in xs ==> key(x) in ks
    ensures GroupsBag(f, key, ks, xs) == multiset(Map(f, xs))
  {
    hide Filter, Map;
    assert xs != [] ==> xs[0] in xs;
    if ks != [] {
      var rest := Filter(HasOtherKey(key, ks[0]), xs);
      MapSplitBag(f, HasKey(key, ks[0]), HasOtherKey(key, ks[0]), xs);
      GroupsWithin(f, key, ks[1..], ks[0], xs);
      GroupsPartition(f, key, ks[1..], rest);
    }
  }

  lemma {:induction false} SubsetSize<T>(a: set<T>, b: set<T>)
    requires a <= b
    ensures |a| <= |b|
  {
    if a != {} {
      var x :| x in a;
      SubsetSize(a - {x}, b - {x});
    }
  }

  /** `list(dict.fromkeys(xs))`: first occurrences, in order. */
  function Unique<T(==)>(xs: seq<T>): seq<T> {
    if xs == [] then []
    else
      var rest := Unique(xs[..|xs| - 1]);
      if xs[|xs| - 1] in xs[..|xs| - 1] then rest else rest + [xs[|xs| - 1]]
  }

  lemma {:induction false} UniqueMeans<T(!new)>(xs: seq<T>)
    ensures forall x :: x in Unique(xs) <==> x in xs
    ensures forall i, j :: 0 <= i < j < |Unique(xs)| ==> Unique(xs)[i] != Unique(xs)[j]
  {
    if xs != [] {
      UniqueMeans(xs[..|xs| - 1]);
      assert xs == xs[..|xs| - 1] + [xs[|xs| - 1]];
    }
  }

  /** The loop that skips values already seen. */
  method CollectUnique<T(==, !new)>(xs: seq<T>) returns (ys: seq<T>)
    ensures ys == Unique(xs)
  {
    ys := [];
    var i := 0;
    while i < |xs|
      invariant 0 <= i <= |xs| && ys == Unique(xs[..i])
    {
      UniqueMeans(xs[..i]);
      assert xs[..i + 1][..i] == xs[..i];
      if xs[i] !in ys {
        ys := ys + [xs[i]];
      }
      i := i + 1;
    }
    assert xs[..i] == xs;
  }
}
