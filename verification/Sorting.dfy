/** Python's sorted with a key: a stable sort, here by insertion, and what counting by key says about it. */
module Sorting {
  import opened Common

  /** In front of everything whose key is not smaller. */
  function Insert<T>(x: T, s: seq<T>, key: T -> real): seq<T> {
    if s == [] || key(x) <= key(s[0]) then [x] + s else [s[0]] + Insert(x, s[1..], key)
  }

  function Sort<T>(s: seq<T>, key: T -> real): seq<T> {
    if s == [] then [] else Insert(s[0], Sort(s[1..], key), key)
  }

  ghost predicate Ordered<T>(s: seq<T>, key: T -> real) {
    forall i, j :: 0 <= i < j < |s| ==> key(s[i]) <= key(s[j])
  }

  /** How many keys are at most `t`. */
  function Count<T>(s: seq<T>, key: T -> real, t: real): (n: nat)
    ensures n <= |s|
  {
    if s == [] then 0 else (if key(s[0]) <= t then 1 else 0) + Count(s[1..], key, t)
  }

  /** The elements of one key, as they come. */
  function WithKey<T>(s: seq<T>, key: T -> real, t: real): seq<T> {
    if s == [] then [] else (if key(s[0]) == t then [s[0]] else []) + WithKey(s[1..], key, t)
  }

  lemma ConsCounts<T>(s: seq<T>)
    requires s != []
    ensures multiset(s) == multiset(s[1..]) + multiset{s[0]}
  {
    assert s == [s[0]] + s[1..];
  }

  lemma OrderedCons<T>(x: T, s: seq<T>, key: T -> real)
    requires Ordered(s, key) && forall y <- s :: key(x) <= key(y)
    ensures Ordered([x] + s, key)
  {
    var r := [x] + s;
    forall i, j | 0 <= i < j < |r|
      ensures key(r[i]) <= key(r[j])
    {
      assert r[j] == s[j - 1] && s[j - 1] in s;
      assert i > 0 ==> r[i] == s[i - 1];
    }
  }

  lemma {:induction false} InsertKeepsOrder<T>(x: T, s: seq<T>, key: T -> real)
    requires Ordered(s, key)
    ensures Ordered(Insert(x, s, key), key)
    ensures forall y <- Insert(x, s, key) :: y == x || y in s
  {
    if s == [] || key(x) <= key(s[0]) {
      OrderedCons(x, s, key);
    } else {
      InsertKeepsOrder(x, s[1..], key);
      OrderedCons(s[0], Insert(x, s[1..], key), key);
    }
  }

  lemma {:induction false} InsertAddsOne<T>(x: T, s: seq<T>, key: T -> real)
    ensures multiset(Insert(x, s, key)) == multiset(s) + multiset{x} && |Insert(x, s, key)| == |s| + 1
  {
    if s != [] && key(x) > key(s[0]) {
      InsertAddsOne(x, s[1..], key);
      ConsCounts(s);
    }
  }

  lemma {:induction false} InsertIsStable<T>(x: T, s: seq<T>, key: T -> real, t: real)
    ensures WithKey(Insert(x, s, key), key, t) == (if key(x) == t then [x] else []) + WithKey(s, key, t)
  {
    if s == [] || key(x) <= key(s[0]) {
      AppendParts([x], s);
    } else {
      InsertIsStable(x, s[1..], key, t);
      AppendParts([s[0]], Insert(x, s[1..], key));
    }
  }

  lemma {:induction false} SortOrders<T>(s: seq<T>, key: T -> real)
    ensures Ordered(Sort(s, key), key) && |Sort(s, key)| == |s| && multiset(Sort(s, key)) == multiset(s)
  {
    if s != [] {
      SortOrders(s[1..], key);
      InsertKeepsOrder(s[0], Sort(s[1..], key), key);
      InsertAddsOne(s[0], Sort(s[1..], key), key);
      ConsCounts(s);
    }
  }

  /** Elements of the same key keep their order. */
  lemma {:induction false} SortIsStable<T>(s: seq<T>, key: T -> real, t: real)
    ensures WithKey(Sort(s, key), key, t) == WithKey(s, key, t)
  {
    if s != [] {
      SortIsStable(s[1..], key, t);
      InsertIsStable(s[0], Sort(s[1..], key), key, t);
    }
  }

  lemma {:induction false} CountAppend<T>(a: seq<T>, b: seq<T>, key: T -> real, t: real)
    ensures Count(a + b, key, t) == Count(a, key, t) + Count(b, key, t)
  {
    if a == [] {
      assert a + b == b;
    } else {
      assert (a + b)[1..] == a[1..] + b;
      CountAppend(a[1..], b, key, t);
    }
  }

  /** Take one occurrence of `x` out of a list. */
  lemma TakeOut<T>(x: T, b: seq<T>) returns (p: seq<T>, q: seq<T>)
    requires x in b
    ensures b == p + [x] + q && multiset(p + q) == multiset(b) - multiset{x}
  {
    var i :| 0 <= i < |b| && b[i] == x;
    p, q := b[..i], b[i + 1..];
    assert b == p + [x] + q;
  }

  lemma {:induction false} CountIgnoresOrder<T>(a: seq<T>, b: seq<T>, key: T -> real, t: real)
    requires multiset(a) == multiset(b)
    ensures |a| == |b| && Count(a, key, t) == Count(b, key, t)
    decreases |a|
  {
    if a == [] {
      assert |multiset(b)| == 0;
    } else {
      assert a[0] in multiset(a);
      var p, q := TakeOut(a[0], b);
      ConsCounts(a);
      CountIgnoresOrder(a[1..], p + q, key, t);
      CountAppend(p, q, key, t);
      CountAppend(p, [a[0]], key, t);
      CountAppend(p + [a[0]], q, key, t);
    }
  }

  /** The k-th key is at most `t` when more than k keys are. */
  lemma {:induction false} KthByCount<T>(s: seq<T>, key: T -> real, k: nat, t: real)
    requires Ordered(s, key) && k < |s|
    ensures key(s[k]) <= t <==> Count(s, key, t) >= k + 1
    decreases |s|
  {
    if k > 0 {
      KthByCount(s[1..], key, k - 1, t);
    } else if key(s[0]) > t && |s| > 1 {
      KthByCount(s[1..], key, 0, t);
    }
  }

  /** The k-th key of the sorted list is at most `t` when more than k keys of the list are. */
  lemma SortedKthByCount<T>(s: seq<T>, key: T -> real, k: nat, t: real)
    requires k < |s|
    ensures |Sort(s, key)| == |s| && (key(Sort(s, key)[k]) <= t <==> Count(s, key, t) >= k + 1)
  {
    SortOrders(s, key);
    CountIgnoresOrder(Sort(s, key), s, key, t);
    KthByCount(Sort(s, key), key, k, t);
  }

  /** The sorted keys are the same whatever order the elements come in. */
  lemma KeysIgnoreOrder<T>(a: seq<T>, b: seq<T>, key: T -> real)
    requires multiset(a) == multiset(b)
    ensures |Sort(a, key)| == |Sort(b, key)| == |a| == |b|
    ensures forall k :: 0 <= k < |a| ==> key(Sort(a, key)[k]) == key(Sort(b, key)[k])
  {
    SortOrders(a, key);
    SortOrders(b, key);
    CountIgnoresOrder(a, b, key, 0.0);
    forall k | 0 <= k < |a|
      ensures key(Sort(a, key)[k]) == key(Sort(b, key)[k])
    {
      SameKth(a, b, key, k, key(Sort(a, key)[k]));
      SameKth(a, b, key, k, key(Sort(b, key)[k]));
    }
  }

  lemma SameKth<T>(a: seq<T>, b: seq<T>, key: T -> real, k: nat, t: real)
    requires multiset(a) == multiset(b) && k < |a| && k < |b|
    ensures |Sort(a, key)| == |a| && |Sort(b, key)| == |b|
    ensures key(Sort(a, key)[k]) <= t <==> key(Sort(b, key)[k]) <= t
  {
    SortedKthByCount(a, key, k, t);
    SortedKthByCount(b, key, k, t);
    CountIgnoresOrder(a, b, key, t);
  }

  lemma PairStays<T>(x: T, y: T, key: T -> real)
    requires key(x) <= key(y)
    ensures Sort([x, y], key) == [x, y]
  {
    assert [x, y][1..] == [y] && [y][1..] == [];
    assert Sort([y], key) == [y];
  }

  // ---------------------------------------------------------------- images of lists

  function Image<T, U>(s: seq<T>, f: T -> U): (r: seq<U>)
    ensures |r| == |s|
  {
    if s == [] then [] else [f(s[0])] + Image(s[1..], f)
  }

  lemma {:induction false} ImageAppend<T, U>(a: seq<T>, b: seq<T>, f: T -> U)
    ensures Image(a + b, f) == Image(a, f) + Image(b, f)
    decreases |a|
  {
    if a == [] {
      assert a + b == b;
    } else {
      assert (a + b)[0] == a[0] && (a + b)[1..] == a[1..] + b;
      ImageAppend(a[1..], b, f);
      AppendAssoc([f(a[0])], Image(a[1..], f), Image(b, f));
    }
  }

  lemma ImageAround<T, U>(p: seq<T>, x: T, q: seq<T>, f: T -> U)
    ensures multiset(Image(p + [x] + q, f)) == multiset(Image(p + q, f)) + multiset{f(x)}
  {
    ImageAppend(p + [x], q, f);
    ImageAppend(p, [x], f);
    ImageAppend(p, q, f);
    assert Image([x], f) == [f(x)];
  }

  /** Lists of the same elements have images of the same elements. */
  lemma {:induction false} ImageIgnoresOrder<T, U>(a: seq<T>, b: seq<T>, f: T -> U)
    requires multiset(a) == multiset(b)
    ensures multiset(Image(a, f)) == multiset(Image(b, f))
    decreases |a|
  {
    if a == [] {
      assert |multiset(b)| == 0;
    } else {
      assert a[0] in multiset(a);
      var p, q := TakeOut(a[0], b);
      ConsCounts(a);
      ImageIgnoresOrder(a[1..], p + q, f);
      ImageAround(p, a[0], q, f);
      ConsCounts(Image(a, f));
    }
  }

  lemma PairSwaps<T>(x: T, y: T)
    ensures multiset([x, y]) == multiset([y, x])
  {
  }
}
