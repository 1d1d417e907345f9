/** Stable sorting by an integer triple, compared component by component. */
module Sorting {
  datatype Key = Key(a: int, b: int, c: int)

  predicate Le(x: Key, y: Key) {
    x.a < y.a || (x.a == y.a && (x.b < y.b || (x.b == y.b && x.c <= y.c)))
  }

  ghost predicate SortedBy<T(!new)>(key: T -> Key, s: seq<T>) {
    forall i, j :: 0 <= i < j < |s| ==> Le(key(s[i]), key(s[j]))
  }

  /** Inserts `x` before the first element that is not smaller. */
  function Insert<T>(key: T -> Key, x: T, s: seq<T>): (r: seq<T>)
    ensures multiset(r) == multiset(s) + multiset{x}
    ensures |r| == |s| + 1
  {
    if s == [] || Le(key(x), key(s[0])) then
      [x] + s
    else
      assert s == [s[0]] + s[1..];
      [s[0]] + Insert(key, x, s[1..])
  }

  function Sort<T>(key: T -> Key, s: seq<T>): (r: seq<T>)
    ensures multiset(r) == multiset(s)
    ensures |r| == |s|
  {
    if s == [] then [] else assert s == [s[0]] + s[1..]; Insert(key, s[0], Sort(key, s[1..]))
  }

  lemma {:induction false} InsertSorts<T(!new)>(key: T -> Key, x: T, s: seq<T>)
    requires SortedBy(key, s)
    ensures SortedBy(key, Insert(key, x, s))
  {
    if s == [] || Le(key(x), key(s[0])) {
    } else {
      InsertSorts(key, x, s[1..]);
      var t := Insert(key, x, s[1..]);
      forall j | 0 <= j < |t|
        ensures Le(key(s[0]), key(t[j]))
      {
        assert t[j] in multiset(t);
        assert t[j] == x || t[j] in s[1..];
      }
    }
  }

  lemma {:induction false} SortSorts<T(!new)>(key: T -> Key, s: seq<T>)
    ensures SortedBy(key, Sort(key, s))
  {
    if s != [] {
      SortSorts(key, s[1..]);
      InsertSorts(key, s[0], Sort(key, s[1..]));
    }
  }

  /** The elements of `s` with key `k`, in order. */
  function WithKey<T>(key: T -> Key, k: Key, s: seq<T>): seq<T> {
    if s == [] then []
    else (if key(s[0]) == k then [s[0]] else []) + WithKey(key, k, s[1..])
  }

  lemma WithKeyCons<T(!new)>(key: T -> Key, k: Key, x: T, s: seq<T>)
    ensures WithKey(key, k, [x] + s) == (if key(x) == k then [x] else []) + WithKey(key, k, s)
  {
    assert ([x] + s)[1..] == s;
  }

  lemma InsertPasses<T(!new)>(key: T -> Key, x: T, s: seq<T>)
    ensures s == [] || Le(key(x), key(s[0])) ==> Insert(key, x, s) == [x] + s
    ensures s != [] && !Le(key(x), key(s[0])) ==> Insert(key, x, s) == [s[0]] + Insert(key, x, s[1..])
  {
  }

  lemma {:induction false} InsertIsStable<T(!new)>(key: T -> Key, x: T, s: seq<T>, k: Key)
    ensures WithKey(key, k, Insert(key, x, s)) == WithKey(key, k, [x] + s)
  {
    hide WithKey, Insert;
    InsertPasses(key, x, s);
    if s != [] && !Le(key(x), key(s[0])) {
      var y, rest := s[0], s[1..];
      assert s == [y] + rest;
      InsertIsStable(key, x, rest, k);
      WithKeyCons(key, k, y, Insert(key, x, rest));
      WithKeyCons(key, k, x, rest);
      WithKeyCons(key, k, x, s);
      WithKeyCons(key, k, y, rest);
    }
  }

  /** Elements with equal keys keep their order. */
  lemma {:induction false} SortIsStable<T(!new)>(key: T -> Key, s: seq<T>, k: Key)
    ensures WithKey(key, k, Sort(key, s)) == WithKey(key, k, s)
  {
    if s != [] {
      SortIsStable(key, s[1..], k);
      InsertIsStable(key, s[0], Sort(key, s[1..]), k);
      var t := Sort(key, s[1..]);
      assert ([s[0]] + t)[1..] == t;
    }
  }

  lemma SameMembers<T>(s: seq<T>, t: seq<T>)
    requires multiset(s) == multiset(t)
    ensures forall x :: x in s <==> x in t
  {
    forall x
      ensures x in s <==> x in t
    {
      assert x in s <==> x in multiset(s);
      assert x in t <==> x in multiset(t);
    }
  }
}
