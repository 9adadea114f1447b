/** Python's stable `sorted` with a key that is a tuple of integers, and `sorted(set(...))`. */
module Sorting {
  import opened Ordering

  ghost predicate Ordered<T>(s: seq<T>, key: T -> seq<int>) {
    forall i, j | 0 <= i < j < |s| :: LexLe(key(s[i]), key(s[j]))
  }

  /** Puts `x` behind every item whose key is not greater. */
  function Insert<T>(x: T, s: seq<T>, key: T -> seq<int>): seq<T> {
    if s == [] then [x]
    else if LexLe(key(s[0]), key(x)) then [s[0]] + Insert(x, s[1..], key)
    else [x] + s
  }

  function Sort<T>(s: seq<T>, key: T -> seq<int>): seq<T> {
    if s == [] then [] else Insert(s[|s| - 1], Sort(s[..|s| - 1], key), key)
  }

  function WithKey<T>(s: seq<T>, key: T -> seq<int>, k: seq<int>): seq<T> {
    if s == [] then []
    else Only(s[0], key, k) + WithKey(s[1..], key, k)
  }

  lemma {:induction false} InsertPermutes<T>(x: T, s: seq<T>, key: T -> seq<int>)
    ensures multiset(Insert(x, s, key)) == multiset(s) + multiset{x}
  {
    if s != [] {
      assert s == [s[0]] + s[1..];
      if LexLe(key(s[0]), key(x)) { InsertPermutes(x, s[1..], key); }
    }
  }

  lemma OrderedFront<T>(x: T, s: seq<T>, key: T -> seq<int>)
    requires Ordered(s, key) && forall i | 0 <= i < |s| :: LexLe(key(x), key(s[i]))
    ensures Ordered([x] + s, key)
  {
  }

  lemma InsertHas<T>(x: T, s: seq<T>, key: T -> seq<int>, j: nat)
    requires j < |Insert(x, s, key)|
    ensures Insert(x, s, key)[j] == x || Insert(x, s, key)[j] in s
  {
    InsertPermutes(x, s, key);
    assert Insert(x, s, key)[j] in multiset(Insert(x, s, key));
  }

  lemma {:induction false} InsertOrders<T>(x: T, s: seq<T>, key: T -> seq<int>)
    requires Ordered(s, key)
    ensures Ordered(Insert(x, s, key), key)
  {
    if s != [] {
      LexTotal(key(s[0]), key(x));
      if LexLe(key(s[0]), key(x)) {
        InsertOrders(x, s[1..], key);
        var rest := Insert(x, s[1..], key);
        forall j | 0 <= j < |rest|
          ensures LexLe(key(s[0]), key(rest[j]))
        {
          InsertHas(x, s[1..], key, j);
        }
        OrderedFront(s[0], rest, key);
      } else {
        forall j | 0 <= j < |s|
          ensures LexLe(key(x), key(s[j]))
        {
          if j > 0 { LexTransitive(key(x), key(s[0]), key(s[j])); }
        }
        OrderedFront(x, s, key);
      }
    }
  }

  /** At most one item: `x` when its key is `k`. */
  function Only<T>(x: T, key: T -> seq<int>, k: seq<int>): seq<T> {
    if key(x) == k then [x] else []
  }

  lemma Associates<T>(a: seq<T>, b: seq<T>, c: seq<T>)
    ensures a + (b + c) == (a + b) + c
  {
  }

  lemma WithKeyFront<T>(x: T, s: seq<T>, key: T -> seq<int>, k: seq<int>)
    ensures WithKey([x] + s, key, k) == Only(x, key, k) + WithKey(s, key, k)
  {
    assert ([x] + s)[1..] == s;
  }

  lemma {:induction false} InsertStable<T>(x: T, s: seq<T>, key: T -> seq<int>, k: seq<int>)
    requires Ordered(s, key)
    ensures WithKey(Insert(x, s, key), key, k) == WithKey(s, key, k) + Only(x, key, k)
  {
    if s == [] {
      assert [x][1..] == [];
    } else if LexLe(key(s[0]), key(x)) {
      var rest := Insert(x, s[1..], key);
      InsertStable(x, s[1..], key, k);
      WithKeyFront(s[0], rest, key, k);
      Associates(Only(s[0], key, k), WithKey(s[1..], key, k), Only(x, key, k));
    } else {
      WithKeyFront(x, s, key, k);
      if key(x) == k { NoneWithKey(s, key, k); }
    }
  }

  lemma {:induction false} NoneWithKey<T>(s: seq<T>, key: T -> seq<int>, k: seq<int>)
    requires Ordered(s, key) && s != [] && !LexLe(key(s[0]), k)
    ensures WithKey(s, key, k) == []
  {
    LexTotal(k, key(s[0]));
    if |s| > 1 {
      if LexLe(key(s[1]), k) { LexTransitive(key(s[0]), key(s[1]), k); }
      NoneWithKey(s[1..], key, k);
    }
  }

  lemma {:induction false} WithKeyBack<T>(s: seq<T>, x: T, key: T -> seq<int>, k: seq<int>)
    ensures WithKey(s + [x], key, k) == WithKey(s, key, k) + Only(x, key, k)
  {
    if s == [] {
      assert s + [x] == [x] + [];
      WithKeyFront(x, [], key, k);
    } else {
      assert s + [x] == [s[0]] + (s[1..] + [x]);
      WithKeyBack(s[1..], x, key, k);
      WithKeyFront(s[0], s[1..] + [x], key, k);
      Associates(Only(s[0], key, k), WithKey(s[1..], key, k), Only(x, key, k));
    }
  }

  /** The result is ordered, a rearrangement, and keeps the order of items with equal keys. */
  lemma {:induction false} SortSorts<T>(s: seq<T>, key: T -> seq<int>)
    ensures multiset(Sort(s, key)) == multiset(s)
    ensures Ordered(Sort(s, key), key)
    ensures forall k :: WithKey(Sort(s, key), key, k) == WithKey(s, key, k)
  {
    if s != [] {
      var n := |s| - 1;
      assert s == s[..n] + [s[n]];
      SortSorts(s[..n], key);
      InsertPermutes(s[n], Sort(s[..n], key), key);
      InsertOrders(s[n], Sort(s[..n], key), key);
      forall k
        ensures WithKey(Sort(s, key), key, k) == WithKey(s, key, k)
      {
        InsertStable(s[n], Sort(s[..n], key), key, k);
        WithKeyBack(s[..n], s[n], key, k);
      }
    }
  }

  /** Any other ordered, stable arrangement of the same items is the same list: the algorithm does not matter. */
  lemma {:induction false} StableSortIsUnique<T>(a: seq<T>, b: seq<T>, key: T -> seq<int>)
    requires Ordered(a, key) && Ordered(b, key)
    requires forall k :: WithKey(a, key, k) == WithKey(b, key, k)
    ensures a == b
  {
    if a == [] || b == [] {
      var k := if a != [] then key(a[0]) else if b != [] then key(b[0]) else [];
      assert WithKey(a, key, k) == WithKey(b, key, k);
    } else {
      var ka, kb := key(a[0]), key(b[0]);
      assert WithKey(a, key, ka) != [] && WithKey(b, key, kb) != [];
      if !LexLe(ka, kb) { NoneWithKey(a, key, kb); }
      if !LexLe(kb, ka) { NoneWithKey(b, key, ka); }
      LexAntisymmetric(ka, kb);
      assert a[0] == WithKey(a, key, ka)[0] == WithKey(b, key, ka)[0] == b[0];
      forall k
        ensures WithKey(a[1..], key, k) == WithKey(b[1..], key, k)
      {
        var h := Only(a[0], key, k);
        assert WithKey(a, key, k) == h + WithKey(a[1..], key, k);
        assert WithKey(b, key, k) == h + WithKey(b[1..], key, k);
        assert WithKey(a[1..], key, k) == (h + WithKey(a[1..], key, k))[|h|..];
        assert WithKey(b[1..], key, k) == (h + WithKey(b[1..], key, k))[|h|..];
      }
      StableSortIsUnique(a[1..], b[1..], key);
      assert a == [a[0]] + a[1..] && b == [b[0]] + b[1..];
    }
  }

  lemma {:induction false} WithKeyCounts<T>(s: seq<T>, key: T -> seq<int>, k: seq<int>, x: T)
    ensures multiset(WithKey(s, key, k))[x] == if key(x) == k then multiset(s)[x] else 0
  {
    if s != [] {
      assert s == [s[0]] + s[1..];
      WithKeyCounts(s[1..], key, k, x);
    }
  }

  lemma SameItems<T(!new)>(a: seq<T>, b: seq<T>)
    requires multiset(a) == multiset(b) && forall x, y | x in a && y in a :: x == y
    ensures a == b
  {
    assert |a| == |multiset(a)| && |b| == |multiset(b)|;
    forall i | 0 <= i < |a|
      ensures a[i] == b[i]
    {
      assert b[i] in multiset(b);
      assert b[i] in multiset(a);
      assert a[i] in a && b[i] in a;
    }
  }

  lemma WithKeyHas<T>(s: seq<T>, key: T -> seq<int>, k: seq<int>, x: T)
    ensures x in WithKey(s, key, k) <==> x in s && key(x) == k
  {
    WithKeyCounts(s, key, k, x);
    assert x in WithKey(s, key, k) <==> x in multiset(WithKey(s, key, k));
    assert x in s <==> x in multiset(s);
  }

  lemma WithKeyIgnoresOrder<T(!new)>(a: seq<T>, b: seq<T>, key: T -> seq<int>, k: seq<int>)
    requires multiset(a) == multiset(b)
    requires forall x, y | x in a && y in a && key(x) == key(y) :: x == y
    ensures WithKey(a, key, k) == WithKey(b, key, k)
  {
    var u, v := WithKey(a, key, k), WithKey(b, key, k);
    forall x
      ensures multiset(u)[x] == multiset(v)[x]
    {
      WithKeyCounts(a, key, k, x);
      WithKeyCounts(b, key, k, x);
    }
    forall x, y | x in u && y in u
      ensures x == y
    {
      WithKeyHas(a, key, k, x);
      WithKeyHas(a, key, k, y);
    }
    SameItems(u, v);
  }

  /** When the key tells items apart, sorting does not depend on the order of the source. */
  lemma SortIgnoresOrder<T(!new)>(a: seq<T>, b: seq<T>, key: T -> seq<int>)
    requires multiset(a) == multiset(b)
    requires forall x, y | x in a && y in a && key(x) == key(y) :: x == y
    ensures Sort(a, key) == Sort(b, key)
  {
    SortSorts(a, key);
    SortSorts(b, key);
    forall k
      ensures WithKey(Sort(a, key), key, k) == WithKey(Sort(b, key), key, k)
    {
      WithKeyIgnoresOrder(a, b, key, k);
    }
    StableSortIsUnique(Sort(a, key), Sort(b, key), key);
  }

  // ---------------------------------------------------------------- sets as lists

  predicate NoRepeats<T(==)>(s: seq<T>) {
    forall i, j | 0 <= i < j < |s| :: s[i] != s[j]
  }

  function Distinct<T(==,!new)>(s: seq<T>): (d: seq<T>)
    ensures NoRepeats(d)
    ensures forall x :: x in d <==> x in s
  {
    if s == [] then []
    else
      var d := Distinct(s[..|s| - 1]);
      if s[|s| - 1] in d then d else d + [s[|s| - 1]]
  }

  /** `sorted(set(s), key)` for a key that tells distinct items apart. */
  function SortedSet<T(==,!new)>(s: seq<T>, key: T -> seq<int>): seq<T> {
    Sort(Distinct(s), key)
  }

  lemma {:induction false} NoRepeatsCounts<T(!new)>(s: seq<T>)
    ensures NoRepeats(s) <==> forall x :: multiset(s)[x] <= 1
  {
    if s != [] {
      var n := |s| - 1;
      var front := s[..n];
      assert s == front + [s[n]];
      NoRepeatsCounts(front);
      assert s[n] in front <==> s[n] in multiset(front);
      assert forall x :: multiset(s)[x] == multiset(front)[x] + if x == s[n] then 1 else 0;
      assert NoRepeats(s) <==> NoRepeats(front) && s[n] !in front;
      assert (forall x :: multiset(s)[x] <= 1) <==> (forall x :: multiset(front)[x] <= 1) && multiset(front)[s[n]] == 0 by {
        assert multiset(s)[s[n]] == multiset(front)[s[n]] + 1;
        assert forall x :: multiset(front)[x] <= multiset(s)[x];
      }
    }
  }

  /** Strictly ascending, with exactly the members of the source. */
  lemma SortedSetSorts<T(!new)>(s: seq<T>, key: T -> seq<int>)
    ensures Ordered(SortedSet(s, key), key) && NoRepeats(SortedSet(s, key))
    ensures forall x :: x in SortedSet(s, key) <==> x in s
  {
    SortSorts(Distinct(s), key);
    NoRepeatsCounts(Distinct(s));
    NoRepeatsCounts(SortedSet(s, key));
    forall x
      ensures x in SortedSet(s, key) <==> x in s
    {
      assert x in SortedSet(s, key) <==> x in multiset(SortedSet(s, key));
      assert x in Distinct(s) <==> x in multiset(Distinct(s));
    }
  }
}
