/** Python's stable `sorted` by a key of up to three integers. */
module Sorting {

  type Key = (int, int, int)

  predicate AtMost(a: Key, b: Key) {
    a.0 < b.0 || (a.0 == b.0 && (a.1 < b.1 || (a.1 == b.1 && a.2 <= b.2)))
  }

  predicate Sorted<T>(s: seq<T>, key: T -> Key) {
    forall i, j :: 0 <= i < j < |s| ==> AtMost(key(s[i]), key(s[j]))
  }

  function Insert<T>(s: seq<T>, x: T, key: T -> Key): seq<T> {
    if s == [] || AtMost(key(s[|s| - 1]), key(x)) then s + [x]
    else Insert(s[..|s| - 1], x, key) + [s[|s| - 1]]
  }

  function Sort<T>(s: seq<T>, key: T -> Key): seq<T> {
    if s == [] then [] else Insert(Sort(s[..|s| - 1], key), s[|s| - 1], key)
  }

  /** The elements with key `k`, in order. */
  function Having<T>(s: seq<T>, key: T -> Key, k: Key): seq<T> {
    if s == [] then []
    else
      var before, last := Having(s[..|s| - 1], key, k), s[|s| - 1];
      if key(last) == k then before + [last] else before
  }

  lemma {:induction false} HavingJoin<T>(a: seq<T>, b: seq<T>, key: T -> Key, k: Key)
    ensures Having(a + b, key, k) == Having(a, key, k) + Having(b, key, k)
  {
    if b == [] {
      assert a + b == a;
    } else {
      assert (a + b)[..|a + b| - 1] == a + b[..|b| - 1];
      HavingJoin(a, b[..|b| - 1], key, k);
    }
  }

  lemma HavingOne<T>(x: T, key: T -> Key, k: Key)
    ensures Having([x], key, k) == if key(x) == k then [x] else []
  {
    assert Having([x][..0], key, k) == [];
  }

  lemma {:induction false} HavingIn<T>(s: seq<T>, key: T -> Key, k: Key, x: T)
    ensures x in Having(s, key, k) <==> x in s && key(x) == k
  {
    if s != [] {
      HavingIn(s[..|s| - 1], key, k, x);
      assert s == s[..|s| - 1] + [s[|s| - 1]];
    }
  }

  lemma {:induction false} InsertKeeps<T>(s: seq<T>, x: T, key: T -> Key, k: Key)
    requires Sorted(s, key)
    ensures Having(Insert(s, x, key), key, k) == Having(s + [x], key, k)
  {
    HavingJoin(s, [x], key, k);
    HavingOne(x, key, k);
    if !(s == [] || AtMost(key(s[|s| - 1]), key(x))) {
      var front, last := s[..|s| - 1], s[|s| - 1];
      InsertKeeps(front, x, key, k);
      HavingJoin(front, [x], key, k);
      HavingOne(last, key, k);
      HavingJoin(Insert(front, x, key), [last], key, k);
    }
  }

  lemma SortedJoin<T>(s: seq<T>, last: T, key: T -> Key)
    requires Sorted(s, key) && forall y :: y in s ==> AtMost(key(y), key(last))
    ensures Sorted(s + [last], key)
  {
  }

  lemma BelowLast<T>(s: seq<T>, key: T -> Key, x: T)
    requires Sorted(s, key) && s != [] && x in s
    ensures AtMost(key(x), key(s[|s| - 1]))
  {
    var i :| 0 <= i < |s| && s[i] == x;
  }

  lemma {:induction false} InsertIn<T>(s: seq<T>, x: T, key: T -> Key, y: T)
    ensures y in Insert(s, x, key) <==> y in s || y == x
  {
    if !(s == [] || AtMost(key(s[|s| - 1]), key(x))) {
      InsertIn(s[..|s| - 1], x, key, y);
      assert s == s[..|s| - 1] + [s[|s| - 1]];
    }
  }

  lemma {:induction false} InsertSorts<T>(s: seq<T>, x: T, key: T -> Key)
    requires Sorted(s, key)
    ensures Sorted(Insert(s, x, key), key)
  {
    if s == [] || AtMost(key(s[|s| - 1]), key(x)) {
      forall y | y in s
        ensures AtMost(key(y), key(x))
      {
        BelowLast(s, key, y);
        Transitive(key(y), key(s[|s| - 1]), key(x));
      }
      SortedJoin(s, x, key);
    } else {
      var front, last := s[..|s| - 1], s[|s| - 1];
      InsertSorts(front, x, key);
      Total(key(last), key(x));
      forall y | y in Insert(front, x, key)
        ensures AtMost(key(y), key(last))
      {
        InsertIn(front, x, key, y);
        if y in front {
          BelowLast(s, key, y);
        }
      }
      SortedJoin(Insert(front, x, key), last, key);
    }
  }

  lemma {:induction false} SortIn<T>(s: seq<T>, key: T -> Key, y: T)
    ensures y in Sort(s, key) <==> y in s
  {
    if s != [] {
      SortIn(s[..|s| - 1], key, y);
      InsertIn(Sort(s[..|s| - 1], key), s[|s| - 1], key, y);
      assert s == s[..|s| - 1] + [s[|s| - 1]];
    }
  }

  lemma {:induction false} SortSorts<T>(s: seq<T>, key: T -> Key)
    ensures Sorted(Sort(s, key), key)
  {
    if s != [] {
      SortSorts(s[..|s| - 1], key);
      InsertSorts(Sort(s[..|s| - 1], key), s[|s| - 1], key);
    }
  }

  /** The sorted list has, for every key, the same elements in the same order. */
  lemma {:induction false} SortIsStable<T>(s: seq<T>, key: T -> Key, k: Key)
    ensures Having(Sort(s, key), key, k) == Having(s, key, k)
  {
    if s != [] {
      var front, last := s[..|s| - 1], s[|s| - 1];
      SortSorts(front, key);
      SortIsStable(front, key, k);
      InsertKeeps(Sort(front, key), last, key, k);
      HavingJoin(Sort(front, key), [last], key, k);
      HavingJoin(front, [last], key, k);
      assert s == front + [last];
    }
  }

  /** Sorted lists that agree key by key are equal. */
  lemma {:induction false} SortedOnce<T>(a: seq<T>, b: seq<T>, key: T -> Key)
    requires Sorted(a, key) && Sorted(b, key)
    requires forall k :: Having(a, key, k) == Having(b, key, k)
    ensures a == b
    decreases |a| + |b|
  {
    if a != [] && b != [] {
      var x, y, p, q := a[|a| - 1], b[|b| - 1], a[..|a| - 1], b[..|b| - 1];
      LastIn(a, b, key);
      LastIn(b, a, key);
      Antisymmetric(key(x), key(y));
      var k := key(x);
      assert Having(a, key, k)[|Having(a, key, k)| - 1] == x;
      assert Having(b, key, k)[|Having(b, key, k)| - 1] == y;
      forall k
        ensures Having(p, key, k) == Having(q, key, k)
      {
        var h := Having(a, key, k);
        if k == key(x) {
          assert Having(p, key, k) == h[..|h| - 1] == Having(q, key, k);
        }
      }
      SortedOnce(p, q, key);
      assert a == p + [x] && b == q + [y];
    } else if a != [] {
      HavingIn(a, key, key(a[0]), a[0]);
    } else if b != [] {
      HavingIn(b, key, key(b[0]), b[0]);
    }
  }

  lemma Total(a: Key, b: Key)
    ensures AtMost(a, b) || AtMost(b, a)
  {
  }

  lemma Transitive(a: Key, b: Key, c: Key)
    requires AtMost(a, b) && AtMost(b, c)
    ensures AtMost(a, c)
  {
  }

  lemma Antisymmetric(a: Key, b: Key)
    requires AtMost(a, b) && AtMost(b, a)
    ensures a == b
  {
  }

  lemma LastIn<T>(a: seq<T>, b: seq<T>, key: T -> Key)
    requires a != [] && Sorted(b, key) && b != [] && Having(a, key, key(a[|a| - 1])) == Having(b, key, key(a[|a| - 1]))
    ensures AtMost(key(a[|a| - 1]), key(b[|b| - 1]))
  {
    var x := a[|a| - 1];
    HavingIn(a, key, key(x), x);
    HavingIn(b, key, key(x), x);
  }

  // --- distinct keys ---

  ghost predicate DistinctKeys<T>(s: seq<T>, key: T -> Key) {
    forall i, j :: 0 <= i < j < |s| ==> key(s[i]) != key(s[j])
  }

  lemma DistinctJoin<T>(s: seq<T>, x: T, key: T -> Key)
    requires DistinctKeys(s, key) && forall y :: y in s ==> key(y) != key(x)
    ensures DistinctKeys(s + [x], key)
  {
  }

  lemma {:induction false} InsertDistinct<T>(s: seq<T>, x: T, key: T -> Key)
    requires DistinctKeys(s, key) && forall y :: y in s ==> key(y) != key(x)
    ensures DistinctKeys(Insert(s, x, key), key)
  {
    if s == [] || AtMost(key(s[|s| - 1]), key(x)) {
      DistinctJoin(s, x, key);
    } else {
      var front, last := s[..|s| - 1], s[|s| - 1];
      assert last in s;
      InsertDistinct(front, x, key);
      forall y | y in Insert(front, x, key)
        ensures key(y) != key(last)
      {
        InsertIn(front, x, key, y);
      }
      DistinctJoin(Insert(front, x, key), last, key);
    }
  }

  lemma {:induction false} SortDistinct<T>(s: seq<T>, key: T -> Key)
    requires DistinctKeys(s, key)
    ensures DistinctKeys(Sort(s, key), key)
  {
    if s != [] {
      var front, last := s[..|s| - 1], s[|s| - 1];
      SortDistinct(front, key);
      forall y | y in Sort(front, key)
        ensures key(y) != key(last)
      {
        SortIn(front, key, y);
      }
      InsertDistinct(Sort(front, key), last, key);
    }
  }

  ghost predicate Within<T>(a: seq<T>, b: seq<T>) {
    forall i :: 0 <= i < |a| ==> a[i] in b
  }

  lemma LastAtMost<T>(a: seq<T>, b: seq<T>, key: T -> Key)
    requires Sorted(b, key) && a != [] && Within(a, b)
    ensures b != [] && AtMost(key(a[|a| - 1]), key(b[|b| - 1]))
  {
    assert a[|a| - 1] in b;
    BelowLast(b, key, a[|a| - 1]);
  }

  lemma FrontWithin<T>(a: seq<T>, b: seq<T>, key: T -> Key)
    requires DistinctKeys(a, key) && a != [] && b != [] && a[|a| - 1] == b[|b| - 1] && Within(a, b)
    ensures Within(a[..|a| - 1], b[..|b| - 1])
  {
    var q := b[..|b| - 1];
    forall i | 0 <= i < |a| - 1
      ensures a[i] in q
    {
      assert a[i] in b;
      var j :| 0 <= j < |b| && b[j] == a[i];
      assert q[j] == a[i];
    }
  }

  lemma SameKeySame<T>(a: seq<T>, key: T -> Key, x: T, y: T)
    requires DistinctKeys(a, key) && x in a && y in a && key(x) == key(y)
    ensures x == y
  {
  }

  /** Sorted lists with distinct keys and the same elements are equal. */
  lemma {:induction false} StrictOnce<T>(a: seq<T>, b: seq<T>, key: T -> Key)
    requires Sorted(a, key) && Sorted(b, key) && DistinctKeys(a, key) && DistinctKeys(b, key)
    requires Within(a, b) && Within(b, a)
    ensures a == b
    decreases |a|
  {
    if a == [] {
      if b != [] {
        LastAtMost(b, a, key);
      }
    } else {
      LastAtMost(a, b, key);
      LastAtMost(b, a, key);
      var x, y, p, q := a[|a| - 1], b[|b| - 1], a[..|a| - 1], b[..|b| - 1];
      Antisymmetric(key(x), key(y));
      assert y in b && y in a;
      SameKeySame(a, key, x, y);
      FrontWithin(a, b, key);
      FrontWithin(b, a, key);
      hide Within;
      StrictOnce(p, q, key);
      assert a == p + [x] && b == q + [y];
    }
  }

  lemma {:induction false} AtMostOnce<T>(s: seq<T>, key: T -> Key, k: Key)
    requires DistinctKeys(s, key)
    ensures |Having(s, key, k)| <= 1
  {
    if s != [] {
      var front, last := s[..|s| - 1], s[|s| - 1];
      AtMostOnce(front, key, k);
      if key(last) == k && Having(front, key, k) != [] {
        HavingIn(front, key, k, Having(front, key, k)[0]);
      }
    }
  }

  lemma {:induction false} HavingTwo<T>(s: seq<T>, key: T -> Key, i: nat, j: nat)
    requires i < j < |s| && key(s[i]) == key(s[j])
    ensures |Having(s, key, key(s[i]))| >= 2
  {
    var k := key(s[i]);
    var a, b := s[..j], s[j..];
    assert s == a + b;
    HavingJoin(a, b, key, k);
    assert a[i] in a && b[0] in b;
    HavingIn(a, key, k, a[i]);
    HavingIn(b, key, k, b[0]);
  }

  ghost predicate AtMostOneEach<T>(s: seq<T>, key: T -> Key) {
    forall k :: AtMostOneOf(s, key, k)
  }

  predicate AtMostOneOf<T>(s: seq<T>, key: T -> Key, k: Key) {
    |Having(s, key, k)| <= 1
  }

  /** Keys are distinct exactly when no key comes up twice. */
  lemma DistinctByCount<T>(s: seq<T>, key: T -> Key)
    ensures DistinctKeys(s, key) <==> AtMostOneEach(s, key)
  {
    if DistinctKeys(s, key) {
      forall k
        ensures AtMostOneOf(s, key, k)
      {
        AtMostOnce(s, key, k);
      }
    }
    if AtMostOneEach(s, key) {
      forall i, j | 0 <= i < j < |s|
        ensures key(s[i]) != key(s[j])
      {
        if key(s[i]) == key(s[j]) {
          assert AtMostOneOf(s, key, key(s[i]));
          HavingTwo(s, key, i, j);
        }
      }
    }
  }
}
