/** Sorting by a lexicographically compared integer key, as the library sort does. */
module Sorting {
  /** Whether key `a` comes no later than key `b`; a proper prefix comes first. */
  predicate LexLeq(a: seq<int>, b: seq<int>) {
    |a| == 0 || (|b| > 0 && (a[0] < b[0] || (a[0] == b[0] && LexLeq(a[1..], b[1..]))))
  }

  lemma LexTotal(a: seq<int>, b: seq<int>)
    ensures LexLeq(a, b) || LexLeq(b, a)
  {
  }

  lemma LexTransitive(a: seq<int>, b: seq<int>, c: seq<int>)
    requires LexLeq(a, b) && LexLeq(b, c)
    ensures LexLeq(a, c)
  {
  }

  lemma LexAntisymmetric(a: seq<int>, b: seq<int>)
    requires LexLeq(a, b) && LexLeq(b, a)
    ensures a == b
  {
    if |a| > 0 {
      LexAntisymmetric(a[1..], b[1..]);
      assert a == [a[0]] + a[1..] && b == [b[0]] + b[1..];
    }
  }

  ghost predicate SortedBy<T>(s: seq<T>, key: T -> seq<int>) {
    forall i, j | 0 <= i < j < |s| :: LexLeq(key(s[i]), key(s[j]))
  }

  function Insert<T>(x: T, s: seq<T>, key: T -> seq<int>): seq<T> {
    if s == [] || LexLeq(key(x), key(s[0])) then [x] + s else [s[0]] + Insert(x, s[1..], key)
  }

  function Sort<T>(s: seq<T>, key: T -> seq<int>): seq<T> {
    if s == [] then [] else Insert(s[0], Sort(s[1..], key), key)
  }

  lemma {:induction false} InsertSorted<T>(x: T, s: seq<T>, key: T -> seq<int>)
    requires SortedBy(s, key)
    ensures SortedBy(Insert(x, s, key), key) && multiset(Insert(x, s, key)) == multiset{x} + multiset(s)
  {
    var r := Insert(x, s, key);
    if s != [] && !LexLeq(key(x), key(s[0])) {
      InsertSorted(x, s[1..], key);
      LexTotal(key(x), key(s[0]));
      assert s == [s[0]] + s[1..];
      var rest := Insert(x, s[1..], key);
      forall j | 0 <= j < |rest|
        ensures LexLeq(key(s[0]), key(rest[j]))
      {
        assert rest[j] in multiset(rest);
        assert rest[j] == x || rest[j] in multiset(s[1..]);
      }
    } else if s != [] {
      forall j | 1 <= j < |r|
        ensures LexLeq(key(r[0]), key(r[j]))
      {
        if j > 1 {
          LexTransitive(key(x), key(s[0]), key(s[j - 1]));
        }
      }
    }
  }

  lemma {:induction false} SortIsSorted<T>(s: seq<T>, key: T -> seq<int>)
    ensures SortedBy(Sort(s, key), key) && multiset(Sort(s, key)) == multiset(s)
  {
    if s != [] {
      SortIsSorted(s[1..], key);
      InsertSorted(s[0], Sort(s[1..], key), key);
      assert s == [s[0]] + s[1..];
    }
  }

  ghost predicate KeysTellApart<T(!new)>(m: multiset<T>, key: T -> seq<int>) {
    forall x, y | x in m && y in m && key(x) == key(y) :: x == y
  }

  lemma SortedHeadIsLeast<T>(a: seq<T>, key: T -> seq<int>, x: T)
    requires SortedBy(a, key) && x in multiset(a)
    ensures a != [] && LexLeq(key(a[0]), key(x))
  {
    var j :| 0 <= j < |a| && a[j] == x;
    LexTotal(key(x), key(x));
  }

  lemma MultisetTail<T>(a: seq<T>)
    requires a != []
    ensures multiset(a) == multiset{a[0]} + multiset(a[1..]) && multiset(a[1..]) == multiset(a) - multiset{a[0]}
  {
    assert a == [a[0]] + a[1..];
  }

  lemma KeysApartTail<T(!new)>(a: seq<T>, key: T -> seq<int>)
    requires a != [] && KeysTellApart(multiset(a), key)
    ensures KeysTellApart(multiset(a[1..]), key)
  {
    MultisetTail(a);
  }

  /** A key that tells the elements apart leaves one sorted arrangement only. */
  lemma {:induction false} SortedUnique<T(!new)>(a: seq<T>, b: seq<T>, key: T -> seq<int>)
    requires SortedBy(a, key) && SortedBy(b, key) && multiset(a) == multiset(b) && KeysTellApart(multiset(a), key)
    ensures a == b
  {
    assert |multiset(b)| == |multiset(a)|;
    if a != [] {
      assert a[0] in multiset(a) && b[0] in multiset(b);
      SortedHeadIsLeast(a, key, b[0]);
      SortedHeadIsLeast(b, key, a[0]);
      LexAntisymmetric(key(a[0]), key(b[0]));
      assert a[0] == b[0];
      MultisetTail(a);
      MultisetTail(b);
      KeysApartTail(a, key);
      hide LexLeq, KeysTellApart;
      SortedUnique(a[1..], b[1..], key);
    }
  }

  lemma SortIgnoresOrder<T(!new)>(a: seq<T>, b: seq<T>, key: T -> seq<int>)
    requires multiset(a) == multiset(b) && KeysTellApart(multiset(a), key)
    ensures Sort(a, key) == Sort(b, key)
  {
    SortIsSorted(a, key);
    SortIsSorted(b, key);
    SortedUnique(Sort(a, key), Sort(b, key), key);
  }
}
