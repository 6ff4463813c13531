/** Stable descending order by an integer key: what it is, that it is unique,
    and a functional sort that reaches it. */
module StableSort {

  /** The elements of key `k`, in their order in `s`. */
  function OfKey<T>(s: seq<T>, key: T -> int, k: int): (r: seq<T>) {
    if s == [] then []
    else if key(s[0]) == k then [s[0]] + OfKey(s[1..], key, k)
    else OfKey(s[1..], key, k)
  }

  predicate Descending<T>(s: seq<T>, key: T -> int) {
    forall i, j :: 0 <= i < j < |s| ==> key(s[i]) >= key(s[j])
  }

  /** Every key class is the same list in `a` and in `b`. */
  ghost predicate SameClasses<T>(a: seq<T>, b: seq<T>, key: T -> int) {
    forall k: int :: OfKey(a, key, k) == OfKey(b, key, k)
  }

  /** `out` is `s` sorted by descending key, equal keys keeping their order. */
  ghost predicate StableOrder<T>(s: seq<T>, out: seq<T>, key: T -> int) {
    && Descending(out, key)
    && SameClasses(out, s, key)
  }

  lemma {:induction false} OfKeyConcat<T>(a: seq<T>, b: seq<T>, key: T -> int, k: int)
    ensures OfKey(a + b, key, k) == OfKey(a, key, k) + OfKey(b, key, k)
  {
    if a == [] {
      assert a + b == b;
    } else {
      assert (a + b)[1..] == a[1..] + b;
      OfKeyConcat(a[1..], b, key, k);
    }
  }

  lemma SameClassesTrans<T>(a: seq<T>, b: seq<T>, c: seq<T>, key: T -> int)
    requires SameClasses(a, b, key) && SameClasses(b, c, key)
    ensures SameClasses(a, c, key)
  {
  }

  /** Exchanging two neighbours of different keys keeps every key class. */
  lemma {:induction false} SwapKeepsOrder<T>(s: seq<T>, t: seq<T>, j: nat, key: T -> int)
    requires 0 < j < |s|
    requires t == s[j - 1 := s[j]][j := s[j - 1]]
    requires key(s[j - 1]) != key(s[j])
    ensures SameClasses(t, s, key)
  {
    var a, x, y, b := s[..j - 1], s[j - 1], s[j], s[j + 1..];
    forall k: int
      ensures OfKey(t, key, k) == OfKey(s, key, k)
    {
      assert s == a + ([x] + [y] + b);
      assert t == a + ([y] + [x] + b);
      OfKeyConcat(a, [x] + [y] + b, key, k);
      OfKeyConcat(a, [y] + [x] + b, key, k);
      OfKeyConcat([x] + [y], b, key, k);
      OfKeyConcat([y] + [x], b, key, k);
      OfKeyConcat([x], [y], key, k);
      OfKeyConcat([y], [x], key, k);
    }
  }

  lemma FirstOfKey<T>(a: seq<T>, b: seq<T>, key: T -> int)
    requires a != []
    requires Descending(b, key)
    requires OfKey(a, key, key(a[0])) == OfKey(b, key, key(a[0]))
    ensures b != [] && key(b[0]) >= key(a[0])
  {
  }

  lemma TailOfKey<T>(a: seq<T>, b: seq<T>, key: T -> int, k: int)
    requires a != [] && b != [] && a[0] == b[0]
    requires OfKey(a, key, k) == OfKey(b, key, k)
    ensures OfKey(a[1..], key, k) == OfKey(b[1..], key, k)
  {
    if k == key(a[0]) {
      assert OfKey(a[1..], key, k) == OfKey(a, key, k)[1..];
      assert OfKey(b[1..], key, k) == OfKey(b, key, k)[1..];
    }
  }

  /** Two stable descending orders of the same sequence are the same. */
  lemma {:induction false} StableOrderUnique<T>(a: seq<T>, b: seq<T>, key: T -> int)
    requires Descending(a, key) && Descending(b, key)
    requires SameClasses(a, b, key)
    ensures a == b
    decreases |a|
  {
    if a != [] {
      FirstOfKey(a, b, key);
      FirstOfKey(b, a, key);
      assert a[0] == OfKey(a, key, key(a[0]))[0];
      assert b[0] == OfKey(b, key, key(a[0]))[0];
      forall k: int
        ensures OfKey(a[1..], key, k) == OfKey(b[1..], key, k)
      {
        TailOfKey(a, b, key, k);
      }
      StableOrderUnique(a[1..], b[1..], key);
      assert a == [a[0]] + a[1..];
    } else if b != [] {
      FirstOfKey(b, a, key);
    }
  }

  lemma {:induction false} OfKeyCount<T>(s: seq<T>, key: T -> int, x: T)
    ensures multiset(OfKey(s, key, key(x)))[x] == multiset(s)[x]
  {
    if s != [] {
      OfKeyCount(s[1..], key, x);
      assert s == [s[0]] + s[1..];
    }
  }

  /** A stable order neither loses nor invents elements. */
  lemma {:induction false} StableOrderPermutes<T>(s: seq<T>, out: seq<T>, key: T -> int)
    requires StableOrder(s, out, key)
    ensures multiset(out) == multiset(s)
    ensures |out| == |s|
  {
    forall x: T
      ensures multiset(out)[x] == multiset(s)[x]
    {
      OfKeyCount(s, key, x);
      OfKeyCount(out, key, x);
    }
    assert multiset(out) == multiset(s);
    assert |out| == |multiset(out)| && |s| == |multiset(s)|;
  }

  /** Puts `x` before the first element of no greater key. */
  function Insert<T>(x: T, s: seq<T>, key: T -> int): (r: seq<T>)
    ensures forall y | y in r :: y == x || y in s
  {
    if s == [] || key(x) >= key(s[0]) then [x] + s
    else [s[0]] + Insert(x, s[1..], key)
  }

  lemma {:induction false} InsertDescends<T>(x: T, s: seq<T>, key: T -> int)
    requires Descending(s, key)
    ensures Descending(Insert(x, s, key), key)
  {
    if s != [] && key(x) < key(s[0]) {
      InsertDescends(x, s[1..], key);
      var rest := Insert(x, s[1..], key);
      forall j | 0 <= j < |rest|
        ensures key(s[0]) >= key(rest[j])
      {
        assert rest[j] in rest;
      }
    }
  }

  lemma {:induction false} InsertKeepsKeys<T>(x: T, s: seq<T>, key: T -> int, k: int)
    ensures OfKey(Insert(x, s, key), key, k) == OfKey([x] + s, key, k)
  {
    if s != [] && key(x) < key(s[0]) {
      InsertKeepsKeys(x, s[1..], key, k);
      OfKeyConcat([s[0]], Insert(x, s[1..], key), key, k);
      OfKeyConcat([s[0]], s[1..], key, k);
      OfKeyConcat([x], s[1..], key, k);
      OfKeyConcat([x], s, key, k);
      assert s == [s[0]] + s[1..];
    }
  }

  /** The stable descending sort of `s`. */
  function SortByKey<T>(s: seq<T>, key: T -> int): seq<T> {
    if s == [] then [] else Insert(s[0], SortByKey(s[1..], key), key)
  }

  lemma {:induction false} SortByKeyIsStable<T>(s: seq<T>, key: T -> int)
    ensures StableOrder(s, SortByKey(s, key), key)
  {
    if s != [] {
      var tail := SortByKey(s[1..], key);
      SortByKeyIsStable(s[1..], key);
      InsertDescends(s[0], tail, key);
      forall k: int
        ensures OfKey(Insert(s[0], tail, key), key, k) == OfKey(s, key, k)
      {
        InsertKeepsKeys(s[0], tail, key, k);
        OfKeyConcat([s[0]], tail, key, k);
        OfKeyConcat([s[0]], s[1..], key, k);
        assert s == [s[0]] + s[1..];
      }
    }
  }
}
