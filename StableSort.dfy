/** A model of `Array.prototype.sort((a, b) => key(b) - key(a))` followed by
    `.slice(0, limit)`: a stable sort by descending key, and truncation.
    The sort is written as an insertion sort over a sequence; what matters is
    its contract, which pins the result down completely (see SortIsUnique). */
module StableSort {

  /** Every element's key is at least the key of every later element. */
  ghost predicate SortedDesc<T>(s: seq<T>, key: T -> real) {
    forall i, j :: 0 <= i < j < |s| ==> key(s[i]) >= key(s[j])
  }

  /** The elements of `s` whose key is exactly `k`, in their order in `s`. */
  function WithKey<T>(s: seq<T>, key: T -> real, k: real): (r: seq<T>)
    ensures |r| <= |s|
    ensures forall x :: x in r ==> x in s && key(x) == k
  {
    if s == [] then []
    else (if key(s[0]) == k then [s[0]] else []) + WithKey(s[1..], key, k)
  }

  /** `.slice(0, n)` for a non-negative `n`. */
  function Take<T>(s: seq<T>, n: nat): (r: seq<T>)
    ensures |r| == if n < |s| then n else |s|
    ensures forall i :: 0 <= i < |r| ==> r[i] == s[i]
  {
    if n < |s| then s[..n] else s
  }

  /** Places `x` in front of the first element whose key is not larger. */
  function Insert<T>(x: T, s: seq<T>, key: T -> real): seq<T>
  {
    if s == [] || key(x) >= key(s[0]) then [x] + s
    else [s[0]] + Insert(x, s[1..], key)
  }

  lemma {:induction false} InsertPermutes<T>(x: T, s: seq<T>, key: T -> real)
    ensures |Insert(x, s, key)| == |s| + 1
    ensures multiset(Insert(x, s, key)) == multiset(s) + multiset{x}
  {
    if s != [] && key(x) < key(s[0]) {
      InsertPermutes(x, s[1..], key);
      assert s == [s[0]] + s[1..];
    }
  }

  lemma {:induction false} InsertKeepsGroups<T>(x: T, s: seq<T>, key: T -> real, k: real)
    ensures WithKey(Insert(x, s, key), key, k)
            == (if key(x) == k then [x] else []) + WithKey(s, key, k)
  {
    var r := Insert(x, s, key);
    if s == [] || key(x) >= key(s[0]) {
      assert r[1..] == s;
    } else {
      InsertKeepsGroups(x, s[1..], key, k);
      assert r[1..] == Insert(x, s[1..], key);
    }
  }

  lemma {:induction false} InsertSorted<T>(x: T, s: seq<T>, key: T -> real)
    requires SortedDesc(s, key)
    ensures SortedDesc(Insert(x, s, key), key)
  {
    var r := Insert(x, s, key);
    if s != [] && key(x) < key(s[0]) {
      var t := Insert(x, s[1..], key);
      assert r == [s[0]] + t;
      InsertSorted(x, s[1..], key);
      InsertPermutes(x, s[1..], key);
      forall i | 0 < i < |r| ensures key(r[0]) >= key(r[i]) {
        assert r[i] == t[i - 1];
        assert r[i] in multiset(t);
        if r[i] != x {
          assert r[i] in multiset(s[1..]);
        }
      }
    }
  }

  /** The stable descending sort.  Its result is ordered by descending key, is
      a permutation of the input, and keeps the relative order of every group
      of elements with equal keys. */
  function Sort<T>(s: seq<T>, key: T -> real): (r: seq<T>)
    ensures |r| == |s|
    ensures SortedDesc(r, key)
    ensures multiset(r) == multiset(s)
    ensures forall k :: WithKey(r, key, k) == WithKey(s, key, k)
  {
    if s == [] then []
    else
      var t := Sort(s[1..], key);
      InsertPermutes(s[0], t, key);
      InsertSorted(s[0], t, key);
      assert forall k :: WithKey(Insert(s[0], t, key), key, k)
                         == (if key(s[0]) == k then [s[0]] else []) + WithKey(t, key, k) by {
        forall k { InsertKeepsGroups(s[0], t, key, k); }
      }
      assert s == [s[0]] + s[1..];
      assert multiset(s) == multiset{s[0]} + multiset(s[1..]);
      Insert(s[0], t, key)
  }

  /** Truncating keeps, for every key, a prefix of that key's group: ties
      stay in the order they had before truncation. */
  lemma {:induction false} TakeKeepsGroupPrefix<T>(s: seq<T>, n: nat, key: T -> real, k: real)
    ensures WithKey(Take(s, n), key, k) <= WithKey(s, key, k)
  {
    if n < |s| && n > 0 {
      TakeKeepsGroupPrefix(s[1..], n - 1, key, k);
      assert Take(s, n)[1..] == Take(s[1..], n - 1);
    }
  }

  /** In a descending sequence, what truncation keeps ranks at least as high
      as anything it drops. */
  lemma TakeKeepsBest<T>(s: seq<T>, n: nat, key: T -> real, x: T, y: T)
    requires SortedDesc(s, key)
    requires x in Take(s, n) && y in s && y !in Take(s, n)
    ensures key(y) <= key(x)
  {
    var i :| 0 <= i < |Take(s, n)| && Take(s, n)[i] == x;
    var j :| 0 <= j < |s| && s[j] == y;
    assert i < j;
  }

  lemma NonEmptyHasGroup<T>(s: seq<T>, key: T -> real)
    ensures s != [] ==> WithKey(s, key, key(s[0])) != []
  {
  }

  lemma HeadIsMax<T>(a: seq<T>, key: T -> real, x: T)
    requires SortedDesc(a, key) && x in a
    ensures key(x) <= key(a[0])
  {
    var j :| 0 <= j < |a| && a[j] == x;
    if j > 0 {
      assert key(a[0]) >= key(a[j]);
    }
  }

  /** Two descending sequences with the same groups start alike. */
  lemma HeadsAgree<T>(a: seq<T>, b: seq<T>, key: T -> real)
    requires SortedDesc(a, key) && SortedDesc(b, key) && a != [] && b != []
    requires forall k :: WithKey(a, key, k) == WithKey(b, key, k)
    ensures key(a[0]) == key(b[0]) && a[0] == b[0]
  {
    var ka, kb := key(a[0]), key(b[0]);
    assert WithKey(b, key, kb)[0] == b[0];
    assert b[0] in WithKey(a, key, kb);
    HeadIsMax(a, key, b[0]);
    assert WithKey(a, key, ka)[0] == a[0];
    assert a[0] in WithKey(b, key, ka);
    HeadIsMax(b, key, a[0]);
  }

  lemma WithKeyCons<T>(s: seq<T>, key: T -> real, k: real)
    requires s != []
    ensures WithKey(s, key, k) == (if key(s[0]) == k then [s[0]] else []) + WithKey(s[1..], key, k)
  {
  }

  /** ... and, with the heads removed, still have the same groups. */
  lemma TailsAgree<T>(a: seq<T>, b: seq<T>, key: T -> real, k: real)
    requires a != [] && b != [] && a[0] == b[0]
    requires WithKey(a, key, k) == WithKey(b, key, k)
    ensures WithKey(a[1..], key, k) == WithKey(b[1..], key, k)
  {
    WithKeyCons(a, key, k);
    WithKeyCons(b, key, k);
    var ta, tb := WithKey(a[1..], key, k), WithKey(b[1..], key, k);
    var head := if key(a[0]) == k then [a[0]] else [];
    assert head + ta == head + tb;
    assert ta == (head + ta)[|head|..];
    assert tb == (head + tb)[|head|..];
  }

  /** Being descending and keeping every group of equal keys in order
      determines a sequence: Sort is the only stable descending sort. */
  lemma {:induction false} SortIsUnique<T>(a: seq<T>, b: seq<T>, key: T -> real)
    requires SortedDesc(a, key) && SortedDesc(b, key)
    requires forall k :: WithKey(a, key, k) == WithKey(b, key, k)
    ensures a == b
  {
    if a == [] || b == [] {
      NonEmptyHasGroup(a, key);
      NonEmptyHasGroup(b, key);
    } else {
      HeadsAgree(a, b, key);
      forall k ensures WithKey(a[1..], key, k) == WithKey(b[1..], key, k) {
        TailsAgree(a, b, key, k);
      }
      SortIsUnique(a[1..], b[1..], key);
      assert a == [a[0]] + a[1..] && b == [b[0]] + b[1..];
    }
  }

  /** Sorting a sorted sequence again changes nothing. */
  lemma SortIdempotent<T>(s: seq<T>, key: T -> real)
    ensures Sort(Sort(s, key), key) == Sort(s, key)
  {
    SortIsUnique(Sort(Sort(s, key), key), Sort(s, key), key);
  }

  /** No two elements share a name under `f` (a movie id, say). */
  ghost predicate DistinctBy<T>(s: seq<T>, f: T -> string) {
    forall i, j :: 0 <= i < j < |s| ==> f(s[i]) != f(s[j])
  }

  lemma {:induction false} InsertKeepsDistinct<T>(x: T, s: seq<T>, key: T -> real, f: T -> string)
    requires DistinctBy(s, f)
    requires forall y :: y in s ==> f(y) != f(x)
    ensures DistinctBy(Insert(x, s, key), f)
  {
    if s != [] && key(x) < key(s[0]) {
      InsertKeepsDistinct(x, s[1..], key, f);
      InsertPermutes(x, s[1..], key);
      var r := Insert(x, s, key);
      forall j | 0 < j < |r| ensures f(r[0]) != f(r[j]) {
        assert r[j] in multiset(Insert(x, s[1..], key));
        if r[j] != x {
          assert r[j] in multiset(s[1..]);
          assert r[j] in s[1..];
        }
      }
    }
  }

  /** Sorting never makes two elements share a name. */
  lemma {:induction false} SortKeepsDistinct<T>(s: seq<T>, key: T -> real, f: T -> string)
    requires DistinctBy(s, f)
    ensures DistinctBy(Sort(s, key), f)
  {
    if s != [] {
      SortKeepsDistinct(s[1..], key, f);
      forall y | y in Sort(s[1..], key) ensures f(y) != f(s[0]) {
        assert y in multiset(s[1..]);
        assert y in s[1..];
      }
      InsertKeepsDistinct(s[0], Sort(s[1..], key), key, f);
    }
  }

  lemma SortSameElements<T>(s: seq<T>, key: T -> real)
    ensures forall x :: x in Sort(s, key) <==> x in s
  {
    forall x ensures x in Sort(s, key) <==> x in s {
      assert x in Sort(s, key) <==> x in multiset(Sort(s, key));
      assert x in s <==> x in multiset(s);
    }
  }

  /** Sort then truncate to `n`: the result has `min(n, |s|)` elements of `s`,
      in descending order, each group of equal keys is a prefix of that
      group in `s`, and nothing left out ranks above anything kept. */
  lemma TopN<T>(s: seq<T>, key: T -> real, n: nat)
    ensures |Take(Sort(s, key), n)| == if n < |s| then n else |s|
    ensures forall x :: x in Take(Sort(s, key), n) ==> x in s
    ensures SortedDesc(Take(Sort(s, key), n), key)
    ensures forall k :: WithKey(Take(Sort(s, key), n), key, k) <= WithKey(s, key, k)
    ensures forall x, y :: x in Take(Sort(s, key), n) && y in s && y !in Take(Sort(s, key), n) ==> key(y) <= key(x)
  {
    var sorted := Sort(s, key);
    var r := Take(sorted, n);
    SortSameElements(s, key);
    forall k ensures WithKey(r, key, k) <= WithKey(s, key, k) {
      TakeKeepsGroupPrefix(sorted, n, key, k);
    }
    forall x, y | x in r && y in s && y !in r ensures key(y) <= key(x) {
      TakeKeepsBest(sorted, n, key, x, y);
    }
  }
}
