// `Array.prototype.sort` with a comparator `(a, b) => key(b) - key(a)`:
// a stable sort into non-increasing key order, and the top-k slice taken
// after it.
module Sorting {

  /** Keys never increase along `s`. */
  predicate SortedDesc<T>(s: seq<T>, key: T -> int)
  {
    forall i, j :: 0 <= i < j < |s| ==> key(s[i]) >= key(s[j])
  }

  /** Puts `x` in front of the first element whose key is not larger, so it stays ahead of its equals. */
  function Insert<T>(x: T, s: seq<T>, key: T -> int): seq<T>
  {
    if s == [] || key(x) >= key(s[0]) then [x] + s else [s[0]] + Insert(x, s[1..], key)
  }

  /** The stable descending sort: each element is inserted ahead of the later ones with an equal key. */
  function SortDesc<T>(s: seq<T>, key: T -> int): seq<T>
  {
    if s == [] then [] else Insert(s[0], SortDesc(s[1..], key), key)
  }

  /** Inserting keeps an upper bound on the keys. */
  lemma {:induction false} InsertBound<T>(x: T, s: seq<T>, key: T -> int, b: int)
    requires forall i :: 0 <= i < |s| ==> key(s[i]) <= b
    requires key(x) <= b
    ensures forall i :: 0 <= i < |Insert(x, s, key)| ==> key(Insert(x, s, key)[i]) <= b
  {
    if s != [] && key(x) < key(s[0]) {
      InsertBound(x, s[1..], key, b);
    }
  }

  lemma SortedCons<T>(y: T, r: seq<T>, key: T -> int)
    requires SortedDesc(r, key)
    requires forall i :: 0 <= i < |r| ==> key(r[i]) <= key(y)
    ensures SortedDesc([y] + r, key)
  {
    forall i, j | 0 <= i < j < |[y] + r| ensures key(([y] + r)[i]) >= key(([y] + r)[j]) {
      if i > 0 {
        assert ([y] + r)[i] == r[i - 1];
      }
      assert ([y] + r)[j] == r[j - 1];
    }
  }

  lemma {:induction false} InsertProps<T>(x: T, s: seq<T>, key: T -> int)
    requires SortedDesc(s, key)
    ensures SortedDesc(Insert(x, s, key), key)
    ensures multiset(Insert(x, s, key)) == multiset(s) + multiset{x}
    ensures |Insert(x, s, key)| == |s| + 1
  {
    InsertSorted(x, s, key);
    InsertMultiset(x, s, key);
  }

  lemma {:induction false} InsertMultiset<T>(x: T, s: seq<T>, key: T -> int)
    ensures multiset(Insert(x, s, key)) == multiset(s) + multiset{x}
    ensures |Insert(x, s, key)| == |s| + 1
  {
    if s != [] && key(x) < key(s[0]) {
      InsertMultiset(x, s[1..], key);
      MultisetOfCons(s);
    }
  }

  lemma {:induction false} InsertSorted<T>(x: T, s: seq<T>, key: T -> int)
    requires SortedDesc(s, key)
    ensures SortedDesc(Insert(x, s, key), key)
  {
    if s == [] || key(x) >= key(s[0]) {
      if s != [] {
        SortedCons(x, s, key);
      }
    } else {
      var tail := s[1..];
      assert SortedDesc(tail, key);
      InsertSorted(x, tail, key);
      TailBelowHead(s, key);
      InsertBound(x, tail, key, key(s[0]));
      SortedCons(s[0], Insert(x, tail, key), key);
    }
  }

  lemma TailBelowHead<T>(s: seq<T>, key: T -> int)
    requires s != [] && SortedDesc(s, key)
    ensures forall i :: 0 <= i < |s[1..]| ==> key(s[1..][i]) <= key(s[0])
  {
    forall i | 0 <= i < |s[1..]| ensures key(s[1..][i]) <= key(s[0]) {
      assert s[1..][i] == s[i + 1];
    }
  }

  /** The sort orders by non-increasing key and is a permutation of its input. */
  lemma {:induction false} SortDescProps<T>(s: seq<T>, key: T -> int)
    ensures SortedDesc(SortDesc(s, key), key)
    ensures multiset(SortDesc(s, key)) == multiset(s)
    ensures |SortDesc(s, key)| == |s|
  {
    if s != [] {
      SortDescProps(s[1..], key);
      InsertProps(s[0], SortDesc(s[1..], key), key);
      MultisetOfCons(s);
    }
  }

  /** The elements of `s` whose key is `v`, in their order in `s`. */
  function WithKey<T>(s: seq<T>, key: T -> int, v: int): seq<T>
  {
    if s == [] then [] else (if key(s[0]) == v then [s[0]] else []) + WithKey(s[1..], key, v)
  }

  /** Inserting `x` puts it ahead of every element with its key, and moves no other element past one. */
  lemma {:induction false} InsertWithKey<T>(x: T, s: seq<T>, key: T -> int, v: int)
    ensures WithKey(Insert(x, s, key), key, v) == (if key(x) == v then [x] else []) + WithKey(s, key, v)
  {
    var r := Insert(x, s, key);
    if s == [] || key(x) >= key(s[0]) {
      assert r == [x] + s && r[1..] == s;
    } else {
      assert r[0] == s[0] && r[1..] == Insert(x, s[1..], key);
      InsertWithKey(x, s[1..], key, v);
    }
  }

  /**
    * The sort is stable: the elements with any one key come out in the
    * order they went in, as `Array.prototype.sort` keeps the order of
    * elements its comparator calls equal.
    */
  lemma {:induction false} SortDescStable<T>(s: seq<T>, key: T -> int, v: int)
    ensures WithKey(SortDesc(s, key), key, v) == WithKey(s, key, v)
  {
    if s != [] {
      SortDescStable(s[1..], key, v);
      InsertWithKey(s[0], SortDesc(s[1..], key), key, v);
    }
  }

  /**
    * The first element of the sort has the largest key, and among the
    * elements with that key it is the one that came first.
    */
  lemma SortDescHead<T>(s: seq<T>, key: T -> int)
    requires s != []
    ensures forall x :: x in s ==> key(x) <= key(SortDesc(s, key)[0])
    ensures WithKey(s, key, key(SortDesc(s, key)[0])) != []
    ensures SortDesc(s, key)[0] == WithKey(s, key, key(SortDesc(s, key)[0]))[0]
  {
    var sorted := SortDesc(s, key);
    SortDescProps(s, key);
    assert |sorted| == |s| > 0;
    forall x | x in s ensures key(x) <= key(sorted[0]) {
      assert x in multiset(sorted);
    }
    SortDescStable(s, key, key(sorted[0]));
  }

  lemma MultisetOfCons<T>(s: seq<T>)
    requires s != []
    ensures multiset(s) == multiset(s[1..]) + multiset{s[0]}
  {
    assert s == [s[0]] + s[1..];
  }

  /** `.sort(...).slice(0, k)`. */
  function TopK<T>(s: seq<T>, key: T -> int, k: nat): seq<T>
  {
    var sorted := SortDesc(s, key);
    if |sorted| <= k then sorted else sorted[..k]
  }

  /**
    * The top `k`: at most `k` of them, in non-increasing key order, all taken
    * from the input, as many as possible, and no element left out has a
    * larger key than one kept.
    */
  lemma TopKProps<T>(s: seq<T>, key: T -> int, k: nat)
    ensures |TopK(s, key, k)| == if |s| <= k then |s| else k
    ensures SortedDesc(TopK(s, key, k), key)
    ensures multiset(TopK(s, key, k)) <= multiset(s)
    ensures forall x :: x in TopK(s, key, k) ==> x in s
    ensures forall i, j :: 0 <= i < |TopK(s, key, k)| <= j < |SortDesc(s, key)| ==>
      key(TopK(s, key, k)[i]) >= key(SortDesc(s, key)[j])
  {
    var sorted := SortDesc(s, key);
    SortDescProps(s, key);
    if |sorted| > k {
      PrefixMultiset(sorted, k);
    }
    SubMultisetIn(TopK(s, key, k), s);
  }

  lemma PrefixMultiset<T>(s: seq<T>, k: nat)
    requires k <= |s|
    ensures multiset(s[..k]) <= multiset(s)
  {
    assert s == s[..k] + s[k..];
  }

  lemma SubMultisetIn<T>(a: seq<T>, b: seq<T>)
    requires multiset(a) <= multiset(b)
    ensures forall x :: x in a ==> x in b
  {
    forall x | x in a ensures x in b {
      assert x in multiset(a);
    }
  }
}
