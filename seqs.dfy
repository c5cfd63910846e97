// Generic sequence relations used to state order-preservation.
module Seqs {

  /** `a` is `b` with some elements removed, the rest kept in order. */
  predicate IsSubseq<T(==)>(a: seq<T>, b: seq<T>)
    decreases |b|
  {
    a == [] || (b != [] && ((a[0] == b[0] && IsSubseq(a[1..], b[1..])) || IsSubseq(a, b[1..])))
  }

  lemma AppendAssoc<T>(a: seq<T>, b: seq<T>, c: seq<T>)
    ensures a + (b + c) == (a + b) + c
  {
  }

  lemma {:induction false} SubseqRefl<T>(a: seq<T>)
    ensures IsSubseq(a, a)
    decreases |a|
  {
    if a != [] {
      SubseqRefl(a[1..]);
    }
  }

  lemma {:induction false} SubseqElems<T>(a: seq<T>, b: seq<T>)
    requires IsSubseq(a, b)
    ensures forall x :: x in a ==> x in b
    ensures |a| <= |b|
    decreases |b|
  {
    if a != [] {
      if a[0] == b[0] && IsSubseq(a[1..], b[1..]) {
        SubseqElems(a[1..], b[1..]);
        assert a == [a[0]] + a[1..] && b == [b[0]] + b[1..];
      } else {
        SubseqElems(a, b[1..]);
      }
    }
  }

  /** The elements of `s` kept by `keep`, in order. */
  function Filter<T(!new)>(s: seq<T>, keep: T -> bool): (r: seq<T>)
    ensures |r| <= |s|
    ensures forall i :: 0 <= i < |r| ==> keep(r[i])
    ensures forall x :: x in r <==> x in s && keep(x)
  {
    if s == [] then []
    else if keep(s[0]) then [s[0]] + Filter(s[1..], keep)
    else Filter(s[1..], keep)
  }

  lemma {:induction false} FilterSubseq<T(!new)>(s: seq<T>, keep: T -> bool)
    ensures IsSubseq(Filter(s, keep), s)
    decreases |s|
  {
    if s != [] {
      FilterSubseq(s[1..], keep);
      if !keep(s[0]) {
        var r := Filter(s[1..], keep);
        if r != [] {
          assert IsSubseq(r, s[1..]);
        }
      }
    }
  }

  lemma {:induction false} FilterAppend<T(!new)>(a: seq<T>, b: seq<T>, keep: T -> bool)
    ensures Filter(a + b, keep) == Filter(a, keep) + Filter(b, keep)
    decreases |a|
  {
    if a != [] {
      assert (a + b)[0] == a[0] && (a + b)[1..] == a[1..] + b;
      FilterAppend(a[1..], b, keep);
    } else {
      assert a + b == b;
    }
  }

  /** Filtering keeps every occurrence it does not reject. */
  lemma {:induction false} FilterCount<T(!new)>(s: seq<T>, keep: T -> bool, x: T)
    ensures multiset(Filter(s, keep))[x] == if keep(x) then multiset(s)[x] else 0
    decreases |s|
  {
    if s != [] {
      FilterCount(s[1..], keep, x);
      assert s == [s[0]] + s[1..];
    }
  }

  /** Nothing survives a filter that rejects every element. */
  lemma {:induction false} FilterNone<T(!new)>(s: seq<T>, keep: T -> bool)
    requires forall x :: x in s ==> !keep(x)
    ensures Filter(s, keep) == []
    decreases |s|
  {
    if s != [] {
      assert s[0] in s;
      FilterNone(s[1..], keep);
    }
  }

  /** A filter that keeps every element changes nothing. */
  lemma {:induction false} FilterAll<T(!new)>(s: seq<T>, keep: T -> bool)
    requires forall k :: 0 <= k < |s| ==> keep(s[k])
    ensures Filter(s, keep) == s
    decreases |s|
  {
    if s != [] {
      FilterAll(s[1..], keep);
      assert s == [s[0]] + s[1..];
    }
  }

  /** Filters with conditions that agree on every element keep the same elements. */
  lemma {:induction false} FilterSame<T(!new)>(s: seq<T>, keep: T -> bool, other: T -> bool)
    requires forall x :: keep(x) == other(x)
    ensures Filter(s, keep) == Filter(s, other)
    decreases |s|
  {
    if s != [] {
      FilterSame(s[1..], keep, other);
    }
  }

  /** Two filters in a row keep what one filter on both conditions keeps. */
  lemma {:induction false} FilterFilter<T(!new)>(s: seq<T>, first: T -> bool, second: T -> bool, both: T -> bool)
    requires forall x :: both(x) == (first(x) && second(x))
    ensures Filter(Filter(s, first), second) == Filter(s, both)
    decreases |s|
  {
    if s != [] {
      FilterFilter(s[1..], first, second, both);
      if first(s[0]) {
        assert Filter(s, first) == [s[0]] + Filter(s[1..], first);
        assert Filter(s, first)[1..] == Filter(s[1..], first);
      }
    }
  }

  /** `s.slice(0, end)`: a negative end counts from the back. */
  function SliceTo<T>(s: seq<T>, end: int): (r: seq<T>)
    ensures end >= 0 ==> r == if end >= |s| then s else s[..end]
    ensures end < 0 ==> r == if |s| + end <= 0 then [] else s[..|s| + end]
  {
    var stop := if end < 0 then |s| + end else end;
    if stop <= 0 then [] else if stop >= |s| then s else s[..stop]
  }
}
