// `Array.prototype.sort(compare)` for a comparator returning a number: a
// stable sort after which no element must come before its neighbour ahead
// of it. "Must come before" asks the comparator both ways, so a comparator
// that contradicts itself on a pair never moves one past the other.
module ComparatorSort {

  /** `a` must come before `b`: `compare(a, b)` is negative and `compare(b, a)` is not. */
  predicate Precedes<T>(a: T, b: T, compare: (T, T) -> int)
  {
    compare(a, b) < 0 && compare(b, a) >= 0
  }

  /** No element must come before the one just ahead of it. */
  predicate RankedBy<T>(s: seq<T>, compare: (T, T) -> int)
  {
    forall i :: 0 < i < |s| ==> !Precedes(s[i], s[i - 1], compare)
  }

  /** Puts `x` in front of the first element that need not come before it. */
  function InsertBy<T>(x: T, s: seq<T>, compare: (T, T) -> int): (r: seq<T>)
    ensures |r| == |s| + 1 && (r[0] == x || (s != [] && r[0] == s[0]))
  {
    if s == [] || !Precedes(s[0], x, compare) then [x] + s else [s[0]] + InsertBy(x, s[1..], compare)
  }

  /** The stable sort: each element goes in ahead of the later ones it ties with. */
  function SortBy<T>(s: seq<T>, compare: (T, T) -> int): seq<T>
  {
    if s == [] then [] else InsertBy(s[0], SortBy(s[1..], compare), compare)
  }

  lemma RankedCons<T>(y: T, r: seq<T>, compare: (T, T) -> int)
    requires RankedBy(r, compare)
    requires r != [] ==> !Precedes(r[0], y, compare)
    ensures RankedBy([y] + r, compare)
  {
    forall i | 0 < i < |[y] + r| ensures !Precedes(([y] + r)[i], ([y] + r)[i - 1], compare) {
      assert ([y] + r)[i] == r[i - 1];
      if i > 1 {
        assert ([y] + r)[i - 1] == r[i - 2];
      }
    }
  }

  lemma {:induction false} InsertByProps<T>(x: T, s: seq<T>, compare: (T, T) -> int)
    requires RankedBy(s, compare)
    ensures RankedBy(InsertBy(x, s, compare), compare)
    ensures multiset(InsertBy(x, s, compare)) == multiset(s) + multiset{x}
  {
    if s == [] || !Precedes(s[0], x, compare) {
      RankedCons(x, s, compare);
    } else {
      var tail := s[1..];
      assert RankedBy(tail, compare);
      InsertByProps(x, tail, compare);
      var r := InsertBy(x, tail, compare);
      if |tail| > 0 {
        assert tail[0] == s[1];
      }
      RankedCons(s[0], r, compare);
      assert s == [s[0]] + tail;
    }
  }

  /** The sort ranks the elements by the comparator and keeps every one of them. */
  lemma {:induction false} SortByProps<T>(s: seq<T>, compare: (T, T) -> int)
    ensures RankedBy(SortBy(s, compare), compare)
    ensures multiset(SortBy(s, compare)) == multiset(s)
  {
    if s != [] {
      SortByProps(s[1..], compare);
      InsertByProps(s[0], SortBy(s[1..], compare), compare);
      assert s == [s[0]] + s[1..];
    }
  }
}
