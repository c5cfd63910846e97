// Case-insensitive, keep-the-first-spelling deduplication, the rule shared by
// normalizeStringArray, parseSearchCitiesSetting and the token input's merge.
module Dedupe {
  import opened Text
  import opened Seqs

  /** The lower-cased keys of a list. */
  function Keys(xs: seq<string>): set<string>
  {
    set i | 0 <= i < |xs| :: Lower(xs[i])
  }

  /** No two elements are equal once lower-cased. */
  predicate DistinctKeys(xs: seq<string>)
  {
    forall i, j :: 0 <= i < j < |xs| ==> Lower(xs[i]) != Lower(xs[j])
  }

  /** The first element of `xs` whose key is `k`. */
  function FirstWithKey(xs: seq<string>, k: string): string
    requires k in Keys(xs)
  {
    if Lower(xs[0]) == k then xs[0]
    else
      assert k in Keys(xs[1..]) by {
        var i :| 0 <= i < |xs| && Lower(xs[i]) == k;
        assert xs[1..][i - 1] == xs[i];
      }
      FirstWithKey(xs[1..], k)
  }

  /**
    * Walk `xs` with the set `seen` of keys already taken, keeping an element
    * only when its key is new, and adding that key.
    */
  function KeepFirst(xs: seq<string>, seen: set<string>): seq<string>
    decreases |xs|
  {
    if xs == [] then []
    else if Lower(xs[0]) in seen then KeepFirst(xs[1..], seen)
    else [xs[0]] + KeepFirst(xs[1..], seen + {Lower(xs[0])})
  }

  /**
    * The kept elements avoid the seen keys, have pairwise distinct keys, and
    * are a subsequence of the input.
    */
  lemma {:induction false} KeepFirstProps(xs: seq<string>, seen: set<string>)
    ensures |KeepFirst(xs, seen)| <= |xs|
    ensures forall i :: 0 <= i < |KeepFirst(xs, seen)| ==> Lower(KeepFirst(xs, seen)[i]) !in seen
    ensures DistinctKeys(KeepFirst(xs, seen))
    ensures IsSubseq(KeepFirst(xs, seen), xs)
    decreases |xs|
  {
    if xs != [] {
      if Lower(xs[0]) in seen {
        KeepFirstProps(xs[1..], seen);
        var r := KeepFirst(xs[1..], seen);
        assert r != [] ==> IsSubseq(r, xs[1..]);
      } else {
        var seen' := seen + {Lower(xs[0])};
        KeepFirstProps(xs[1..], seen');
        var rest := KeepFirst(xs[1..], seen');
        var r := [xs[0]] + rest;
        assert forall i :: 1 <= i < |r| ==> r[i] == rest[i - 1];
        assert r[1..] == rest;
      }
    }
  }

  /** Every kept element is the first spelling of its key in the input. */
  lemma {:induction false} KeepFirstSpelling(xs: seq<string>, seen: set<string>, i: nat)
    requires i < |KeepFirst(xs, seen)|
    ensures Lower(KeepFirst(xs, seen)[i]) in Keys(xs)
    ensures KeepFirst(xs, seen)[i] == FirstWithKey(xs, Lower(KeepFirst(xs, seen)[i]))
    decreases |xs|
  {
    var r := KeepFirst(xs, seen);
    var k := Lower(r[i]);
    KeepFirstProps(xs, seen);
    if Lower(xs[0]) in seen {
      KeepFirstSpelling(xs[1..], seen, i);
      assert k != Lower(xs[0]);
      KeysTail(xs, k);
    } else if i > 0 {
      var seen' := seen + {Lower(xs[0])};
      KeepFirstSpelling(xs[1..], seen', i - 1);
      assert r[i] == KeepFirst(xs[1..], seen')[i - 1];
      assert k != Lower(xs[0]);
      KeysTail(xs, k);
    } else {
      assert k in Keys(xs) by { assert Lower(xs[0]) == k; }
    }
  }

  lemma KeysTail(xs: seq<string>, k: string)
    requires xs != [] && k in Keys(xs[1..])
    ensures k in Keys(xs)
  {
    var i :| 0 <= i < |xs[1..]| && Lower(xs[1..][i]) == k;
    assert xs[i + 1] == xs[1..][i];
  }

  /** Every key of the input is either already seen or kept. */
  lemma {:induction false} KeepFirstCovers(xs: seq<string>, seen: set<string>)
    ensures Keys(xs) <= seen + Keys(KeepFirst(xs, seen))
    decreases |xs|
  {
    if xs != [] {
      var r := KeepFirst(xs, seen);
      forall k | k in Keys(xs) ensures k in seen + Keys(r) {
        var i :| 0 <= i < |xs| && Lower(xs[i]) == k;
        if i == 0 {
          if k !in seen {
            assert r[0] == xs[0];
          }
        } else {
          assert Lower(xs[1..][i - 1]) == k;
          if Lower(xs[0]) in seen {
            KeepFirstCovers(xs[1..], seen);
          } else {
            KeepFirstCovers(xs[1..], seen + {Lower(xs[0])});
            var rest := KeepFirst(xs[1..], seen + {Lower(xs[0])});
            if k != Lower(xs[0]) && k !in seen {
              assert k in Keys(xs[1..]);
              var j :| 0 <= j < |rest| && Lower(rest[j]) == k;
              assert r[j + 1] == rest[j];
            } else if k !in seen {
              assert r[0] == xs[0];
            }
          }
        }
      }
    }
  }

  /** The kept keys all come from the input. */
  lemma KeepFirstKeys(xs: seq<string>, seen: set<string>)
    ensures Keys(KeepFirst(xs, seen)) <= Keys(xs)
  {
    var r := KeepFirst(xs, seen);
    KeepFirstProps(xs, seen);
    SubseqElems(r, xs);
    forall k | k in Keys(r) ensures k in Keys(xs) {
      var i :| 0 <= i < |r| && Lower(r[i]) == k;
      assert r[i] in xs;
    }
  }

  /** A list with distinct keys, none of them seen, is kept whole. */
  lemma {:induction false} KeepFirstOfDistinct(xs: seq<string>, seen: set<string>)
    requires DistinctKeys(xs)
    requires forall i :: 0 <= i < |xs| ==> Lower(xs[i]) !in seen
    ensures KeepFirst(xs, seen) == xs
    decreases |xs|
  {
    if xs != [] {
      KeepFirstOfDistinct(xs[1..], seen + {Lower(xs[0])});
    }
  }

  /** When every key is already seen, nothing is kept. */
  lemma {:induction false} KeepFirstAllSeen(xs: seq<string>, seen: set<string>)
    requires Keys(xs) <= seen
    ensures KeepFirst(xs, seen) == []
    decreases |xs|
  {
    if xs != [] {
      assert Lower(xs[0]) in Keys(xs);
      assert Keys(xs[1..]) <= Keys(xs) by {
        forall k | k in Keys(xs[1..]) ensures k in Keys(xs) {
          KeysTail(xs, k);
        }
      }
      KeepFirstAllSeen(xs[1..], seen);
    }
  }

  /** Deduplicating twice is the same as deduplicating once. */
  lemma KeepFirstIdempotent(xs: seq<string>)
    ensures KeepFirst(KeepFirst(xs, {}), {}) == KeepFirst(xs, {})
  {
    KeepFirstProps(xs, {});
    KeepFirstOfDistinct(KeepFirst(xs, {}), {});
  }

  lemma KeysAppend(a: seq<string>, b: seq<string>)
    ensures Keys(a + b) == Keys(a) + Keys(b)
  {
    forall k | k in Keys(a + b) ensures k in Keys(a) + Keys(b) {
      var i :| 0 <= i < |a + b| && Lower((a + b)[i]) == k;
      if i >= |a| {
        assert (a + b)[i] == b[i - |a|];
      }
    }
    forall k | k in Keys(a) + Keys(b) ensures k in Keys(a + b) {
      if k in Keys(a) {
        var i :| 0 <= i < |a| && Lower(a[i]) == k;
        assert (a + b)[i] == a[i];
      } else {
        var i :| 0 <= i < |b| && Lower(b[i]) == k;
        assert (a + b)[|a| + i] == b[i];
      }
    }
  }

  // ---------------------------------------------------------------- trim and drop empties

  /** A trimmed, non-empty string. */
  predicate IsClean(s: string)
  {
    s != "" && IsTrimmedBy(s, Js)
  }

  /** Each element trimmed, in order, with the elements that trim to "" dropped. */
  function TrimmedNonEmpty(xs: seq<string>): seq<string>
    decreases |xs|
  {
    if xs == [] then []
    else
      var t := Trim(xs[0]);
      if t == "" then TrimmedNonEmpty(xs[1..]) else [t] + TrimmedNonEmpty(xs[1..])
  }

  /** Every element of the result is trimmed and non-empty. */
  lemma {:induction false} TrimmedNonEmptyClean(xs: seq<string>)
    ensures forall s :: s in TrimmedNonEmpty(xs) ==> IsClean(s)
    decreases |xs|
  {
    if xs != [] {
      TrimmedNonEmptyClean(xs[1..]);
      var t := Trim(xs[0]);
      if t != "" {
        TrimByTrimmed(xs[0], Js);
        assert TrimmedNonEmpty(xs) == [t] + TrimmedNonEmpty(xs[1..]);
      }
    }
  }

  /** Cleaning keeps out any character the inputs all lack. */
  lemma {:induction false} TrimmedNonEmptyNoneIn(xs: seq<string>, cs: set<char>)
    requires forall k :: 0 <= k < |xs| ==> NoneIn(xs[k], cs)
    ensures forall s :: s in TrimmedNonEmpty(xs) ==> NoneIn(s, cs)
    decreases |xs|
  {
    if xs != [] {
      TrimmedNonEmptyNoneIn(xs[1..], cs);
      TrimByNoneIn(xs[0], Js, cs);
    }
  }

  /** Unfolds one step of TrimmedNonEmpty on a list that starts with `x`. */
  lemma TrimmedNonEmptyCons(x: string, rest: seq<string>)
    ensures TrimmedNonEmpty([x] + rest) ==
      if Trim(x) == "" then TrimmedNonEmpty(rest) else [Trim(x)] + TrimmedNonEmpty(rest)
  {
    assert ([x] + rest)[0] == x && ([x] + rest)[1..] == rest;
  }

  lemma {:induction false} TrimmedNonEmptyAppend(a: seq<string>, b: seq<string>)
    ensures TrimmedNonEmpty(a + b) == TrimmedNonEmpty(a) + TrimmedNonEmpty(b)
    decreases |a|
  {
    if a == [] {
      assert a + b == b;
    } else {
      var x, rest := a[0], a[1..];
      HeadOfAppend(a, b);
      TrimmedNonEmptyAppend(rest, b);
      TrimmedNonEmptyCons(x, rest + b);
      TrimmedNonEmptyCons(x, rest);
      if Trim(x) != "" {
        ConsAssoc(Trim(x), TrimmedNonEmpty(rest), TrimmedNonEmpty(b));
      }
    }
  }

  lemma {:induction false} TrimmedNonEmptyLength(xs: seq<string>)
    ensures |TrimmedNonEmpty(xs)| <= |xs|
    decreases |xs|
  {
    if xs != [] {
      TrimmedNonEmptyLength(xs[1..]);
    }
  }

  /** Clean input (trimmed, non-empty) passes through unchanged. */
  lemma {:induction false} TrimmedNonEmptyOfClean(xs: seq<string>)
    requires forall i :: 0 <= i < |xs| ==> IsClean(xs[i])
    ensures TrimmedNonEmpty(xs) == xs
    decreases |xs|
  {
    if xs != [] {
      assert IsClean(xs[0]);
      TrimByOfTrimmed(xs[0], Js);
      TrimmedNonEmptyOfClean(xs[1..]);
      assert xs == [xs[0]] + xs[1..];
    }
  }

  /** Cleaning is idempotent. */
  lemma TrimmedNonEmptyIdempotent(xs: seq<string>)
    ensures TrimmedNonEmpty(TrimmedNonEmpty(xs)) == TrimmedNonEmpty(xs)
  {
    TrimmedNonEmptyClean(xs);
    TrimmedNonEmptyOfClean(TrimmedNonEmpty(xs));
  }

  /** Unfolds one step of TrimmedNonEmpty at position `i`, for loops that walk the input. */
  lemma TrimmedNonEmptyStep(xs: seq<string>, i: nat)
    requires i < |xs|
    ensures TrimmedNonEmpty(xs[i..]) ==
      if Trim(xs[i]) == "" then TrimmedNonEmpty(xs[i + 1..]) else [Trim(xs[i])] + TrimmedNonEmpty(xs[i + 1..])
  {
    assert xs[i..][0] == xs[i] && xs[i..][1..] == xs[i + 1..];
  }

  /** Unfolds one step of KeepFirst on a list that starts with `x`. */
  lemma KeepFirstStep(x: string, rest: seq<string>, seen: set<string>)
    ensures KeepFirst([x] + rest, seen) ==
      if Lower(x) in seen then KeepFirst(rest, seen) else [x] + KeepFirst(rest, seen + {Lower(x)})
  {
    assert ([x] + rest)[0] == x && ([x] + rest)[1..] == rest;
  }

  /** One step of the trim-and-keep-first walk at position `i`, with `seen` the keys taken so far. */
  lemma TrimAndKeepFirstStep(xs: seq<string>, i: nat, seen: set<string>)
    requires i < |xs|
    ensures KeepFirst(TrimmedNonEmpty(xs[i..]), seen) ==
      if Trim(xs[i]) == "" || Lower(Trim(xs[i])) in seen then KeepFirst(TrimmedNonEmpty(xs[i + 1..]), seen)
      else [Trim(xs[i])] + KeepFirst(TrimmedNonEmpty(xs[i + 1..]), seen + {Lower(Trim(xs[i]))})
  {
    TrimmedNonEmptyStep(xs, i);
    if Trim(xs[i]) != "" {
      KeepFirstStep(Trim(xs[i]), TrimmedNonEmpty(xs[i + 1..]), seen);
    }
  }
}
