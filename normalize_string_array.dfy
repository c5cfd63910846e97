// shared/src/normalize-string-array.ts
module NormalizeStringArray {
  import opened Wrappers
  import opened Text
  import opened Seqs
  import opened Dedupe

  /** The list `normalizeStringArray` returns for `values` (null/undefined is `None`). */
  function Normalized(values: Option<seq<string>>): seq<string>
  {
    if values.None? || |values.value| == 0 then [] else KeepFirst(TrimmedNonEmpty(values.value), {})
  }

  /**
    * The loop shared by the normalisers: trim each value, skip empties, skip
    * keys already in the `seen` set, otherwise add the key and push the
    * trimmed value.
    */
  method TrimAndKeepFirst(xs: seq<string>) returns (out: seq<string>)
    ensures out == KeepFirst(TrimmedNonEmpty(xs), {})
  {
    var seen: set<string> := {};
    out := [];
    for i := 0 to |xs|
      invariant out + KeepFirst(TrimmedNonEmpty(xs[i..]), seen) == KeepFirst(TrimmedNonEmpty(xs), {})
    {
      TrimAndKeepFirstLoopStep(xs, i, out, seen, KeepFirst(TrimmedNonEmpty(xs), {}));
      var trimmed := Trim(xs[i]);
      if trimmed == "" {
        continue;
      }
      var key := Lower(trimmed);
      if key in seen {
        continue;
      }
      seen := seen + {key};
      out := out + [trimmed];
    }
    assert xs[|xs|..] == [];
  }

  /** The loop invariant survives one iteration, whichever branch it takes. */
  lemma TrimAndKeepFirstLoopStep(xs: seq<string>, i: nat, out: seq<string>, seen: set<string>, target: seq<string>)
    requires i < |xs|
    requires out + KeepFirst(TrimmedNonEmpty(xs[i..]), seen) == target
    ensures Trim(xs[i]) == "" || Lower(Trim(xs[i])) in seen ==>
      out + KeepFirst(TrimmedNonEmpty(xs[i + 1..]), seen) == target
    ensures Trim(xs[i]) != "" && Lower(Trim(xs[i])) !in seen ==>
      (out + [Trim(xs[i])]) + KeepFirst(TrimmedNonEmpty(xs[i + 1..]), seen + {Lower(Trim(xs[i]))}) == target
  {
    var t := Trim(xs[i]);
    TrimAndKeepFirstStep(xs, i, seen);
    if t != "" && Lower(t) !in seen {
      var later := KeepFirst(TrimmedNonEmpty(xs[i + 1..]), seen + {Lower(t)});
      assert KeepFirst(TrimmedNonEmpty(xs[i..]), seen) == [t] + later;
      AppendAssoc(out, [t], later);
    }
  }

  /**
    * `normalizeStringArray`: null, undefined and [] give []; otherwise the
    * trim, skip-empty, skip-seen-key loop.
    */
  method NormalizeStringArray(values: Option<seq<string>>) returns (normalized: seq<string>)
    ensures normalized == Normalized(values)
  {
    if values.None? || |values.value| == 0 {
      return [];
    }
    normalized := TrimAndKeepFirst(values.value);
  }

  /** Null, undefined and [] all give []. */
  lemma NormalizedEmptyInput(values: Option<seq<string>>)
    requires values.None? || values.value == []
    ensures Normalized(values) == []
  {
  }

  /**
    * Every output element is trimmed and non-empty, no two are equal
    * case-insensitively, and each is the first spelling of its key among the
    * trimmed inputs.
    */
  lemma NormalizedShape(values: seq<string>, i: nat)
    requires i < |Normalized(Some(values))|
    ensures IsClean(Normalized(Some(values))[i])
    ensures DistinctKeys(Normalized(Some(values)))
    ensures Lower(Normalized(Some(values))[i]) in Keys(TrimmedNonEmpty(values))
    ensures Normalized(Some(values))[i] == FirstWithKey(TrimmedNonEmpty(values), Lower(Normalized(Some(values))[i]))
  {
    var t := TrimmedNonEmpty(values);
    KeepFirstSpelling(t, {}, i);
    KeepFirstProps(t, {});
    TrimmedNonEmptyClean(values);
    SubseqElems(KeepFirst(t, {}), t);
    assert Normalized(Some(values))[i] in t;
  }

  /** The output keeps the relative order of first occurrences and is no longer than the input. */
  lemma NormalizedOrder(values: seq<string>)
    requires values != []
    ensures IsSubseq(Normalized(Some(values)), TrimmedNonEmpty(values))
    ensures |Normalized(Some(values))| <= |values|
  {
    TrimmedNonEmptyLength(values);
    KeepFirstProps(TrimmedNonEmpty(values), {});
  }

  /** Every key present among the trimmed inputs survives. */
  lemma NormalizedCovers(values: seq<string>)
    requires values != []
    ensures Keys(TrimmedNonEmpty(values)) <= Keys(Normalized(Some(values)))
  {
    KeepFirstCovers(TrimmedNonEmpty(values), {});
  }

  /** Normalising twice equals normalising once. */
  lemma NormalizedIdempotent(values: Option<seq<string>>)
    ensures Normalized(Some(Normalized(values))) == Normalized(values)
  {
    var n := Normalized(values);
    if n != [] {
      var t := TrimmedNonEmpty(values.value);
      TrimmedNonEmptyClean(values.value);
      KeepFirstProps(t, {});
      forall i | 0 <= i < |n| ensures IsClean(n[i]) {
        SubseqElems(n, t);
        assert n[i] in t;
      }
      TrimmedNonEmptyOfClean(n);
      KeepFirstIdempotent(t);
    }
  }
}
