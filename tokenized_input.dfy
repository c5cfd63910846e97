// orchestrator/src/client/pages/orchestrator/TokenizedInput.tsx: the chip
// list behind the search-term and city inputs.
module TokenizedInput {
  import opened Wrappers
  import opened Text
  import opened Seqs
  import opened Dedupe

  /** What `mergeUnique` returns: the existing values, then the new values whose key was not yet seen. */
  function Merged(values: seq<string>, nextValues: seq<string>): seq<string>
  {
    values + KeepFirst(nextValues, Keys(values))
  }

  /**
    * `mergeUnique`: the `seen` set starts with the lower-cased existing
    * values; each next value is pushed when its key is new, and its key added.
    */
  method MergeUnique(values: seq<string>, nextValues: seq<string>) returns (out: seq<string>)
    ensures out == Merged(values, nextValues)
  {
    var seen := set i | 0 <= i < |values| :: Lower(values[i]);
    out := values;
    for i := 0 to |nextValues|
      invariant out + KeepFirst(nextValues[i..], seen) == Merged(values, nextValues)
    {
      MergeLoopStep(nextValues, i, out, seen, Merged(values, nextValues));
      var key := Lower(nextValues[i]);
      if key in seen {
        continue;
      }
      seen := seen + {key};
      out := out + [nextValues[i]];
    }
    assert nextValues[|nextValues|..] == [];
  }

  /** The loop invariant of MergeUnique survives one iteration, whichever branch it takes. */
  lemma MergeLoopStep(xs: seq<string>, i: nat, out: seq<string>, seen: set<string>, target: seq<string>)
    requires i < |xs|
    requires out + KeepFirst(xs[i..], seen) == target
    ensures Lower(xs[i]) in seen ==> out + KeepFirst(xs[i + 1..], seen) == target
    ensures Lower(xs[i]) !in seen ==> (out + [xs[i]]) + KeepFirst(xs[i + 1..], seen + {Lower(xs[i])}) == target
  {
    assert xs[i..] == [xs[i]] + xs[i + 1..];
    KeepFirstStep(xs[i], xs[i + 1..], seen);
    if Lower(xs[i]) !in seen {
      AppendAssoc(out, [xs[i]], KeepFirst(xs[i + 1..], seen + {Lower(xs[i])}));
    }
  }

  /**
    * The existing values are a prefix of the merge; each appended value comes
    * from the new values, has a key that no existing value and no earlier
    * appended value has; and every key of either list is present afterwards.
    */
  lemma MergedProps(values: seq<string>, nextValues: seq<string>)
    ensures Merged(values, nextValues)[..|values|] == values
    ensures forall i :: |values| <= i < |Merged(values, nextValues)| ==>
      Merged(values, nextValues)[i] in nextValues && Lower(Merged(values, nextValues)[i]) !in Keys(values)
    ensures DistinctKeys(Merged(values, nextValues)[|values|..])
    ensures Keys(Merged(values, nextValues)) == Keys(values) + Keys(nextValues)
  {
    var added := KeepFirst(nextValues, Keys(values));
    var m := Merged(values, nextValues);
    KeepFirstProps(nextValues, Keys(values));
    SubseqElems(added, nextValues);
    assert m[|values|..] == added;
    forall i | |values| <= i < |m|
      ensures m[i] in nextValues && Lower(m[i]) !in Keys(values)
    {
      assert m[i] == added[i - |values|];
    }
    KeysAppend(values, added);
    KeepFirstCovers(nextValues, Keys(values));
    KeepFirstKeys(nextValues, Keys(values));
  }

  /** Each new value whose key is new to the existing values appears in the merge with its first spelling. */
  lemma MergedKeepsFirstSpelling(values: seq<string>, nextValues: seq<string>, i: nat)
    requires |values| <= i < |Merged(values, nextValues)|
    ensures Lower(Merged(values, nextValues)[i]) in Keys(nextValues)
    ensures Merged(values, nextValues)[i] == FirstWithKey(nextValues, Lower(Merged(values, nextValues)[i]))
  {
    KeepFirstSpelling(nextValues, Keys(values), i - |values|);
  }

  /** Merging the same new values a second time changes nothing. */
  lemma MergedIdempotent(values: seq<string>, nextValues: seq<string>)
    ensures Merged(Merged(values, nextValues), nextValues) == Merged(values, nextValues)
  {
    var m := Merged(values, nextValues);
    MergedProps(values, nextValues);
    KeepFirstAllSeen(nextValues, Keys(m));
  }

  /**
    * `addValues`: the list handed to `onValuesChange`, or None when the
    * parsed input is empty and nothing is handed on.
    */
  function AddValues(values: seq<string>, input: string, parseInput: string -> seq<string>): (r: Option<seq<string>>)
  {
    var parsed := parseInput(input);
    if |parsed| == 0 then None else Some(Merged(values, parsed))
  }

  /** Adding emits a change exactly when the parsed input is non-empty, and the change keeps the old values as prefix. */
  lemma AddValuesSpec(values: seq<string>, input: string, parseInput: string -> seq<string>)
    ensures AddValues(values, input, parseInput).None? <==> parseInput(input) == []
    ensures AddValues(values, input, parseInput).Some? ==>
      AddValues(values, input, parseInput).value[..|values|] == values &&
      Keys(AddValues(values, input, parseInput).value) == Keys(values) + Keys(parseInput(input))
  {
    if parseInput(input) != [] {
      MergedProps(values, parseInput(input));
    }
  }

  /** The chip list and the draft text of the input. */
  datatype Chips = Chips(values: seq<string>, draft: string)

  /** Enter or "," commits the draft. */
  predicate IsCommitKey(key: string)
  {
    key == "Enter" || key == ","
  }

  /** A commit (commit key or blur): add the parsed draft, then clear the draft. */
  function Commit(s: Chips, parseInput: string -> seq<string>): (r: Chips)
  {
    Chips(AddValues(s.values, s.draft, parseInput).GetOr(s.values), "")
  }

  /** A key press commits on Enter or ",", and otherwise changes nothing. */
  function KeyDown(s: Chips, key: string, parseInput: string -> seq<string>): Chips
  {
    if IsCommitKey(key) then Commit(s, parseInput) else s
  }

  /**
    * A paste is taken over only when it parses to more than one value; the
    * bool says whether the default paste into the draft was prevented.
    */
  function Paste(s: Chips, pasted: string, parseInput: string -> seq<string>): (Chips, bool)
  {
    if |parseInput(pasted)| > 1 then (Chips(AddValues(s.values, pasted, parseInput).GetOr(s.values), s.draft), true)
    else (s, false)
  }

  /**
    * A commit always clears the draft; it keeps the chips when the draft
    * parses to nothing, and otherwise merges the parsed draft behind them.
    */
  lemma CommitSpec(s: Chips, parseInput: string -> seq<string>)
    ensures Commit(s, parseInput).draft == ""
    ensures parseInput(s.draft) == [] ==> Commit(s, parseInput).values == s.values
    ensures Commit(s, parseInput).values[..|s.values|] == s.values
    ensures Keys(Commit(s, parseInput).values) == Keys(s.values) + Keys(parseInput(s.draft))
  {
    AddValuesSpec(s.values, s.draft, parseInput);
  }

  /** A single-value paste is left to the browser; a larger one adds every new key and keeps the draft. */
  lemma PasteSpec(s: Chips, pasted: string, parseInput: string -> seq<string>)
    ensures Paste(s, pasted, parseInput).1 <==> |parseInput(pasted)| > 1
    ensures Paste(s, pasted, parseInput).0.draft == s.draft
    ensures !Paste(s, pasted, parseInput).1 ==> Paste(s, pasted, parseInput).0 == s
    ensures Paste(s, pasted, parseInput).1 ==>
      Keys(Paste(s, pasted, parseInput).0.values) == Keys(s.values) + Keys(parseInput(pasted))
  {
    AddValuesSpec(s.values, pasted, parseInput);
  }

  /** Clicking a chip: keep every entry not equal to its value. */
  function RemoveValue(values: seq<string>, value: string): seq<string>
  {
    Filter(values, existing => existing != value)
  }

  /**
    * Removing a chip drops every entry equal to its value and keeps every
    * other entry, with its multiplicity, in its original order.
    */
  lemma RemoveValueSpec(values: seq<string>, value: string)
    ensures value !in RemoveValue(values, value)
    ensures IsSubseq(RemoveValue(values, value), values)
    ensures forall x :: x != value ==> multiset(RemoveValue(values, value))[x] == multiset(values)[x]
    ensures |RemoveValue(values, value)| == |values| - multiset(values)[value]
  {
    var keep := (existing: string) => existing != value;
    FilterSubseq(values, keep);
    forall x | x != value ensures multiset(RemoveValue(values, value))[x] == multiset(values)[x] {
      FilterCount(values, keep, x);
    }
    FilterCount(values, keep, value);
    RemoveLength(values, value);
  }

  lemma {:induction false} RemoveLength(values: seq<string>, value: string)
    ensures |RemoveValue(values, value)| == |values| - multiset(values)[value]
    decreases |values|
  {
    if values != [] {
      RemoveLength(values[1..], value);
      assert values == [values[0]] + values[1..];
    }
  }
}
