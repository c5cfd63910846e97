// shared/src/utils/string.ts: whitespace normalisation and tag stripping.
module StringUtils {
  import opened Text

  /** Every whitespace character is a plain space and no two of them are adjacent. */
  predicate Collapsed(s: string)
  {
    forall i :: 0 <= i < |s| && IsJsSpace(s[i]) ==> s[i] == ' ' && (i + 1 < |s| ==> !IsJsSpace(s[i + 1]))
  }

  /** The shape `normalizeWhitespace` produces: collapsed runs and no space at either end. */
  predicate IsNormalized(s: string)
  {
    Collapsed(s) && IsTrimmedBy(s, Js)
  }

  /** `s.replace(/\s+/g, " ")`: every maximal whitespace run becomes one space. */
  function CollapseWhitespace(s: string): (r: string)
    ensures Collapsed(r)
    ensures r == [] <==> s == []
    ensures r != [] ==> (IsJsSpace(r[0]) <==> IsJsSpace(s[0]))
    decreases |s|
  {
    if s == [] then []
    else if IsJsSpace(s[0]) then " " + CollapseWhitespace(TrimStartBy(s, Js))
    else [s[0]] + CollapseWhitespace(s[1..])
  }

  /** A collapsed string has nothing to collapse. */
  lemma {:induction false} CollapseOfCollapsed(s: string)
    requires Collapsed(s)
    ensures CollapseWhitespace(s) == s
    decreases |s|
  {
    if s != [] {
      CollapsedSlice(s, 1, |s|);
      CollapseOfCollapsed(s[1..]);
      if IsJsSpace(s[0]) {
        TrimStartSingle(s);
      }
    }
  }

  lemma TrimStartSingle(s: string)
    requires Collapsed(s) && s != [] && IsJsSpace(s[0])
    ensures s[0] == ' ' && TrimStartBy(s, Js) == s[1..]
  {
    if |s| > 1 {
      assert !IsJsSpace(s[1..][0]);
    }
  }

  lemma CollapsedSlice(s: string, a: nat, b: nat)
    requires Collapsed(s) && a <= b <= |s|
    ensures Collapsed(s[a..b])
  {
    forall i | 0 <= i < |s[a..b]| && IsJsSpace(s[a..b][i])
      ensures s[a..b][i] == ' ' && (i + 1 < |s[a..b]| ==> !IsJsSpace(s[a..b][i + 1]))
    {
      assert s[a..b][i] == s[a + i];
      if i + 1 < |s[a..b]| {
        assert s[a..b][i + 1] == s[a + i + 1];
      }
    }
  }

  /** Collapsing only drops characters or turns whitespace into a plain space. */
  lemma {:induction false} CollapseChars(s: string)
    ensures forall c :: c in CollapseWhitespace(s) ==> c == ' ' || c in s
    decreases |s|
  {
    if s != [] {
      if IsJsSpace(s[0]) {
        var t := TrimStartBy(s, Js);
        CollapseChars(t);
        assert forall c :: c in t ==> c in s;
      } else {
        CollapseChars(s[1..]);
      }
    }
  }

  /** The last character is whitespace after collapsing exactly when it was before. */
  lemma {:induction false} CollapseLast(s: string)
    requires s != []
    ensures IsJsSpace(Last(CollapseWhitespace(s))) <==> IsJsSpace(Last(s))
    decreases |s|
  {
    var r := CollapseWhitespace(s);
    if IsJsSpace(s[0]) {
      var t := TrimStartBy(s, Js);
      if t != [] {
        CollapseLast(t);
        assert Last(t) == Last(s);
        assert Last(r) == Last(CollapseWhitespace(t));
      }
    } else if |s| > 1 {
      CollapseLast(s[1..]);
      assert Last(r) == Last(CollapseWhitespace(s[1..]));
    }
  }

  /** `normalizeWhitespace`: collapse every whitespace run, then trim. */
  function NormalizeWhitespace(value: string): string
  {
    Trim(CollapseWhitespace(value))
  }

  /** The result has no leading or trailing space and no whitespace other than single spaces. */
  lemma NormalizeWhitespaceShape(value: string)
    ensures IsNormalized(NormalizeWhitespace(value))
  {
    var c := CollapseWhitespace(value);
    var a := TrimStartBy(c, Js);
    CollapsedSlice(c, |c| - |a|, |c|);
    var r := TrimEndBy(a, Js);
    CollapsedSlice(a, 0, |r|);
    TrimByTrimmed(c, Js);
  }

  /** Text already in normal form is left unchanged. */
  lemma NormalizeWhitespaceFixed(value: string)
    requires IsNormalized(value)
    ensures NormalizeWhitespace(value) == value
  {
    CollapseOfCollapsed(value);
    TrimByOfTrimmed(value, Js);
  }

  /** `normalizeWhitespace` is idempotent. */
  lemma NormalizeWhitespaceIdempotent(value: string)
    ensures NormalizeWhitespace(NormalizeWhitespace(value)) == NormalizeWhitespace(value)
  {
    NormalizeWhitespaceShape(value);
    NormalizeWhitespaceFixed(NormalizeWhitespace(value));
  }

  /** No `<` of `s` is followed, later in `s`, by a `>`. */
  predicate NoTagLeft(s: string)
  {
    forall i :: 0 <= i < |s| && s[i] == '<' ==> '>' !in s[i + 1..]
  }

  /**
    * `s.replace(/<[^>]*>/g, " ")`: each `<` that has a `>` somewhere after it
    * starts a tag running to the first such `>`, and the whole tag becomes a
    * space; a `<` with no `>` after it stays.
    */
  function ReplaceTags(s: string): (r: string)
    ensures forall c :: c in r ==> c == ' ' || c in s
    ensures NoTagLeft(r)
    decreases |s|
  {
    if s == [] then []
    else if s[0] == '<' && IndexOf(s[1..], '>') >= 0 then
      " " + ReplaceTags(s[1..][IndexOf(s[1..], '>') + 1..])
    else
      var rest := ReplaceTags(s[1..]);
      assert s[0] == '<' ==> '>' !in s[1..];
      [s[0]] + rest
  }

  /** Without any `<`, there is no tag to replace. */
  lemma {:induction false} ReplaceTagsNoOpen(s: string)
    requires '<' !in s
    ensures ReplaceTags(s) == s
    decreases |s|
  {
    if s != [] {
      ReplaceTagsNoOpen(s[1..]);
    }
  }

  /** `stripHtmlTags`: tags become spaces, then whitespace is normalised. */
  function StripHtmlTags(value: string): string
  {
    NormalizeWhitespace(ReplaceTags(value))
  }

  /** The stripped text is in normal whitespace form. */
  lemma StripHtmlTagsShape(value: string)
    ensures IsNormalized(StripHtmlTags(value))
  {
    NormalizeWhitespaceShape(ReplaceTags(value));
  }

  /** Text with no `<` and no whitespace runs is unchanged apart from trimming. */
  lemma StripHtmlTagsPlain(value: string)
    requires '<' !in value && Collapsed(value)
    ensures StripHtmlTags(value) == Trim(value)
  {
    ReplaceTagsNoOpen(value);
    CollapseOfCollapsed(value);
  }
}
