// orchestrator/src/server/services/llm/utils/json.ts: the text a model
// answered with is narrowed step by step to the JSON it most likely holds
// (trimmed, code fences removed, cut to the outermost braces) before it is
// parsed. JSON.parse is a parameter; the regular expressions are written
// out as the left-to-right scans they perform.
module JsonContent {
  import opened Wrappers
  import opened Text
  import opened Json

  /** A code fence, three backticks, starts at position `i` of `s`. */
  predicate FenceAt(s: string, i: int)
  {
    0 <= i && i + 3 <= |s| && s[i] == '`' && s[i + 1] == '`' && s[i + 2] == '`'
  }

  /** No code fence occurs anywhere in `s`. */
  ghost predicate FenceFree(s: string)
  {
    forall i :: !FenceAt(s, i)
  }

  /** Where the optional label after a fence at `i` ends; "json" is tried before "JSON". */
  function LabelEnd(s: string, i: nat): (r: nat)
    ensures r == i || r == i + 4 <= |s|
  {
    if i + 4 <= |s| && ((s[i] == 'j' && s[i + 1] == 's' && s[i + 2] == 'o' && s[i + 3] == 'n') ||
                        (s[i] == 'J' && s[i + 1] == 'S' && s[i + 2] == 'O' && s[i + 3] == 'N'))
    then i + 4 else i
  }

  /** Where the run of whitespace starting at `i` ends (`\s*`, greedy). */
  function SpacesEnd(s: string, i: nat): (r: nat)
    requires i <= |s|
    ensures i <= r <= |s|
    ensures r == |s| || !IsJsSpace(s[r])
    ensures forall k :: i <= k < r ==> IsJsSpace(s[k])
    decreases |s| - i
  {
    if i < |s| && IsJsSpace(s[i]) then SpacesEnd(s, i + 1) else i
  }

  /** `replace(/```(?:json|JSON)?\s*\/g, "")` on `s[i..]`: each fence, its label and the whitespace after it go. */
  function StripOpenersFrom(s: string, i: nat): (r: string)
    requires i <= |s|
    decreases |s| - i
  {
    if FenceAt(s, i) then StripOpenersFrom(s, SpacesEnd(s, LabelEnd(s, i + 3)))
    else if i == |s| then []
    else [s[i]] + StripOpenersFrom(s, i + 1)
  }

  function StripOpeners(s: string): string
  {
    StripOpenersFrom(s, 0)
  }

  /** `replace(/```/g, "")`: every remaining fence, scanning left to right. */
  function StripFences(s: string): (r: string)
    decreases |s|
  {
    if FenceAt(s, 0) then StripFences(s[3..])
    else if s == [] then []
    else [s[0]] + StripFences(s[1..])
  }

  /** The candidate after trimming and fence removal (json.ts lines 2-7). */
  function Unfenced(content: string): string
  {
    Trim(StripFences(StripOpeners(Trim(content))))
  }

  /** Whether the braces frame a slice: both found and the last `}` after the first `{`. */
  predicate HasBraces(c: string)
  {
    IndexOf(c, '{') != -1 && LastIndexOf(c, '}') != -1 && LastIndexOf(c, '}') > IndexOf(c, '{')
  }

  /** The brace slice (json.ts lines 9-14): from the first `{` to the last `}` when they frame one. */
  function BraceSlice(c: string): string
  {
    if HasBraces(c) then c[IndexOf(c, '{')..LastIndexOf(c, '}') + 1] else c
  }

  /** The text handed to JSON.parse. */
  function Candidate(content: string): string
  {
    BraceSlice(Unfenced(content))
  }

  /** `parseJsonContent`: the parse of the candidate, or the error it raised, prefixed. */
  method ParseJsonContent(content: string, parse: string -> Result<Json, string>) returns (r: Result<Json, string>)
    ensures parse(Candidate(content)).Success? ==> r == parse(Candidate(content))
    ensures parse(Candidate(content)).Failure? ==>
      r == Failure("Failed to parse JSON response: " + parse(Candidate(content)).error)
  {
    var candidate := Trim(content);
    candidate := Trim(StripFences(StripOpeners(candidate)));
    assert candidate == Unfenced(content);
    var firstBrace := IndexOf(candidate, '{');
    var lastBrace := LastIndexOf(candidate, '}');
    if firstBrace != -1 && lastBrace != -1 && lastBrace > firstBrace {
      candidate := candidate[firstBrace..lastBrace + 1];
    }
    assert candidate == Candidate(content);
    var parsed := parse(candidate);
    if parsed.Success? {
      r := parsed;
    } else {
      r := Failure("Failed to parse JSON response: " + parsed.error);
    }
  }

  // ---------------------------------------------------------------- fences

  /** Fence removal only deletes characters: a backtick in front of the result was one in front of the input. */
  lemma {:induction false} StripFencesHead(u: string)
    ensures |StripFences(u)| > 0 && StripFences(u)[0] == '`' ==> |u| > 0 && u[0] == '`'
    ensures |StripFences(u)| > 1 && StripFences(u)[0] == '`' && StripFences(u)[1] == '`' ==>
      |u| > 1 && u[0] == '`' && u[1] == '`'
    decreases |u|
  {
    if !FenceAt(u, 0) && u != [] {
      StripFencesHead(u[1..]);
    }
  }

  /** After the second replace no fence is left, however the backticks were grouped. */
  lemma {:induction false} StripFencesFree(s: string)
    ensures FenceFree(StripFences(s))
    decreases |s|
  {
    if FenceAt(s, 0) {
      StripFencesFree(s[3..]);
    } else if s != [] {
      StripFencesFree(s[1..]);
      var tail := StripFences(s[1..]);
      var r := StripFences(s);
      assert r == [s[0]] + tail;
      forall i ensures !FenceAt(r, i) {
        if i == 0 {
          StripFencesHead(s[1..]);
        } else {
          assert !FenceAt(tail, i - 1);
        }
      }
    }
  }

  /** A slice of a fence-free text is fence-free. */
  lemma FenceFreeInfix(s: string, lo: nat, hi: nat)
    requires FenceFree(s) && lo <= hi <= |s|
    ensures FenceFree(s[lo..hi])
  {
    var t := s[lo..hi];
    forall i ensures !FenceAt(t, i) {
      assert !FenceAt(s, lo + i);
    }
  }

  lemma TrimIsInfix(s: string) returns (lo: nat, hi: nat)
    ensures lo <= hi <= |s| && Trim(s) == s[lo..hi]
  {
    var a := TrimStartBy(s, Js);
    var b := TrimEndBy(a, Js);
    lo := |s| - |a|;
    hi := lo + |b|;
    assert b == a[..|b|];
  }

  // ---------------------------------------------------------------- candidate

  /** Trimming cuts a prefix and a suffix, so it cannot create a fence. */
  lemma TrimFenceFree(t: string)
    requires FenceFree(t)
    ensures FenceFree(Trim(t))
  {
    var lo, hi := TrimIsInfix(t);
    FenceFreeInfix(t, lo, hi);
  }

  /** The brace slice is a slice, so it cannot create a fence either. */
  lemma BraceSliceFenceFree(c: string)
    requires FenceFree(c)
    ensures FenceFree(BraceSlice(c))
  {
    if HasBraces(c) {
      FenceFreeInfix(c, IndexOf(c, '{'), LastIndexOf(c, '}') + 1);
    }
  }

  /** Whatever the model answered, the candidate holds no code fence. */
  lemma CandidateFenceFree(content: string)
    ensures FenceFree(Candidate(content))
  {
    var t := StripFences(StripOpeners(Trim(content)));
    StripFencesFree(StripOpeners(Trim(content)));
    TrimFenceFree(t);
    BraceSliceFenceFree(Trim(t));
  }

  /**
    * When braces frame a slice, it runs from the first `{` to the last `}`
    * inclusive, with no `{` before it and no `}` after it; otherwise the
    * text is passed on unchanged.
    */
  lemma BraceSliceSpec(c: string)
    ensures HasBraces(c) ==>
      var r := BraceSlice(c);
      |r| >= 2 && r[0] == '{' && r[|r| - 1] == '}' &&
      c == c[..IndexOf(c, '{')] + r + c[LastIndexOf(c, '}') + 1..] &&
      '{' !in c[..IndexOf(c, '{')] && '}' !in c[LastIndexOf(c, '}') + 1..]
    ensures !HasBraces(c) ==> BraceSlice(c) == c
  {
    if HasBraces(c) {
      var f, l := IndexOf(c, '{'), LastIndexOf(c, '}');
      assert c == c[..f] + c[f..l + 1] + c[l + 1..];
      assert forall i :: 0 <= i < f ==> c[..f][i] == c[i];
      assert forall i {:trigger c[l + 1..][i]} :: 0 <= i < |c| - l - 1 ==> c[l + 1..][i] == c[l + 1 + i];
    }
  }

  /** Without braces to cut to, the candidate carries no surrounding whitespace. */
  lemma CandidateTrimmed(content: string)
    requires !HasBraces(Unfenced(content))
    ensures IsTrimmedBy(Candidate(content), Js)
  {
    TrimByTrimmed(StripFences(StripOpeners(Trim(content))), Js);
  }

  /** Text with no backtick passes through the second replace untouched. */
  lemma {:induction false} FencesUntouched(s: string)
    requires forall i :: 0 <= i < |s| ==> s[i] != '`'
    ensures StripFences(s) == s
    decreases |s|
  {
    if s != [] {
      assert !FenceAt(s, 0);
      FencesUntouched(s[1..]);
      assert s == [s[0]] + s[1..];
    }
  }

  /** Backtick-free text is kept as it is and the opener scan carries on after it. */
  lemma {:induction false} OpenersAfterPlain(s: string, i: nat, k: nat)
    requires i <= k <= |s|
    requires forall j :: i <= j < k ==> s[j] != '`'
    ensures StripOpenersFrom(s, i) == s[i..k] + StripOpenersFrom(s, k)
    decreases k - i
  {
    if i < k {
      OpenersStep(s, i);
      OpenersAfterPlain(s, i + 1, k);
      assert s[i..k] == [s[i]] + s[i + 1..k];
      ConsAssoc(s[i], s[i + 1..k], StripOpenersFrom(s, k));
    }
  }

  /** A character that is not a backtick is kept and the scan moves on by one. */
  lemma OpenersStep(s: string, i: nat)
    requires i < |s| && s[i] != '`'
    ensures StripOpenersFrom(s, i) == [s[i]] + StripOpenersFrom(s, i + 1)
  {
    assert !FenceAt(s, i);
  }

  /**
    * A reply wrapped as ```json, whitespace, a backtick-free body without
    * leading whitespace, and a closing fence loses both fences.
    */
  lemma FencedReply(ws: string, body: string)
    requires forall k :: 0 <= k < |ws| ==> IsJsSpace(ws[k])
    requires forall k :: 0 <= k < |body| ==> body[k] != '`'
    requires body == [] || !IsJsSpace(body[0])
    ensures StripFences(StripOpeners("```json" + ws + body + "```")) == body
  {
    var s := "```json" + ws + body + "```";
    var m := 7 + |ws|;
    var e := m + |body|;
    assert FenceAt(s, 0);
    assert LabelEnd(s, 3) == 7;
    assert forall k :: 7 <= k < m ==> s[k] == ws[k - 7];
    assert s[m] == if body == [] then '`' else body[0];
    assert SpacesEnd(s, 7) == m;
    assert forall k :: m <= k < e ==> s[k] == body[k - m];
    OpenersAfterPlain(s, m, e);
    assert s[m..e] == body;
    assert FenceAt(s, e);
    assert LabelEnd(s, e + 3) == |s| && SpacesEnd(s, |s|) == |s|;
    assert StripOpenersFrom(s, e) == [];
    calc {
      StripOpeners(s);
      StripOpenersFrom(s, SpacesEnd(s, LabelEnd(s, 3)));
      StripOpenersFrom(s, m);
      s[m..e] + StripOpenersFrom(s, e);
      body + [];
    }
    assert body + [] == body;
    FencesUntouched(body);
  }
}
