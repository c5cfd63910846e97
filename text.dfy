// String primitives shared by the whole model: the JavaScript and Python
// whitespace classes, trimming, ASCII lower-casing, substring search,
// splitting on separator characters, joining, and decimal printing.
module Text {

  /** The characters of JavaScript's `\s` class, which `String.prototype.trim` also strips. */
  predicate IsJsSpace(c: char)
  {
    c == ' ' || c == '\t' || c == '\n' || c == '\r' || c == '\U{0B}' || c == '\U{0C}'
    || c == '\U{A0}' || c == '\U{1680}' || ('\U{2000}' <= c && c <= '\U{200A}')
    || c == '\U{2028}' || c == '\U{2029}' || c == '\U{202F}' || c == '\U{205F}'
    || c == '\U{3000}' || c == '\U{FEFF}'
  }

  /** The characters Python's `str.strip()` removes by default. */
  predicate IsPySpace(c: char)
  {
    c == ' ' || c == '\t' || c == '\n' || c == '\r' || c == '\U{0B}' || c == '\U{0C}'
    || ('\U{1C}' <= c && c <= '\U{1F}') || c == '\U{85}' || c == '\U{A0}' || c == '\U{1680}'
    || ('\U{2000}' <= c && c <= '\U{200A}') || c == '\U{2028}' || c == '\U{2029}'
    || c == '\U{202F}' || c == '\U{205F}' || c == '\U{3000}'
  }

  /** Which language's whitespace class a trim uses. */
  datatype SpaceClass = Js | Py

  predicate IsSpace(ws: SpaceClass, c: char)
  {
    if ws.Js? then IsJsSpace(c) else IsPySpace(c)
  }

  predicate AllIn(s: string, ws: SpaceClass)
  {
    forall i :: 0 <= i < |s| ==> IsSpace(ws, s[i])
  }

  /** Neither end of `s` is a character of the class `ws`. */
  predicate IsTrimmedBy(s: string, ws: SpaceClass)
  {
    s == [] || (!IsSpace(ws, s[0]) && !IsSpace(ws, s[|s| - 1]))
  }

  function TrimStartBy(s: string, ws: SpaceClass): (r: string)
    ensures |r| <= |s| && r == s[|s| - |r|..]
    ensures r == [] || !IsSpace(ws, r[0])
    ensures AllIn(s[..|s| - |r|], ws)
    decreases |s|
  {
    if |s| > 0 && IsSpace(ws, s[0]) then TrimStartBy(s[1..], ws) else s
  }

  function TrimEndBy(s: string, ws: SpaceClass): (r: string)
    ensures |r| <= |s| && r == s[..|r|]
    ensures r == [] || !IsSpace(ws, r[|r| - 1])
    ensures AllIn(s[|r|..], ws)
    decreases |s|
  {
    if |s| > 0 && IsSpace(ws, s[|s| - 1]) then
      var r := TrimEndBy(s[..|s| - 1], ws);
      AllInSnoc(s, |r|, ws);
      r
    else s
  }

  /** A run of class characters followed by one more is still such a run. */
  lemma AllInSnoc(s: string, k: nat, ws: SpaceClass)
    requires k < |s| && AllIn(s[..|s| - 1][k..], ws) && IsSpace(ws, s[|s| - 1])
    ensures AllIn(s[k..], ws)
  {
    forall j | 0 <= j < |s| - k ensures IsSpace(ws, s[k..][j]) {
      if j < |s| - 1 - k {
        assert s[k..][j] == s[..|s| - 1][k..][j];
      }
    }
  }

  function TrimBy(s: string, ws: SpaceClass): string
  {
    TrimEndBy(TrimStartBy(s, ws), ws)
  }

  /** JavaScript `s.trim()`. */
  function Trim(s: string): string
  {
    TrimBy(s, Js)
  }

  /** Python `s.strip()`. */
  function PyStrip(s: string): string
  {
    TrimBy(s, Py)
  }

  function Last(s: string): char
    requires s != []
  {
    s[|s| - 1]
  }

  /** Trimming leaves no class character at either end. */
  lemma TrimByTrimmed(s: string, ws: SpaceClass)
    ensures IsTrimmedBy(TrimBy(s, ws), ws)
  {
    var a := TrimStartBy(s, ws);
    var r := TrimEndBy(a, ws);
    if r != [] {
      assert r[0] == a[0];
    }
  }

  /** The trimmed string is an infix of the input. */
  lemma TrimByInfix(s: string, ws: SpaceClass)
    ensures Contains(s, TrimBy(s, ws))
  {
    var a := TrimStartBy(s, ws);
    var r := TrimEndBy(a, ws);
    var k := |s| - |a|;
    assert r == s[k..k + |r|];
    ContainsAt(s, r, k);
  }

  /** Trimming an already trimmed string changes nothing. */
  lemma TrimByOfTrimmed(s: string, ws: SpaceClass)
    requires IsTrimmedBy(s, ws)
    ensures TrimBy(s, ws) == s
  {
  }

  /** Trimming is idempotent. */
  lemma TrimByIdempotent(s: string, ws: SpaceClass)
    ensures TrimBy(TrimBy(s, ws), ws) == TrimBy(s, ws)
  {
    TrimByTrimmed(s, ws);
  }

  /** The trimmed string is empty exactly when every character is in the class. */
  lemma TrimByEmpty(s: string, ws: SpaceClass)
    ensures TrimBy(s, ws) == [] <==> AllIn(s, ws)
  {
    var a := TrimStartBy(s, ws);
    if TrimBy(s, ws) == [] {
      assert AllIn(a, ws);
      assert a == [];
      forall i | 0 <= i < |s| ensures IsSpace(ws, s[i]) {
        assert s[i] == s[..|s| - |a|][i];
      }
    }
  }

  lemma TrimEmpty(s: string)
    ensures Trim(s) == [] <==> AllIn(s, Js)
  {
    TrimByEmpty(s, Js);
  }

  lemma TrimIdempotent(s: string)
    ensures Trim(Trim(s)) == Trim(s)
  {
    TrimByIdempotent(s, Js);
  }

  // ---------------------------------------------------------------- case

  /** ASCII lower-casing of one character. */
  function LowerChar(c: char): char
  {
    if 'A' <= c <= 'Z' then (c as int + 32) as char else c
  }

  /** `s.toLowerCase()`, restricted to the ASCII letters. */
  function Lower(s: string): string
  {
    seq(|s|, i requires 0 <= i < |s| => LowerChar(s[i]))
  }

  /** Every character is already lower-case. */
  predicate IsLower(s: string)
  {
    forall c :: c in s ==> LowerChar(c) == c
  }

  lemma LowerIsLower(s: string)
    ensures IsLower(Lower(s))
  {
  }

  lemma LowerOfLower(s: string)
    requires IsLower(s)
    ensures Lower(s) == s
  {
    forall i | 0 <= i < |s| ensures Lower(s)[i] == s[i] {
      assert s[i] in s;
    }
  }

  lemma LowerIdempotent(s: string)
    ensures Lower(Lower(s)) == Lower(s)
  {
  }

  lemma LowerConcat(a: string, b: string)
    ensures Lower(a + b) == Lower(a) + Lower(b)
  {
  }

  /** Lower-casing never turns a letter into whitespace or whitespace into a letter. */
  lemma LowerKeepsSpace(c: char)
    ensures IsJsSpace(LowerChar(c)) == IsJsSpace(c)
  {
  }

  // ---------------------------------------------------------------- search

  /** `hay.includes(needle)`: `needle` occurs in `hay` at some offset. */
  predicate Contains(hay: string, needle: string)
    decreases |hay|
  {
    needle <= hay || (|hay| > 0 && Contains(hay[1..], needle))
  }

  lemma ContainsAt(hay: string, needle: string, i: nat)
    requires i + |needle| <= |hay| && hay[i..i + |needle|] == needle
    ensures Contains(hay, needle)
    decreases i
  {
    if i > 0 {
      assert hay[1..][i - 1..i - 1 + |needle|] == needle;
      ContainsAt(hay[1..], needle, i - 1);
    }
  }

  lemma ContainsOffset(hay: string, needle: string) returns (i: nat)
    requires Contains(hay, needle)
    ensures i + |needle| <= |hay| && hay[i..i + |needle|] == needle
    decreases |hay|
  {
    if needle <= hay {
      i := 0;
    } else {
      var j := ContainsOffset(hay[1..], needle);
      i := j + 1;
      assert hay[i..i + |needle|] == hay[1..][j..j + |needle|];
    }
  }

  /** A string contains every one of its infixes. */
  lemma ContainsInfix(a: string, b: string, c: string)
    ensures Contains(a + b + c, b)
  {
    assert (a + b + c)[|a|..|a| + |b|] == b;
    ContainsAt(a + b + c, b, |a|);
  }

  /** A longer haystack keeps every occurrence. */
  lemma ContainsExtend(a: string, b: string, needle: string)
    requires Contains(a, needle) || Contains(b, needle)
    ensures Contains(a + b, needle)
  {
    if Contains(a, needle) {
      var i := ContainsOffset(a, needle);
      assert (a + b)[i..i + |needle|] == a[i..i + |needle|];
      ContainsAt(a + b, needle, i);
    } else {
      var i := ContainsOffset(b, needle);
      assert (a + b)[|a| + i..|a| + i + |needle|] == b[i..i + |needle|];
      ContainsAt(a + b, needle, |a| + i);
    }
  }

  /** A needle containing a character the haystack lacks never occurs. */
  lemma NotContainsChar(hay: string, needle: string, c: char)
    requires c in needle && c !in hay
    ensures !Contains(hay, needle)
  {
    if Contains(hay, needle) {
      var i := ContainsOffset(hay, needle);
      assert false;
    }
  }

  /** Index of the first character of `s` that lies in `cs`, or -1. */
  function FirstIndexIn(s: string, cs: set<char>): (r: int)
    ensures -1 <= r < |s|
    ensures r >= 0 ==> s[r] in cs
    ensures forall i :: 0 <= i < (if r < 0 then |s| else r) ==> s[i] !in cs
  {
    if |s| == 0 then -1
    else if s[0] in cs then 0
    else
      var k := FirstIndexIn(s[1..], cs);
      if k < 0 then -1 else k + 1
  }

  /** `s.indexOf(c)` for a one-character needle. */
  function IndexOf(s: string, c: char): int
  {
    FirstIndexIn(s, {c})
  }

  /** `s.lastIndexOf(c)` for a one-character needle. */
  function LastIndexOf(s: string, c: char): (r: int)
    ensures -1 <= r < |s|
    ensures r >= 0 ==> s[r] == c
    ensures forall i :: r < i < |s| ==> s[i] != c
  {
    if |s| == 0 then -1
    else if s[|s| - 1] == c then |s| - 1
    else LastIndexOf(s[..|s| - 1], c)
  }

  // ---------------------------------------------------------------- split / join

  predicate NoneIn(s: string, cs: set<char>)
  {
    forall i :: 0 <= i < |s| ==> s[i] !in cs
  }

  /** Trimming never brings in a character the input lacks. */
  lemma TrimByNoneIn(s: string, ws: SpaceClass, cs: set<char>)
    requires NoneIn(s, cs)
    ensures NoneIn(TrimBy(s, ws), cs)
  {
    var t := TrimBy(s, ws);
    TrimByInfix(s, ws);
    var k := ContainsOffset(s, t);
    forall j | 0 <= j < |t| ensures t[j] !in cs {
      assert t[j] == s[k + j];
    }
  }

  /**
    * `s.split(sep)` where every character of `seps` separates; a string with
    * no separator gives one piece, so the result is never empty.
    */
  function Split(s: string, seps: set<char>): (r: seq<string>)
    ensures |r| >= 1
    ensures forall k :: 0 <= k < |r| ==> NoneIn(r[k], seps)
    decreases |s|
  {
    var i := FirstIndexIn(s, seps);
    if i < 0 then
      BeforeFirstFree(s, seps, |s|);
      [s]
    else
      var rest := Split(s[i + 1..], seps);
      BeforeFirstFree(s, seps, i);
      ConsFree(s[..i], rest, seps);
      [s[..i]] + rest
  }

  /** The part of `s` before its first separator holds none. */
  lemma BeforeFirstFree(s: string, seps: set<char>, end: nat)
    requires end == (if FirstIndexIn(s, seps) < 0 then |s| else FirstIndexIn(s, seps))
    ensures NoneIn(s[..end], seps)
  {
    forall j | 0 <= j < end ensures s[..end][j] !in seps {
      assert s[..end][j] == s[j];
    }
  }

  lemma ConsFree(p: string, rest: seq<string>, seps: set<char>)
    requires NoneIn(p, seps)
    requires forall k :: 0 <= k < |rest| ==> NoneIn(rest[k], seps)
    ensures forall k :: 0 <= k < |[p] + rest| ==> NoneIn(([p] + rest)[k], seps)
  {
    forall k | 0 <= k < |[p] + rest| ensures NoneIn(([p] + rest)[k], seps) {
      if k > 0 {
        assert ([p] + rest)[k] == rest[k - 1];
      }
    }
  }

  /** `parts.join(sep)`. */
  function Join(parts: seq<string>, sep: string): string
  {
    if |parts| == 0 then ""
    else if |parts| == 1 then parts[0]
    else parts[0] + sep + Join(parts[1..], sep)
  }

  lemma FirstIndexAfterFree(p: string, d: char, rest: string, seps: set<char>)
    requires d in seps && NoneIn(p, seps)
    ensures FirstIndexIn(p + [d] + rest, seps) == |p|
    decreases |p|
  {
    if |p| > 0 {
      assert (p + [d] + rest)[1..] == p[1..] + [d] + rest;
      FirstIndexAfterFree(p[1..], d, rest, seps);
    }
  }

  /** The first separator of `a` is also the first one of any extension of `a`. */
  lemma FirstIndexInExtend(a: string, b: string, cs: set<char>)
    requires FirstIndexIn(a, cs) >= 0
    ensures FirstIndexIn(a + b, cs) == FirstIndexIn(a, cs)
  {
    var i := FirstIndexIn(a, cs);
    var j := FirstIndexIn(a + b, cs);
    assert (a + b)[i] == a[i];
  }

  /** Split's first step when `s` holds a separator. */
  lemma SplitAt(s: string, seps: set<char>, i: nat)
    requires i == FirstIndexIn(s, seps)
    ensures Split(s, seps) == [s[..i]] + Split(s[i + 1..], seps)
  {
  }

  /** A string with no separator is its own single piece. */
  lemma SplitNone(s: string, seps: set<char>)
    requires FirstIndexIn(s, seps) < 0
    ensures Split(s, seps) == [s]
  {
  }

  /** `SplitAppend` when `a` holds no separator: `a` is the first piece. */
  lemma SplitAppendFree(a: string, d: char, b: string, seps: set<char>)
    requires d in seps && FirstIndexIn(a, seps) < 0
    ensures Split(a + [d] + b, seps) == Split(a, seps) + Split(b, seps)
  {
    var s := a + [d] + b;
    FirstIndexAfterFree(a, d, b, seps);
    SplitAt(s, seps, |a|);
    SplitNone(a, seps);
    assert s[..|a|] == a && s[|a| + 1..] == b;
  }

  lemma HeadOfAppend<T>(a: seq<T>, b: seq<T>)
    requires a != []
    ensures a == [a[0]] + a[1..] && a + b == [a[0]] + (a[1..] + b)
  {
  }

  lemma ConsAssoc<T>(h: T, x: seq<T>, y: seq<T>)
    ensures [h] + (x + y) == ([h] + x) + y
  {
  }

  /** `SplitAppend` when `a` holds a separator at `i`, given the claim for the rest of `a`. */
  lemma SplitAppendStep(a: string, d: char, b: string, seps: set<char>, i: nat)
    requires d in seps && i == FirstIndexIn(a, seps)
    requires Split(a[i + 1..] + [d] + b, seps) == Split(a[i + 1..], seps) + Split(b, seps)
    ensures Split(a + [d] + b, seps) == Split(a, seps) + Split(b, seps)
  {
    var s := a + [d] + b;
    AppendAtFirst(a, d, b, seps, i);
    var head, rest, tail := a[..i], Split(a[i + 1..], seps), Split(b, seps);
    SplitAt(s, seps, i);
    SplitAt(a, seps, i);
    ConsAssoc(head, rest, tail);
  }

  /** Appending after `a` keeps its first separator and what comes before it. */
  lemma AppendAtFirst(a: string, d: char, b: string, seps: set<char>, i: nat)
    requires i == FirstIndexIn(a, seps)
    ensures FirstIndexIn(a + [d] + b, seps) == i
    ensures (a + [d] + b)[..i] == a[..i]
    ensures (a + [d] + b)[i + 1..] == a[i + 1..] + [d] + b
  {
    var s := a + [d] + b;
    assert s == a + ([d] + b);
    FirstIndexInExtend(a, [d] + b, seps);
    assert s[..i] == a[..i];
    assert s[i + 1..] == a[i + 1..] + [d] + b;
  }

  /** Splitting at one separator splits the two sides independently. */
  lemma {:induction false} SplitAppend(a: string, d: char, b: string, seps: set<char>)
    requires d in seps
    ensures Split(a + [d] + b, seps) == Split(a, seps) + Split(b, seps)
    decreases |a|
  {
    var i := FirstIndexIn(a, seps);
    if i < 0 {
      SplitAppendFree(a, d, b, seps);
    } else {
      SplitAppend(a[i + 1..], d, b, seps);
      SplitAppendStep(a, d, b, seps, i);
    }
  }

  /** Splitting a joined list gives the list back when no piece holds a separator. */
  lemma {:induction false} SplitJoin(parts: seq<string>, d: char, seps: set<char>)
    requires |parts| >= 1 && d in seps
    requires forall k :: 0 <= k < |parts| ==> NoneIn(parts[k], seps)
    ensures Split(Join(parts, [d]), seps) == parts
  {
    if |parts| == 1 {
      assert FirstIndexIn(parts[0], seps) == -1;
      SplitNone(parts[0], seps);
    } else {
      var rest := Join(parts[1..], [d]);
      var s := parts[0] + [d] + rest;
      assert Join(parts, [d]) == s;
      FirstIndexAfterFree(parts[0], d, rest, seps);
      SplitAt(s, seps, |parts[0]|);
      assert s[..|parts[0]|] == parts[0];
      assert s[|parts[0]| + 1..] == rest;
      SplitJoin(parts[1..], d, seps);
      assert parts == [parts[0]] + parts[1..];
    }
  }

  lemma JoinCons(p: string, tail: seq<string>, sep: string)
    requires tail != []
    ensures Join([p] + tail, sep) == p + sep + Join(tail, sep)
  {
    assert ([p] + tail)[1..] == tail;
  }

  /** Joining the pieces of a split with the separator gives the string back. */
  lemma {:induction false} JoinSplit(s: string, d: char)
    ensures Join(Split(s, {d}), [d]) == s
    decreases |s|
  {
    var i := FirstIndexIn(s, {d});
    if i >= 0 {
      JoinSplit(s[i + 1..], d);
      var tail := Split(s[i + 1..], {d});
      JoinCons(s[..i], tail, [d]);
      assert s == s[..i] + [d] + s[i + 1..];
    }
  }

  // ---------------------------------------------------------------- decimals

  predicate IsDigit(c: char)
  {
    '0' <= c <= '9'
  }

  predicate AllDigits(s: string)
  {
    forall i :: 0 <= i < |s| ==> IsDigit(s[i])
  }

  function DigitChar(d: nat): char
    requires d < 10
  {
    (48 + d) as char
  }

  function DigitValue(c: char): nat
    requires IsDigit(c)
  {
    c as int - 48
  }

  /** The number a run of decimal digits denotes. */
  function DigitsValue(s: string): nat
    requires AllDigits(s)
  {
    if s == [] then 0 else DigitsValue(s[..|s| - 1]) * 10 + DigitValue(s[|s| - 1])
  }

  /** `String(n)` for a non-negative integer. */
  function NatToString(n: nat): (r: string)
    ensures |r| >= 1 && AllDigits(r)
    decreases n
  {
    if n < 10 then [DigitChar(n)] else NatToString(n / 10) + [DigitChar(n % 10)]
  }

  /** `String(i)` for an integer. */
  function IntToString(i: int): string
  {
    if i < 0 then "-" + NatToString(-i) else NatToString(i)
  }

  /** Reading back a printed natural number gives the number. */
  lemma {:induction false} NatToStringValue(n: nat)
    ensures DigitsValue(NatToString(n)) == n
    decreases n
  {
    if n >= 10 {
      var s := NatToString(n);
      assert s[..|s| - 1] == NatToString(n / 10);
      NatToStringValue(n / 10);
    }
  }

  /** `s.padStart(width, c)`. */
  function PadStart(s: string, width: nat, c: char): (r: string)
  {
    if |s| >= width then s else seq(width - |s|, _ => c) + s
  }
}
