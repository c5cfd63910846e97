// extractors/jobspy/scrape_jobs.py: lenient environment parsing, the
// progress protocol on standard output, and the single scrape run.
module ScrapeJobs {
  import opened Wrappers
  import opened Text
  import opened Json

  const PROGRESS_PREFIX: string := "JOBOPS_PROGRESS "

  // ---------------------------------------------------------------- environment values

  /** `_env_str`: the raw value when it is set and not all whitespace, else the default. */
  function EnvStr(value: Option<string>, default: string): string
  {
    if value.Some? && value.value != "" && PyStrip(value.value) != "" then value.value else default
  }

  /** A set, non-blank value is returned untouched (not stripped); anything else gives the default. */
  lemma EnvStrSpec(value: Option<string>, default: string)
    ensures value.None? || AllIn(value.value, Py) ==> EnvStr(value, default) == default
    ensures value.Some? && !AllIn(value.value, Py) ==> EnvStr(value, default) == value.value
  {
    if value.Some? {
      TrimByEmpty(value.value, Py);
    }
  }

  /** A decimal digit or Python's digit-group underscore. */
  predicate IsDigitOrUnderscore(c: char)
  {
    IsDigit(c) || c == '_'
  }

  /**
    * The digit part `int()` accepts: digits, with single underscores allowed
    * between two digits.
    */
  predicate IsPyDigits(s: string)
  {
    s != [] && IsDigit(s[0]) && IsDigit(s[|s| - 1])
    && (forall i :: 0 <= i < |s| ==> IsDigitOrUnderscore(s[i]))
    && (forall i :: 0 <= i < |s| - 1 ==> s[i] == '_' ==> s[i + 1] != '_')
  }

  function DropUnderscores(s: string): (r: string)
    requires forall i :: 0 <= i < |s| ==> IsDigitOrUnderscore(s[i])
    ensures AllDigits(r)
  {
    if s == [] then []
    else if s[0] == '_' then DropUnderscores(s[1..])
    else
      var rest := DropUnderscores(s[1..]);
      assert IsDigitOrUnderscore(s[0]);
      assert forall i :: 1 <= i < |rest| + 1 ==> ([s[0]] + rest)[i] == rest[i - 1];
      assert ([s[0]] + rest)[0] == s[0];
      [s[0]] + rest
  }

  /**
    * `int(value)` for base 10: surrounding whitespace, one optional sign and
    * the digit part; None where Python raises ValueError.
    */
  function PyParseInt(s: string): Option<int>
  {
    var t := PyStrip(s);
    if t != [] && (t[0] == '-' || t[0] == '+') then
      var body := t[1..];
      if IsPyDigits(body) then
        var n: int := DigitsValue(DropUnderscores(body));
        Some(if t[0] == '-' then -n else n)
      else None
    else if IsPyDigits(t) then Some(DigitsValue(DropUnderscores(t)))
    else None
  }

  lemma {:induction false} DropUnderscoresOfDigits(s: string)
    requires AllDigits(s)
    ensures DropUnderscores(s) == s
    decreases |s|
  {
    if s != [] {
      DropUnderscoresOfDigits(s[1..]);
      assert s == [s[0]] + s[1..];
    }
  }

  /** The digits `str` prints for a natural number are a valid digit part with that value. */
  lemma PyDigitsOfNat(n: nat)
    ensures IsPyDigits(NatToString(n))
    ensures DigitsValue(DropUnderscores(NatToString(n))) == n
  {
    var digits := NatToString(n);
    DropUnderscoresOfDigits(digits);
    NatToStringValue(n);
  }

  /** A printed integer has no whitespace at either end. */
  lemma IntStringStripped(i: int)
    ensures PyStrip(IntToString(i)) == IntToString(i)
  {
    var s := IntToString(i);
    var digits := NatToString(if i < 0 then -i else i);
    assert IsDigit(digits[|digits| - 1]);
    assert s[|s| - 1] == digits[|digits| - 1];
    assert s[0] == '-' || IsDigit(s[0]);
    TrimByOfTrimmed(s, Py);
  }

  /** Python's `int` reads back what `str` printed. */
  lemma PyParseIntOfString(i: int)
    ensures PyParseInt(IntToString(i)) == Some(i)
  {
    var n: nat := if i < 0 then -i else i;
    var s := IntToString(i);
    IntStringStripped(i);
    PyDigitsOfNat(n);
    if i < 0 {
      assert s[1..] == NatToString(n);
    } else {
      assert IsDigitOrUnderscore(s[0]);
    }
  }

  /** `_env_int`: the default for unset, blank or unparsable text; otherwise the parsed integer. */
  function EnvInt(value: Option<string>, default: int): int
  {
    if value.None? || PyStrip(value.value) == "" then default
    else match PyParseInt(value.value)
      case Some(n) => n
      case None => default
  }

  /**
    * A printed integer is read back whatever the default; blank, unset or
    * unparsable text falls back to the default.
    */
  lemma EnvIntSpec(value: Option<string>, default: int, i: int)
    ensures EnvInt(Some(IntToString(i)), default) == i
    ensures value.None? || AllIn(value.value, Py) || PyParseInt(value.value).None? ==> EnvInt(value, default) == default
  {
    PyParseIntOfString(i);
    if value.Some? {
      TrimByEmpty(value.value, Py);
    }
  }

  /** The stripped, lower-cased spellings `_env_bool` reads as true. */
  predicate IsTruthyWord(s: string)
  {
    s == "1" || s == "true" || s == "yes" || s == "y" || s == "on"
  }

  /** `_env_bool`: the default for unset or blank values, else membership of the folded text among the true words. */
  function EnvBool(value: Option<string>, default: bool): bool
  {
    if value.None? || PyStrip(value.value) == "" then default
    else IsTruthyWord(Lower(PyStrip(value.value)))
  }

  /**
    * Unset or blank gives the default; any other value ignores the default
    * and is true exactly for the true words, up to padding and ASCII case.
    */
  lemma EnvBoolSpec(value: Option<string>, default: bool)
    ensures value.None? || AllIn(value.value, Py) ==> EnvBool(value, default) == default
    ensures value.Some? && !AllIn(value.value, Py) ==>
      (EnvBool(value, default) <==> IsTruthyWord(Lower(PyStrip(value.value)))) &&
      EnvBool(value, default) == EnvBool(value, !default)
  {
    if value.Some? {
      TrimByEmpty(value.value, Py);
    }
  }

  /** Stripping a non-blank value first does not change how it reads. */
  lemma EnvBoolStripped(v: string, default: bool)
    ensures EnvBool(Some(PyStrip(v)), default) == EnvBool(Some(v), default)
  {
    TrimByIdempotent(v, Py);
  }

  // ---------------------------------------------------------------- site list

  /** Each piece stripped, in order, with the pieces that strip to "" dropped. */
  function StrippedNonEmpty(pieces: seq<string>): seq<string>
    decreases |pieces|
  {
    if pieces == [] then []
    else
      var t := PyStrip(pieces[0]);
      if t == "" then StrippedNonEmpty(pieces[1..]) else [t] + StrippedNonEmpty(pieces[1..])
  }

  /** `_parse_sites`: split on ",", strip, drop the empty pieces. */
  function ParseSites(raw: string): seq<string>
  {
    StrippedNonEmpty(Split(raw, {','}))
  }

  /** A site name as the list holds it: stripped, non-empty and free of ",". */
  predicate IsSiteName(s: string)
  {
    IsStripped(s) && NoneIn(s, {','})
  }

  lemma {:induction false} StrippedNonEmptyAppend(a: seq<string>, b: seq<string>)
    ensures StrippedNonEmpty(a + b) == StrippedNonEmpty(a) + StrippedNonEmpty(b)
    decreases |a|
  {
    if a == [] {
      assert a + b == b;
    } else {
      var x, rest := a[0], a[1..];
      HeadOfAppend(a, b);
      StrippedNonEmptyAppend(rest, b);
      StrippedNonEmptyCons(x, rest + b);
      StrippedNonEmptyCons(x, rest);
      if PyStrip(x) != "" {
        ConsAssoc(PyStrip(x), StrippedNonEmpty(rest), StrippedNonEmpty(b));
      }
    }
  }

  /** Unfolds one step of StrippedNonEmpty on a list that starts with `x`. */
  lemma StrippedNonEmptyCons(x: string, rest: seq<string>)
    ensures StrippedNonEmpty([x] + rest) ==
      if PyStrip(x) == "" then StrippedNonEmpty(rest) else [PyStrip(x)] + StrippedNonEmpty(rest)
  {
    assert ([x] + rest)[0] == x && ([x] + rest)[1..] == rest;
  }

  lemma {:induction false} StrippedNonEmptyClean(pieces: seq<string>)
    ensures forall s :: s in StrippedNonEmpty(pieces) ==> s != "" && IsTrimmedBy(s, Py)
    decreases |pieces|
  {
    if pieces != [] {
      StrippedNonEmptyClean(pieces[1..]);
      TrimByTrimmed(pieces[0], Py);
    }
  }

  /** A piece that stripping keeps whole. */
  predicate IsStripped(s: string)
  {
    s != "" && IsTrimmedBy(s, Py)
  }

  lemma {:induction false} StrippedNonEmptyOfClean(pieces: seq<string>)
    requires forall i :: 0 <= i < |pieces| ==> IsStripped(pieces[i])
    ensures StrippedNonEmpty(pieces) == pieces
    decreases |pieces|
  {
    if pieces != [] {
      assert IsStripped(pieces[0]);
      TrimByOfTrimmed(pieces[0], Py);
      StrippedNonEmptyOfClean(pieces[1..]);
      assert pieces == [pieces[0]] + pieces[1..];
    }
  }

  /** Every site is stripped, non-empty and free of ",". */
  lemma ParseSitesClean(raw: string)
    ensures forall s :: s in ParseSites(raw) ==> IsSiteName(s)
  {
    var pieces := Split(raw, {','});
    StrippedNonEmptyClean(pieces);
    StrippedNonEmptyNoComma(pieces);
  }

  lemma {:induction false} StrippedNonEmptyNoComma(pieces: seq<string>)
    requires forall k :: 0 <= k < |pieces| ==> NoneIn(pieces[k], {','})
    ensures forall s :: s in StrippedNonEmpty(pieces) ==> NoneIn(s, {','})
    decreases |pieces|
  {
    if pieces != [] {
      StrippedNonEmptyNoComma(pieces[1..]);
      TrimByNoneIn(pieces[0], Py, {','});
    }
  }

  /** Sites on either side of a "," are parsed independently and keep their order. */
  lemma ParseSitesConcat(a: string, b: string)
    ensures ParseSites(a + "," + b) == ParseSites(a) + ParseSites(b)
  {
    SplitAppend(a, ',', b, {','});
    StrippedNonEmptyAppend(Split(a, {','}), Split(b, {','}));
  }

  /** Joining site names with "," and parsing gives the names back. */
  lemma ParseSitesJoin(sites: seq<string>)
    requires forall i :: 0 <= i < |sites| ==> IsSiteName(sites[i])
    ensures ParseSites(Join(sites, ",")) == sites
  {
    if sites == [] {
      assert Split("", {','}) == [""];
      assert PyStrip("") == "";
    } else {
      SplitJoin(sites, ',', {','});
      StrippedNonEmptyOfClean(sites);
    }
  }

  // ---------------------------------------------------------------- progress lines

  /** The object `{"event": event, **payload}`. */
  function ProgressObject(event: string, payload: seq<(string, Json)>): seq<(string, Json)>
  {
    Merge([("event", Str(event))], payload)
  }

  /** `_emit_progress`: the prefix followed by the serialised object; `dumps` stands for `json.dumps`. */
  function ProgressLine(event: string, payload: seq<(string, Json)>, dumps: Json -> string): string
  {
    PROGRESS_PREFIX + dumps(Obj(ProgressObject(event, payload)))
  }

  /** A line of the progress protocol. */
  predicate IsProgressLine(line: string)
  {
    |line| >= |PROGRESS_PREFIX| && line[..|PROGRESS_PREFIX|] == PROGRESS_PREFIX
  }

  /**
    * The line carries the prefix and then the object; the object's "event"
    * is the event name unless the payload rebinds it, and every other key
    * has the payload's value.
    */
  lemma ProgressLineSpec(event: string, payload: seq<(string, Json)>, dumps: Json -> string, k: string)
    ensures IsProgressLine(ProgressLine(event, payload, dumps))
    ensures ProgressLine(event, payload, dumps)[|PROGRESS_PREFIX|..] == dumps(Obj(ProgressObject(event, payload)))
    ensures Get(payload, "event").None? ==> Get(ProgressObject(event, payload), "event") == Some(Str(event))
    ensures k != "event" ==> Get(ProgressObject(event, payload), k) == Get(payload, k)
  {
    MergeGet([("event", Str(event))], payload, "event");
    MergeGet([("event", Str(event))], payload, k);
  }

  // ---------------------------------------------------------------- one run

  /** The keyword arguments handed to `scrape_jobs`. */
  datatype ScrapeRequest = ScrapeRequest(
    siteName: seq<string>,
    searchTerm: string,
    location: string,
    resultsWanted: int,
    hoursOld: int,
    countryIndeed: string,
    linkedinFetchDescription: bool,
    isRemote: bool)

  /** How the CSV is written: QUOTE_NONNUMERIC, the escape character, and whether the index is written. */
  datatype CsvOptions = CsvOptions(quoteNonNumeric: bool, escapeChar: char, writeIndex: bool)

  const CSV_OPTIONS: CsvOptions := CsvOptions(true, '\\', false)

  // ---------------------------------------------------------------- paths as pathlib sees them

  /**
    * The anchor `PurePosixPath` keeps: "//" for exactly two leading
    * slashes, "/" for one or for three and more, and none otherwise.
    */
  function Anchor(s: string): (r: string)
    ensures r == "" || r == "/" || r == "//"
    ensures r != "" <==> (s != [] && s[0] == '/')
  {
    if |s| >= 2 && s[0] == '/' && s[1] == '/' && (|s| == 2 || s[2] != '/') then "//"
    else if |s| >= 1 && s[0] == '/' then "/"
    else ""
  }

  /** A component pathlib keeps: not empty, not ".", and without a slash. */
  predicate IsPart(p: string)
  {
    p != "" && p != "." && NoneIn(p, {'/'})
  }

  /** Of the pieces between slashes, pathlib drops the empty ones (repeated or trailing slashes) and ".". */
  function KeepParts(pieces: seq<string>): (r: seq<string>)
    ensures |r| <= |pieces|
    ensures forall k :: 0 <= k < |r| ==> r[k] != "" && r[k] != "."
    ensures (forall k :: 0 <= k < |pieces| ==> NoneIn(pieces[k], {'/'})) ==>
      forall k :: 0 <= k < |r| ==> IsPart(r[k])
  {
    if pieces == [] then []
    else if pieces[0] == "" || pieces[0] == "." then KeepParts(pieces[1..])
    else [pieces[0]] + KeepParts(pieces[1..])
  }

  /** `Path(s).parts`, without the anchor. */
  function Parts(s: string): seq<string>
  {
    KeepParts(Split(s, {'/'}))
  }

  /** `str(Path(s))`: the anchor and the kept components joined by "/", or "." when nothing is left. */
  function PathText(s: string): string
  {
    var t := Anchor(s) + Join(Parts(s), "/");
    if t == "" then "." else t
  }

  /** The suffix pathlib reports for a final component: from its last ".", unless that is its first or last character. */
  function Suffix(name: string): string
  {
    var dot := LastIndexOf(name, '.');
    if 0 < dot < |name| - 1 then name[dot..] else ""
  }

  /** A final component without its suffix. */
  function Stem(name: string): (r: string)
    ensures r <= name
  {
    var dot := LastIndexOf(name, '.');
    if 0 < dot < |name| - 1 then name[..dot] else name
  }

  /**
    * `Path(path).with_suffix(suffix)`, as text: the final component's suffix
    * is replaced by (or, without one, extended with) the new one; None where
    * pathlib raises because the path has no final component (".", "/", "//").
    */
  function WithSuffix(path: string, suffix: string): Option<string>
  {
    var parts := Parts(path);
    if parts == [] then None
    else
      var n := |parts|;
      Some(Anchor(path) + Join(parts[..n - 1] + [Stem(parts[n - 1]) + suffix], "/"))
  }

  /** A suffix such as ".json": a dot, at least one more character, and no further dot or slash. */
  predicate IsSimpleSuffix(suffix: string)
  {
    |suffix| >= 2 && suffix[0] == '.' && '.' !in suffix[1..] && '/' !in suffix
  }

  lemma {:induction false} KeepAllParts(ps: seq<string>)
    requires forall k :: 0 <= k < |ps| ==> IsPart(ps[k])
    ensures KeepParts(ps) == ps
  {
    if ps != [] {
      KeepAllParts(ps[1..]);
      assert ps == [ps[0]] + ps[1..];
    }
  }

  lemma KeepPartsDropEmpty(ps: seq<string>)
    ensures KeepParts([""] + ps) == KeepParts(ps)
  {
    assert ([""] + ps)[1..] == ps;
  }

  /** The first characters of a join are those of its first piece. */
  lemma JoinStartsWithFirst(ps: seq<string>, sep: string)
    requires ps != []
    ensures ps[0] <= Join(ps, sep)
  {
  }

  /** The anchor of a path whose components start right after it. */
  lemma AnchorBefore(a: string, j: string)
    requires a == "" || a == "/" || a == "//"
    requires j != [] && j[0] != '/'
    ensures Anchor(a + j) == a
  {
    assert (a + j)[|a|] == j[0];
  }

  /** A leading slash adds one empty piece, which pathlib drops. */
  lemma PartsAfterSlash(j: string)
    ensures KeepParts(Split("/" + j, {'/'})) == KeepParts(Split(j, {'/'}))
  {
    assert "/" + j == "" + ['/'] + j;
    SplitAppend("", '/', j, {'/'});
    SplitNone("", {'/'});
    KeepPartsDropEmpty(Split(j, {'/'}));
  }

  /** The slashes of an anchor add only empty pieces in front of the rest's pieces. */
  lemma SplitAfterAnchor(a: string, j: string)
    requires a == "" || a == "/" || a == "//"
    ensures KeepParts(Split(a + j, {'/'})) == KeepParts(Split(j, {'/'}))
  {
    if a == "/" {
      PartsAfterSlash(j);
    } else if a == "//" {
      var k := "/" + j;
      assert a + j == "/" + k;
      PartsAfterSlash(k);
      PartsAfterSlash(j);
    } else {
      assert a + j == j;
    }
  }

  /**
    * A path already in pathlib's form (an anchor, then kept components
    * joined by single slashes) reads back as that anchor and those
    * components, and prints as itself.
    */
  lemma NormalForm(a: string, ps: seq<string>)
    requires a == "" || a == "/" || a == "//"
    requires ps != [] && forall k :: 0 <= k < |ps| ==> IsPart(ps[k])
    ensures Anchor(a + Join(ps, "/")) == a
    ensures Parts(a + Join(ps, "/")) == ps
    ensures PathText(a + Join(ps, "/")) == a + Join(ps, "/")
  {
    var j := Join(ps, "/");
    JoinStartsWithFirst(ps, "/");
    assert j[0] == ps[0][0];
    AnchorBefore(a, j);
    SplitAfterAnchor(a, j);
    SplitJoin(ps, '/', {'/'});
    KeepAllParts(ps);
  }

  /** The text pathlib prints is already normalised: read again, it has the same anchor and components and prints the same. */
  lemma PathTextNormal(s: string)
    ensures Anchor(PathText(s)) == Anchor(s)
    ensures Parts(PathText(s)) == Parts(s)
    ensures PathText(PathText(s)) == PathText(s)
  {
    var ps := Parts(s);
    if ps == [] {
      var a := Anchor(s);
      if a == "" {
        SplitNone(".", {'/'});
        assert KeepParts(["."]) == [];
      } else {
        assert a + "" == a;
        SplitAfterAnchor(a, "");
        SplitNone("", {'/'});
        KeepPartsDropEmpty([]);
      }
    } else {
      NormalForm(Anchor(s), ps);
      JoinStartsWithFirst(ps, "/");
      assert PathText(s) == Anchor(s) + Join(ps, "/");
    }
  }

  /** A dot-free stem followed by a simple suffix has exactly that suffix and keeps that stem. */
  lemma LastDotAfterStem(stem: string, suffix: string)
    requires IsSimpleSuffix(suffix) && stem != []
    ensures Suffix(stem + suffix) == suffix
    ensures Stem(stem + suffix) == stem
  {
    var n := stem + suffix;
    var dot := LastIndexOf(n, '.');
    assert n[|stem|] == '.';
    assert n[dot..] == suffix;
  }

  /**
    * `with_suffix` fails exactly when the path has no final component;
    * otherwise its result is in pathlib's form, keeps the anchor and every
    * directory component, and its final component keeps its stem and has
    * exactly the new suffix.
    */
  lemma WithSuffixSpec(path: string, suffix: string)
    requires IsSimpleSuffix(suffix)
    ensures WithSuffix(path, suffix).None? <==> Parts(path) == []
    ensures WithSuffix(path, suffix).Some? ==>
      var q := WithSuffix(path, suffix).value;
      var n := |Parts(path)|;
      PathText(q) == q && Anchor(q) == Anchor(path) &&
      |Parts(q)| == n && Parts(q)[..n - 1] == Parts(path)[..n - 1] &&
      Stem(Parts(q)[n - 1]) == Stem(Parts(path)[n - 1]) &&
      Suffix(Parts(q)[n - 1]) == suffix
  {
    var parts := Parts(path);
    if parts != [] {
      var n := |parts|;
      var name := parts[n - 1];
      var stem := Stem(name);
      LastDotAfterStem(stem, suffix);
      var ps := parts[..n - 1] + [stem + suffix];
      ReplacedLastIsPart(parts, suffix, ps);
      NormalForm(Anchor(path), ps);
      assert ps[..n - 1] == parts[..n - 1];
    }
  }

  /** Dropping pieces distributes over concatenation. */
  lemma {:induction false} KeepPartsAppend(x: seq<string>, y: seq<string>)
    ensures KeepParts(x + y) == KeepParts(x) + KeepParts(y)
  {
    if x != [] {
      KeepPartsAppend(x[1..], y);
      assert (x + y)[0] == x[0] && (x + y)[1..] == x[1..] + y;
    } else {
      assert x + y == y;
    }
  }

  /** pathlib's text and `with_suffix` depend only on the anchor and the kept components. */
  lemma SameAnchorAndParts(p: string, q: string, suffix: string)
    requires Anchor(p) == Anchor(q) && Parts(p) == Parts(q)
    ensures PathText(p) == PathText(q)
    ensures WithSuffix(p, suffix) == WithSuffix(q, suffix)
  {
  }

  /** Replacing the last component's suffix keeps every component one pathlib keeps. */
  lemma ReplacedLastIsPart(parts: seq<string>, suffix: string, ps: seq<string>)
    requires IsSimpleSuffix(suffix)
    requires parts != [] && forall k :: 0 <= k < |parts| ==> IsPart(parts[k])
    requires ps == parts[..|parts| - 1] + [Stem(parts[|parts| - 1]) + suffix]
    ensures forall k :: 0 <= k < |ps| ==> IsPart(ps[k])
  {
    var n := |parts|;
    var name := parts[n - 1];
    var stem := Stem(name);
    var last := stem + suffix;
    assert NoneIn(last, {'/'}) by {
      forall i | 0 <= i < |last| ensures last[i] !in {'/'} {
        if i < |stem| {
          assert last[i] == name[i];
        } else {
          assert last[i] == suffix[i - |stem|];
        }
      }
    }
    forall k | 0 <= k < n ensures IsPart(ps[k]) {
      if k < n - 1 {
        assert ps[k] == parts[k];
      }
    }
  }

  /** A trailing slash changes neither the printed path nor `with_suffix`. */
  lemma TrailingSlashIgnored(s: string, suffix: string)
    requires s != [] && s[0] != '/'
    ensures Parts(s + "/") == Parts(s)
    ensures PathText(s + "/") == PathText(s)
    ensures WithSuffix(s + "/", suffix) == WithSuffix(s, suffix)
  {
    SplitNone("", {'/'});
    assert s + "/" == s + ['/'] + "";
    SplitAppend(s, '/', "", {'/'});
    KeepPartsAppend(Split(s, {'/'}), [""]);
    assert (s + "/")[0] == s[0];
    SameAnchorAndParts(s + "/", s, suffix);
  }

  /** A trailing "." component changes neither the printed path nor `with_suffix`. */
  lemma TrailingDotIgnored(s: string, suffix: string)
    requires s != [] && s[0] != '/'
    ensures Parts(s + "/.") == Parts(s)
    ensures PathText(s + "/.") == PathText(s)
    ensures WithSuffix(s + "/.", suffix) == WithSuffix(s, suffix)
  {
    SplitNone(".", {'/'});
    assert s + "/." == s + ['/'] + ".";
    SplitAppend(s, '/', ".", {'/'});
    KeepPartsAppend(Split(s, {'/'}), ["."]);
    assert (s + "/.")[0] == s[0];
    SameAnchorAndParts(s + "/.", s, suffix);
  }

  /** A leading "./" changes neither the printed path nor `with_suffix`. */
  lemma LeadingDotIgnored(s: string, suffix: string)
    requires s != [] && s[0] != '/'
    ensures Parts("./" + s) == Parts(s)
    ensures PathText("./" + s) == PathText(s)
    ensures WithSuffix("./" + s, suffix) == WithSuffix(s, suffix)
  {
    SplitNone(".", {'/'});
    assert "./" + s == "." + ['/'] + s;
    SplitAppend(".", '/', s, {'/'});
    KeepPartsAppend(["."], Split(s, {'/'}));
    SameAnchorAndParts("./" + s, s, suffix);
  }

  /**
    * What one run of `main` does: the error it stops with before scraping,
    * the two lines printed before the scraper raised (the exception then
    * leaves `main` and nothing is written), or a complete run.
    */
  datatype Run =
    | PathError
    | Raised(request: ScrapeRequest, stdout: seq<string>)
    | Ran(request: ScrapeRequest, stdout: seq<string>, outputCsv: string, outputJson: string, csv: CsvOptions, exitCode: int)

  function TermPayload(termIndex: int, termTotal: int, searchTerm: string): seq<(string, Json)>
  {
    [("termIndex", Num(termIndex as real)), ("termTotal", Num(termTotal as real)), ("searchTerm", Str(searchTerm))]
  }

  /** The settings `main` reads from the environment before anything else happens. */
  datatype Config = Config(
    sites: seq<string>,
    searchTerm: string,
    location: string,
    resultsWanted: int,
    hoursOld: int,
    countryIndeed: string,
    linkedinFetchDescription: bool,
    isRemote: bool,
    termIndex: int,
    termTotal: int,
    outputCsv: string,
    outputJsonSetting: Option<string>)

  /** The environment reads at the top of `main`, with their defaults; `env` stands for `os.getenv`. */
  function ReadConfig(env: string -> Option<string>): Config
  {
    Config(
      ParseSites(EnvStr(env("JOBSPY_SITES"), "indeed,linkedin")),
      EnvStr(env("JOBSPY_SEARCH_TERM"), "web developer"),
      EnvStr(env("JOBSPY_LOCATION"), "UK"),
      EnvInt(env("JOBSPY_RESULTS_WANTED"), 200),
      EnvInt(env("JOBSPY_HOURS_OLD"), 72),
      EnvStr(env("JOBSPY_COUNTRY_INDEED"), "UK"),
      EnvBool(env("JOBSPY_LINKEDIN_FETCH_DESCRIPTION"), true),
      EnvBool(env("JOBSPY_IS_REMOTE"), false),
      EnvInt(env("JOBSPY_TERM_INDEX"), 1),
      EnvInt(env("JOBSPY_TERM_TOTAL"), 1),
      EnvStr(env("JOBSPY_OUTPUT_CSV"), "jobs.csv"),
      env("JOBSPY_OUTPUT_JSON"))
  }

  /** The request `main` hands to the scraper: the configuration, passed through unchanged. */
  function Request(c: Config): ScrapeRequest
  {
    ScrapeRequest(c.sites, c.searchTerm, c.location, c.resultsWanted, c.hoursOld,
                  c.countryIndeed, c.linkedinFetchDescription, c.isRemote)
  }

  /**
    * The rest of `main`: compute the JSON path (its default is built even
    * when the setting is present), emit `term_start`, scrape once, emit
    * `term_complete` with the row count, and write both files. `scrape`
    * stands for the scraping library and returns the number of rows, or
    * None when it raises; `dumps` stands for `json.dumps`.
    */
  function RunWith(c: Config, scrape: ScrapeRequest -> Option<nat>, dumps: Json -> string): Run
  {
    match OutputPaths(c)
    case None => PathError
    case Some((outputCsv, outputJson)) =>
      var request := Request(c);
      match scrape(request)
      case None => Raised(request, StartOutput(c, dumps))
      case Some(found) => Ran(request, RunOutput(c, found, dumps, outputCsv, outputJson), outputCsv, outputJson, CSV_OPTIONS, 0)
  }

  /**
    * The CSV and JSON paths as pathlib prints them; the default JSON path is
    * computed first, so a CSV path `with_suffix` refuses stops the run.
    */
  function OutputPaths(c: Config): Option<(string, string)>
  {
    match WithSuffix(c.outputCsv, ".json")
    case None => None
    case Some(defaultJson) => Some((PathText(c.outputCsv), PathText(EnvStr(c.outputJsonSetting, defaultJson))))
  }

  /** `OutputPaths` in terms of the properties of pathlib's operations. */
  lemma OutputPathsSpec(c: Config)
    ensures OutputPaths(c).None? <==> Parts(c.outputCsv) == []
    ensures OutputPaths(c).Some? ==>
      OutputPaths(c).value.0 == PathText(c.outputCsv) &&
      Parts(OutputPaths(c).value.0) == Parts(c.outputCsv) &&
      (c.outputJsonSetting.None? ==> OutputPaths(c).value.1 == WithSuffix(c.outputCsv, ".json").value) &&
      (c.outputJsonSetting.Some? && !AllIn(c.outputJsonSetting.value, Py) ==>
        OutputPaths(c).value.1 == PathText(c.outputJsonSetting.value))
  {
    WithSuffixSpec(c.outputCsv, ".json");
    PathTextNormal(c.outputCsv);
    if WithSuffix(c.outputCsv, ".json").Some? {
      EnvStrSpec(c.outputJsonSetting, WithSuffix(c.outputCsv, ".json").value);
    }
  }

  /** The two lines printed before the scraper is called. */
  function StartOutput(c: Config, dumps: Json -> string): seq<string>
  {
    [
      "jobspy: Search term: " + c.searchTerm,
      ProgressLine("term_start", TermPayload(c.termIndex, c.termTotal, c.searchTerm), dumps)
    ]
  }

  /** The six lines a run prints, given the row count and the two paths. */
  function RunOutput(c: Config, found: nat, dumps: Json -> string, outputCsv: string, outputJson: string): seq<string>
  {
    var payload := TermPayload(c.termIndex, c.termTotal, c.searchTerm);
    StartOutput(c, dumps) + [
      "Found " + NatToString(found) + " jobs",
      ProgressLine("term_complete", payload + [("jobsFoundTerm", Num(found as real))], dumps),
      "Wrote CSV:  " + outputCsv,
      "Wrote JSON: " + outputJson
    ]
  }

  /** `main`. */
  function ScrapeMain(env: string -> Option<string>, scrape: ScrapeRequest -> Option<nat>, dumps: Json -> string): Run
  {
    RunWith(ReadConfig(env), scrape, dumps)
  }

  /** The progress lines of an output, in order. */
  function ProgressLines(lines: seq<string>): seq<string>
  {
    if lines == [] then []
    else if IsProgressLine(lines[0]) then [lines[0]] + ProgressLines(lines[1..])
    else ProgressLines(lines[1..])
  }

  lemma ProgressLinesCons(line: string, rest: seq<string>)
    ensures ProgressLines([line] + rest) == (if IsProgressLine(line) then [line] else []) + ProgressLines(rest)
  {
    assert ([line] + rest)[0] == line && ([line] + rest)[1..] == rest;
  }

  /** Of six output lines, only the second and the fourth belong to the protocol. */
  lemma ProgressLinesOfRun(l0: string, l1: string, l2: string, l3: string, l4: string, l5: string)
    requires !IsProgressLine(l0) && IsProgressLine(l1) && !IsProgressLine(l2)
    requires IsProgressLine(l3) && !IsProgressLine(l4) && !IsProgressLine(l5)
    ensures ProgressLines([l0, l1, l2, l3, l4, l5]) == [l1, l3]
  {
    var t5: seq<string> := [l5];
    var t4 := [l4] + t5;
    var t3 := [l3] + t4;
    var t2 := [l2] + t3;
    var t1 := [l1] + t2;
    ProgressLinesCons(l5, []);
    assert [l5] + [] == t5;
    ProgressLinesCons(l4, t5);
    ProgressLinesCons(l3, t4);
    ProgressLinesCons(l2, t3);
    ProgressLinesCons(l1, t2);
    ProgressLinesCons(l0, t1);
    assert [l0] + t1 == [l0, l1, l2, l3, l4, l5];
  }

  lemma NotProgressLine(line: string, c: char)
    requires line != [] && line[0] == c && c != 'J'
    ensures !IsProgressLine(line)
  {
  }

  /**
    * A run prints exactly two progress lines: `term_start` and then
    * `term_complete`, both with the term index, total and search term, the
    * second adding the row count the scrape returned (which may be 0).
    */
  lemma RunProgress(c: Config, scrape: ScrapeRequest -> Option<nat>, dumps: Json -> string)
    requires RunWith(c, scrape, dumps).Ran?
    ensures ProgressLines(RunWith(c, scrape, dumps).stdout) == [
      ProgressLine("term_start", TermPayload(c.termIndex, c.termTotal, c.searchTerm), dumps),
      ProgressLine("term_complete", TermPayload(c.termIndex, c.termTotal, c.searchTerm)
        + [("jobsFoundTerm", Num(scrape(Request(c)).value as real))], dumps)]
  {
    var r := RunWith(c, scrape, dumps);
    assert r.stdout == RunOutput(c, scrape(Request(c)).value, dumps, r.outputCsv, r.outputJson);
    RunOutputProgress(c, scrape(Request(c)).value, dumps, r.outputCsv, r.outputJson);
  }

  /**
    * When the scraper raises, the run has printed the search term and the
    * `term_start` progress line and nothing more: no `term_complete`, no
    * row count, no "Wrote" line.
    */
  lemma RunRaised(c: Config, scrape: ScrapeRequest -> Option<nat>, dumps: Json -> string)
    requires RunWith(c, scrape, dumps).Raised?
    ensures RunWith(c, scrape, dumps).request == Request(c)
    ensures |RunWith(c, scrape, dumps).stdout| == 2
    ensures RunWith(c, scrape, dumps).stdout[0] == "jobspy: Search term: " + c.searchTerm
    ensures ProgressLines(RunWith(c, scrape, dumps).stdout) == [
      ProgressLine("term_start", TermPayload(c.termIndex, c.termTotal, c.searchTerm), dumps)]
  {
    StartOutputProgress(c, dumps);
  }

  /** Of the two lines printed before scraping, only the second is a progress line. */
  lemma StartOutputProgress(c: Config, dumps: Json -> string)
    ensures ProgressLines(StartOutput(c, dumps)) == [
      ProgressLine("term_start", TermPayload(c.termIndex, c.termTotal, c.searchTerm), dumps)]
  {
    var out := StartOutput(c, dumps);
    NotProgressLine(out[0], 'j');
    ProgressLineSpec("term_start", TermPayload(c.termIndex, c.termTotal, c.searchTerm), dumps, "");
    ProgressLinesCons(out[1], []);
    ProgressLinesCons(out[0], [out[1]]);
    assert out == [out[0]] + [out[1]];
    assert [out[1]] + [] == [out[1]];
  }

  /** Of the six lines, the second and the fourth are the progress lines, whatever the paths. */
  lemma RunOutputProgress(c: Config, found: nat, dumps: Json -> string, outputCsv: string, outputJson: string)
    ensures ProgressLines(RunOutput(c, found, dumps, outputCsv, outputJson)) == [
      ProgressLine("term_start", TermPayload(c.termIndex, c.termTotal, c.searchTerm), dumps),
      ProgressLine("term_complete", TermPayload(c.termIndex, c.termTotal, c.searchTerm)
        + [("jobsFoundTerm", Num(found as real))], dumps)]
  {
    var out := RunOutput(c, found, dumps, outputCsv, outputJson);
    NotProgressLine(out[0], 'j');
    NotProgressLine(out[2], 'F');
    NotProgressLine(out[4], 'W');
    NotProgressLine(out[5], 'W');
    ProgressLineSpec("term_start", TermPayload(c.termIndex, c.termTotal, c.searchTerm), dumps, "");
    ProgressLineSpec("term_complete", TermPayload(c.termIndex, c.termTotal, c.searchTerm)
        + [("jobsFoundTerm", Num(found as real))], dumps, "");
    ProgressLinesOfRun(out[0], out[1], out[2], out[3], out[4], out[5]);
    assert out == [out[0], out[1], out[2], out[3], out[4], out[5]];
  }

  /**
    * The scraper gets the configuration unchanged (the location in
    * particular); only a CSV path with no final component (".", "/", "//")
    * stops the run before scraping, a raising scraper stops it after, and
    * the CSV options and the exit code are fixed.
    */
  lemma RunRequest(c: Config, scrape: ScrapeRequest -> Option<nat>, dumps: Json -> string)
    ensures RunWith(c, scrape, dumps).PathError? <==> Parts(c.outputCsv) == []
    ensures RunWith(c, scrape, dumps).Raised? <==> Parts(c.outputCsv) != [] && scrape(Request(c)).None?
    ensures RunWith(c, scrape, dumps).Ran? <==> Parts(c.outputCsv) != [] && scrape(Request(c)).Some?
    ensures RunWith(c, scrape, dumps).Ran? ==>
      RunWith(c, scrape, dumps).request == Request(c) &&
      RunWith(c, scrape, dumps).request.location == c.location &&
      RunWith(c, scrape, dumps).csv == CsvOptions(true, '\\', false) &&
      RunWith(c, scrape, dumps).exitCode == 0
  {
    OutputPathsSpec(c);
  }

  /**
    * Both paths are written to and printed in pathlib's form: the CSV path
    * keeps its components, the JSON path defaults to the CSV path with its
    * suffix replaced by ".json", and a set JSON path is used as given.
    */
  lemma RunPaths(c: Config, scrape: ScrapeRequest -> Option<nat>, dumps: Json -> string)
    requires RunWith(c, scrape, dumps).Ran?
    ensures RunWith(c, scrape, dumps).outputCsv == PathText(c.outputCsv)
    ensures Parts(RunWith(c, scrape, dumps).outputCsv) == Parts(c.outputCsv)
    ensures RunWith(c, scrape, dumps).stdout[4] == "Wrote CSV:  " + RunWith(c, scrape, dumps).outputCsv
    ensures RunWith(c, scrape, dumps).stdout[5] == "Wrote JSON: " + RunWith(c, scrape, dumps).outputJson
    ensures c.outputJsonSetting.None? ==>
      RunWith(c, scrape, dumps).outputJson == WithSuffix(c.outputCsv, ".json").value
    ensures c.outputJsonSetting.Some? && !AllIn(c.outputJsonSetting.value, Py) ==>
      RunWith(c, scrape, dumps).outputJson == PathText(c.outputJsonSetting.value)
  {
    OutputPathsSpec(c);
    var r := RunWith(c, scrape, dumps);
    RunOutputWrote(c, scrape(Request(c)).value, dumps, r.outputCsv, r.outputJson);
  }

  /** The last two lines report the two paths written. */
  lemma RunOutputWrote(c: Config, found: nat, dumps: Json -> string, outputCsv: string, outputJson: string)
    ensures |RunOutput(c, found, dumps, outputCsv, outputJson)| == 6
    ensures RunOutput(c, found, dumps, outputCsv, outputJson)[4] == "Wrote CSV:  " + outputCsv
    ensures RunOutput(c, found, dumps, outputCsv, outputJson)[5] == "Wrote JSON: " + outputJson
  {
  }
}
