// shared/src/search-cities.ts: location tokens, the search-cities setting
// and the city-versus-country decisions built on them.
module SearchCities {
  import opened Wrappers
  import opened Text
  import opened StringUtils
  import opened Dedupe
  import opened NormalizeStringArray

  /** LOCATION_ALIASES: the country abbreviations that are spelled out. */
  function Alias(normalized: string): Option<string>
  {
    if normalized == "uk" then Some("united kingdom")
    else if normalized == "us" || normalized == "usa" then Some("united states")
    else None
  }

  /** Trim, lower-case and collapse whitespace runs; a missing value counts as "". */
  function Fold(value: Option<string>): string
  {
    if value.None? then "" else CollapseWhitespace(Lower(Trim(value.value)))
  }

  /** `normalizeLocationToken`: fold the text, then replace an alias by its target. */
  function NormalizeLocationToken(value: Option<string>): string
  {
    var normalized := Fold(value);
    if normalized == "" then "" else Alias(normalized).GetOr(normalized)
  }

  /** A string that folding leaves unchanged. */
  predicate IsFolded(s: string)
  {
    IsNormalized(s) && IsLower(s)
  }

  lemma FoldShape(value: Option<string>)
    ensures IsFolded(Fold(value))
  {
    if value.Some? {
      var t := Trim(value.value);
      TrimByTrimmed(value.value, Js);
      LowerIsLower(t);
      CollapseKeepsLower(Lower(t));
      CollapseKeepsTrimmed(t);
    }
  }

  lemma CollapseKeepsLower(l: string)
    requires IsLower(l)
    ensures IsLower(CollapseWhitespace(l))
  {
    CollapseChars(l);
    assert LowerChar(' ') == ' ';
  }

  lemma CollapseKeepsTrimmed(t: string)
    requires IsTrimmedBy(t, Js)
    ensures IsTrimmedBy(CollapseWhitespace(Lower(t)), Js)
  {
    var l := Lower(t);
    if l != [] {
      LowerKeepsSpace(t[0]);
      LowerKeepsSpace(t[|t| - 1]);
      assert l[0] == LowerChar(t[0]) && Last(l) == LowerChar(t[|t| - 1]);
      CollapseLast(l);
    }
  }

  lemma FoldOfFolded(s: string)
    requires IsFolded(s)
    ensures Fold(Some(s)) == s
  {
    TrimByOfTrimmed(s, Js);
    LowerOfLower(s);
    CollapseOfCollapsed(s);
  }

  /** No character of `s` is whitespace. */
  predicate NoSpace(s: string)
  {
    forall c :: c in s ==> !IsJsSpace(c)
  }

  lemma NoSpaceCollapsed(s: string)
    requires NoSpace(s)
    ensures Collapsed(s)
  {
    forall i | 0 <= i < |s| ensures !IsJsSpace(s[i]) {
      assert s[i] in s;
    }
  }

  lemma TwoWordsCollapsed(a: string, b: string)
    requires NoSpace(a) && NoSpace(b) && b != []
    ensures Collapsed(a + " " + b)
  {
    var s := a + " " + b;
    forall i | 0 <= i < |s| ensures IsJsSpace(s[i]) ==> s[i] == ' ' && (i + 1 < |s| ==> !IsJsSpace(s[i + 1])) {
      if i < |a| {
        assert s[i] == a[i] && a[i] in a;
      } else if i > |a| {
        assert s[i] == b[i - |a| - 1] && b[i - |a| - 1] in b;
      } else {
        assert s[i + 1] == b[0] && b[0] in b;
      }
    }
  }

  lemma UnitedKingdomFolded()
    ensures IsFolded("united kingdom")
  {
    assert IsTrimmedBy("united kingdom", Js);
    assert IsLower("united kingdom");
    assert Collapsed("united kingdom") by {
      assert NoSpace("united") && NoSpace("kingdom");
      assert "united kingdom" == "united" + " " + "kingdom";
      TwoWordsCollapsed("united", "kingdom");
    }
  }

  lemma UnitedStatesFolded()
    ensures IsFolded("united states")
  {
    assert IsTrimmedBy("united states", Js);
    assert IsLower("united states");
    assert Collapsed("united states") by {
      assert NoSpace("united") && NoSpace("states");
      assert "united states" == "united" + " " + "states";
      TwoWordsCollapsed("united", "states");
    }
  }

  /**
    * The token is in folded form (trimmed, lower-case, single spaces), and it
    * is never an alias key.
    */
  lemma NormalizeLocationTokenShape(value: Option<string>)
    ensures IsFolded(NormalizeLocationToken(value))
    ensures Alias(NormalizeLocationToken(value)).None?
  {
    var n := Fold(value);
    if n == "uk" {
      UnitedKingdomFolded();
    } else if n == "us" || n == "usa" {
      UnitedStatesFolded();
    } else {
      FoldShape(value);
    }
  }

  /** Normalising a token twice gives the same token: alias targets are not alias keys. */
  lemma NormalizeLocationTokenIdempotent(value: Option<string>)
    ensures NormalizeLocationToken(Some(NormalizeLocationToken(value))) == NormalizeLocationToken(value)
  {
    var r := NormalizeLocationToken(value);
    NormalizeLocationTokenShape(value);
    FoldOfFolded(r);
  }

  /** The token is empty exactly when the value is missing or all whitespace. */
  lemma NormalizeLocationTokenEmpty(value: Option<string>)
    ensures NormalizeLocationToken(value) == "" <==> value.None? || AllIn(value.value, Js)
  {
    if value.Some? {
      TrimEmpty(value.value);
      var t := Trim(value.value);
      assert |Lower(t)| == |t|;
      var n := Fold(value);
      assert Alias(n).Some? ==> |Alias(n).value| > 0;
    }
  }

  // ---------------------------------------------------------------- the setting

  /** The pieces the trimmed setting is split into: on "|" if present, else on newlines, else one piece. */
  function SplitSetting(trimmed: string): seq<string>
  {
    if '|' in trimmed then Split(trimmed, {'|'})
    else if '\n' in trimmed then Split(trimmed, {'\n'})
    else [trimmed]
  }

  /** The list `parseSearchCitiesSetting` returns. */
  function ParsedCities(value: Option<string>): seq<string>
  {
    var trimmed := if value.None? then "" else Trim(value.value);
    if trimmed == "" then [] else KeepFirst(TrimmedNonEmpty(SplitSetting(trimmed)), {})
  }

  /** `parseSearchCitiesSetting`: split, then trim, drop empties and keep the first spelling of each city. */
  method ParseSearchCitiesSetting(value: Option<string>) returns (out: seq<string>)
    ensures out == ParsedCities(value)
  {
    var trimmed := if value.None? then "" else Trim(value.value);
    if trimmed == "" {
      return [];
    }
    out := TrimAndKeepFirst(SplitSetting(trimmed));
  }

  /** Every parsed city is trimmed and non-empty, and no two are equal case-insensitively. */
  lemma ParsedCitiesShape(value: Option<string>)
    ensures forall c :: c in ParsedCities(value) ==> IsClean(c)
    ensures DistinctKeys(ParsedCities(value))
  {
    var trimmed := if value.None? then "" else Trim(value.value);
    if trimmed != "" {
      var t := TrimmedNonEmpty(SplitSetting(trimmed));
      TrimmedNonEmptyClean(SplitSetting(trimmed));
      KeepFirstProps(t, {});
      Seqs.SubseqElems(KeepFirst(t, {}), t);
    }
  }

  /** A blank or missing setting parses to no cities. */
  lemma ParsedCitiesBlank(value: Option<string>)
    requires value.None? || AllIn(value.value, Js)
    ensures ParsedCities(value) == []
  {
    if value.Some? {
      TrimEmpty(value.value);
    }
  }

  /** `serializeSearchCitiesSetting`: no cities is null, otherwise the cities joined by "|". */
  function SerializeSearchCitiesSetting(cities: seq<string>): Option<string>
  {
    if |cities| == 0 then None else Some(Join(cities, "|"))
  }

  /** A city the setting can carry unchanged: trimmed, non-empty, free of both separators. */
  predicate IsStorableCity(c: string)
  {
    IsClean(c) && NoneIn(c, {'|', '\n'})
  }

  lemma JoinEnds(parts: seq<string>, sep: string)
    requires |parts| >= 1 && forall k :: 0 <= k < |parts| ==> parts[k] != []
    ensures Join(parts, sep) != []
    ensures Join(parts, sep)[0] == parts[0][0]
    ensures Last(Join(parts, sep)) == Last(parts[|parts| - 1])
    decreases |parts|
  {
    if |parts| > 1 {
      JoinEnds(parts[1..], sep);
    }
  }

  lemma JoinSingleFree(parts: seq<string>)
    requires |parts| >= 1 && forall k :: 0 <= k < |parts| ==> NoneIn(parts[k], {'|', '\n'})
    ensures '|' !in Join(parts, "|") ==> |parts| == 1
    ensures '\n' !in Join(parts, "|")
    decreases |parts|
  {
    if |parts| > 1 {
      var j := Join(parts, "|");
      assert j == parts[0] + "|" + Join(parts[1..], "|");
      assert j[|parts[0]|] == '|';
      JoinSingleFree(parts[1..]);
      assert forall c :: c in j && c !in parts[0] && c != '|' ==> c in Join(parts[1..], "|");
      assert '\n' !in parts[0] by {
        assert NoneIn(parts[0], {'|', '\n'});
      }
    } else {
      assert NoneIn(parts[0], {'|', '\n'});
    }
  }

  /**
    * Round trip: serialising storable, case-insensitively distinct cities and
    * parsing the text back gives the same list.
    */
  lemma ParseSerializeRoundTrip(cities: seq<string>)
    requires |cities| >= 1
    requires forall k :: 0 <= k < |cities| ==> IsStorableCity(cities[k])
    requires DistinctKeys(cities)
    ensures ParsedCities(SerializeSearchCitiesSetting(cities)) == cities
  {
    var j := Join(cities, "|");
    assert IsClean(cities[0]) && IsClean(cities[|cities| - 1]);
    JoinEnds(cities, "|");
    assert IsTrimmedBy(j, Js);
    TrimByOfTrimmed(j, Js);
    JoinSingleFree(cities);
    if '|' in j {
      SplitJoin(cities, '|', {'|'});
    } else {
      assert cities == [j];
    }
    assert SplitSetting(j) == cities;
    TrimmedNonEmptyOfClean(cities);
    KeepFirstOfDistinct(cities, {});
  }

  // ---------------------------------------------------------------- decisions

  /**
    * `shouldApplyStrictCityFilter`; `countryKey` stands for `normalizeCountryKey`,
    * which this model does not define.
    */
  function ShouldApplyStrictCityFilter(city: string, country: string, countryKey: string -> string): bool
  {
    var normalizedCity := NormalizeLocationToken(Some(city));
    var normalizedCountry := countryKey(country);
    if normalizedCity == "" || normalizedCountry == "" then false
    else normalizedCity != normalizedCountry
  }

  /** The country key, when it folds the way a location token does. */
  function LocationKey(country: string): string
  {
    NormalizeLocationToken(Some(country))
  }

  /** A blank city or a blank country key never turns the strict filter on. */
  lemma StrictFilterOffWhenBlank(city: string, country: string, countryKey: string -> string)
    requires AllIn(city, Js) || countryKey(country) == ""
    ensures !ShouldApplyStrictCityFilter(city, country, countryKey)
  {
    NormalizeLocationTokenEmpty(Some(city));
  }

  /** A non-blank city whose token differs from the country key always gets the strict filter. */
  lemma StrictFilterOnWhenDifferent(city: string, country: string, countryKey: string -> string)
    requires !AllIn(city, Js) && countryKey(country) != ""
    requires NormalizeLocationToken(Some(city)) != countryKey(country)
    ensures ShouldApplyStrictCityFilter(city, country, countryKey)
  {
    NormalizeLocationTokenEmpty(Some(city));
  }

  /** A city that names the country itself, in any spelling or alias, never gets the strict filter. */
  lemma StrictFilterOffForCountry(city: string, country: string)
    requires NormalizeLocationToken(Some(city)) == NormalizeLocationToken(Some(country))
    ensures !ShouldApplyStrictCityFilter(city, country, LocationKey)
  {
  }

  /** `matchesRequestedCity`: both tokens non-empty and the requested one occurs inside the job's. */
  function MatchesRequestedCity(jobLocation: Option<string>, requestedCity: string): bool
  {
    var normalizedJobLocation := NormalizeLocationToken(jobLocation);
    var normalizedRequestedLocation := NormalizeLocationToken(Some(requestedCity));
    if normalizedJobLocation == "" || normalizedRequestedLocation == "" then false
    else Contains(normalizedJobLocation, normalizedRequestedLocation)
  }

  /** A missing or blank location, or a blank requested city, never matches. */
  lemma MatchesRequestedCityBlank(jobLocation: Option<string>, requestedCity: string)
    requires jobLocation.None? || AllIn(jobLocation.value, Js) || AllIn(requestedCity, Js)
    ensures !MatchesRequestedCity(jobLocation, requestedCity)
  {
    NormalizeLocationTokenEmpty(jobLocation);
    NormalizeLocationTokenEmpty(Some(requestedCity));
  }

  /** A match means the requested token occurs inside the job's token. */
  lemma MatchesRequestedCityContains(jobLocation: Option<string>, requestedCity: string)
    requires MatchesRequestedCity(jobLocation, requestedCity)
    ensures Contains(NormalizeLocationToken(jobLocation), NormalizeLocationToken(Some(requestedCity)))
    ensures |NormalizeLocationToken(Some(requestedCity))| <= |NormalizeLocationToken(jobLocation)|
  {
    var i := ContainsOffset(NormalizeLocationToken(jobLocation), NormalizeLocationToken(Some(requestedCity)));
  }

  /** A job located exactly at the requested city, up to case, spacing and aliases, matches it. */
  lemma MatchesSameCity(jobLocation: string, requestedCity: string)
    requires NormalizeLocationToken(Some(jobLocation)) == NormalizeLocationToken(Some(requestedCity))
    requires !AllIn(requestedCity, Js)
    ensures MatchesRequestedCity(Some(jobLocation), requestedCity)
  {
    NormalizeLocationTokenEmpty(Some(requestedCity));
    var n := NormalizeLocationToken(Some(requestedCity));
    assert n[0..|n|] == n;
    ContainsAt(n, n, 0);
  }
}
