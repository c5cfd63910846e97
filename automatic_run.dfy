// orchestrator/src/client/pages/orchestrator/automatic-run.ts: search-term
// parsing, the run estimate and the remembered run settings.
module AutomaticRun {
  import opened Wrappers
  import opened Text
  import opened Dedupe
  import opened JsNumber
  import opened Json

  // ---------------------------------------------------------------- presets

  datatype PresetId = Fast | Balanced | Detailed

  datatype PresetValues = PresetValues(
    topN: int,
    minSuitabilityScore: int,
    jobspyResultsWanted: int,
    gradcrackerMaxJobsPerTerm: int,
    ukvisajobsMaxJobs: int)

  /** AUTOMATIC_PRESETS. */
  function Preset(id: PresetId): PresetValues
  {
    match id
    case Fast => PresetValues(5, 75, 60, 25, 25)
    case Balanced => PresetValues(10, 50, 200, 50, 50)
    case Detailed => PresetValues(20, 35, 350, 120, 120)
  }

  /**
    * The presets are graded: each step from fast to balanced to detailed
    * processes more jobs, fetches more per source and accepts lower scores.
    */
  lemma PresetsGraded(a: PresetId, b: PresetId)
    requires (a.Fast? && !b.Fast?) || (a.Balanced? && b.Detailed?)
    ensures Preset(a).topN < Preset(b).topN
    ensures Preset(a).minSuitabilityScore > Preset(b).minSuitabilityScore
    ensures Preset(a).jobspyResultsWanted < Preset(b).jobspyResultsWanted
    ensures Preset(a).gradcrackerMaxJobsPerTerm < Preset(b).gradcrackerMaxJobsPerTerm
    ensures Preset(a).ukvisajobsMaxJobs < Preset(b).ukvisajobsMaxJobs
  {
  }

  // ---------------------------------------------------------------- search terms

  /** `parseSearchTermsInput`: split on newlines and commas, trim, drop empty terms. */
  function ParseSearchTermsInput(input: string): seq<string>
  {
    TrimmedNonEmpty(Split(input, {'\n', ','}))
  }

  /** `stringifySearchTerms`: one term per line. */
  function StringifySearchTerms(terms: seq<string>): string
  {
    Join(terms, "\n")
  }

  /** A term as the list holds it: trimmed, non-empty, with no comma or newline. */
  predicate IsTerm(s: string)
  {
    IsClean(s) && NoneIn(s, {'\n', ','})
  }

  /** Every parsed term is trimmed and non-empty and holds no separator. */
  lemma ParsedTermsClean(input: string)
    ensures forall s :: s in ParseSearchTermsInput(input) ==> IsTerm(s)
  {
    var pieces := Split(input, {'\n', ','});
    TrimmedNonEmptyClean(pieces);
    TrimmedNonEmptyNoneIn(pieces, {'\n', ','});
  }

  /** Terms on the two sides of a separator are parsed independently and keep their order. */
  lemma ParseSearchTermsConcat(a: string, sep: char, b: string)
    requires sep == '\n' || sep == ','
    ensures ParseSearchTermsInput(a + [sep] + b) == ParseSearchTermsInput(a) + ParseSearchTermsInput(b)
  {
    SplitAppend(a, sep, b, {'\n', ','});
    TrimmedNonEmptyAppend(Split(a, {'\n', ','}), Split(b, {'\n', ','}));
  }

  /** Writing terms one per line and parsing the text gives the terms back. */
  lemma ParseStringifyRoundTrip(terms: seq<string>)
    requires forall i :: 0 <= i < |terms| ==> IsTerm(terms[i])
    ensures ParseSearchTermsInput(StringifySearchTerms(terms)) == terms
  {
    if terms == [] {
      assert Split("", {'\n', ','}) == [""];
      assert Trim("") == "";
    } else {
      SplitJoin(terms, '\n', {'\n', ','});
      forall i | 0 <= i < |terms| ensures IsClean(terms[i]) {
        assert IsTerm(terms[i]);
      }
      TrimmedNonEmptyOfClean(terms);
    }
  }

  // ---------------------------------------------------------------- estimate

  datatype RunValues = RunValues(
    topN: int,
    minSuitabilityScore: int,
    searchTerms: seq<string>,
    jobspyResultsWanted: int,
    gradcrackerMaxJobsPerTerm: int,
    ukvisajobsMaxJobs: int)

  datatype Range = Range(min: int, max: int)

  datatype Estimate = Estimate(discovered: Range, cap: int, processed: Range)

  /** The number of terms the estimate multiplies by: at least one. */
  function TermCount(values: RunValues): (r: int)
    ensures r >= 1 && r >= |values.searchTerms|
  {
    Max(1, |values.searchTerms|)
  }

  /** `calculateAutomaticEstimate`. */
  function CalculateAutomaticEstimate(values: RunValues, sources: seq<string>): Estimate
  {
    var termCount := TermCount(values);
    var hasGradcracker := "gradcracker" in sources;
    var hasUkVisaJobs := "ukvisajobs" in sources;
    var hasIndeed := "indeed" in sources;
    var hasLinkedIn := "linkedin" in sources;
    var jobspySitesCount := (if hasIndeed then 1 else 0) + (if hasLinkedIn then 1 else 0);
    var jobspyCap := jobspySitesCount * values.jobspyResultsWanted * termCount;
    var gradcrackerCap := if hasGradcracker then values.gradcrackerMaxJobsPerTerm * termCount else 0;
    var ukvisaCap := if hasUkVisaJobs then values.ukvisajobsMaxJobs else 0;
    var discoveredCap := jobspyCap + gradcrackerCap + ukvisaCap;
    var discoveredMin := Round(discoveredCap as real * 0.35);
    var discoveredMax := Round(discoveredCap as real * 0.75);
    Estimate(Range(discoveredMin, discoveredMax), discoveredCap,
             Range(Min(values.topN, discoveredMin), Min(values.topN, discoveredMax)))
  }

  /**
    * With non-negative settings the cap is non-negative; the discovered
    * range is ordered and within the cap; the processed range is ordered
    * and never above topN, and equals the discovered range whenever topN
    * is at least the discovered maximum.
    */
  lemma EstimateBounds(values: RunValues, sources: seq<string>)
    requires values.jobspyResultsWanted >= 0 && values.gradcrackerMaxJobsPerTerm >= 0 && values.ukvisajobsMaxJobs >= 0
    ensures var e := CalculateAutomaticEstimate(values, sources);
      e.cap >= 0 && 0 <= e.discovered.min <= e.discovered.max <= e.cap &&
      e.processed.min <= e.processed.max <= values.topN &&
      e.processed.min <= e.discovered.min && e.processed.max <= e.discovered.max &&
      (values.topN >= e.discovered.max ==> e.processed == e.discovered)
  {
    var e := CalculateAutomaticEstimate(values, sources);
    var cap := e.cap as real;
    var t := TermCount(values);
    assert e.cap >= 0 by {
      assert values.jobspyResultsWanted * t >= 0;
      assert values.gradcrackerMaxJobsPerTerm * t >= 0;
    }
    RoundMonotone(cap * 0.35, cap * 0.75);
    RoundMonotone(0.0, cap * 0.35);
    RoundMonotone(cap * 0.75, cap);
    RoundSpec(cap, e.cap);
    RoundSpec(0.0, 0);
  }

  /** A source outside the four the estimate knows adds nothing to it. */
  lemma EstimateIgnoresOtherSources(values: RunValues, sources: seq<string>, other: string)
    requires other != "gradcracker" && other != "ukvisajobs" && other != "indeed" && other != "linkedin"
    ensures CalculateAutomaticEstimate(values, sources + [other]) == CalculateAutomaticEstimate(values, sources)
  {
    var s := sources + [other];
    assert "gradcracker" in s <==> "gradcracker" in sources;
    assert "ukvisajobs" in s <==> "ukvisajobs" in sources;
    assert "indeed" in s <==> "indeed" in sources;
    assert "linkedin" in s <==> "linkedin" in sources;
  }

  /**
    * Two terms, 100 results per job board, 40 per term from Gradcracker and
    * 30 from UK Visa Jobs, with all four sources, give a cap of 510, a
    * discovered range of 179 to 383, and a processed range capped at topN 10.
    */
  lemma EstimateExample(values: RunValues, sources: seq<string>)
    requires values.topN == 10 && |values.searchTerms| == 2
    requires values.jobspyResultsWanted == 100 && values.gradcrackerMaxJobsPerTerm == 40 && values.ukvisajobsMaxJobs == 30
    requires "indeed" in sources && "linkedin" in sources && "gradcracker" in sources && "ukvisajobs" in sources
    ensures CalculateAutomaticEstimate(values, sources) == Estimate(Range(179, 383), 510, Range(10, 10))
  {
    assert 510 as real * 0.35 + 0.5 == 179.0;
    assert 510 as real * 0.75 + 0.5 == 383.0;
  }

  /** With no search terms, the estimate counts one term. */
  lemma EstimateEmptyTerms(values: RunValues, sources: seq<string>)
    requires values.searchTerms == []
    ensures CalculateAutomaticEstimate(values, sources) == CalculateAutomaticEstimate(values.(searchTerms := [""]), sources)
  {
  }

  // ---------------------------------------------------------------- remembered settings

  datatype RunMemory = RunMemory(topN: int, minSuitabilityScore: int)

  /**
    * `loadAutomaticRunMemory`: `raw` is the stored text (None when absent)
    * and `parse` stands for JSON.parse (None when it throws). Missing or
    * empty text, a parse failure, or a field that is not a number gives
    * None; otherwise both fields are rounded and clamped.
    */
  function LoadAutomaticRunMemory(raw: Option<string>, parse: string -> Option<Json>): Option<RunMemory>
  {
    if raw.None? || raw.value == "" then None
    else match parse(raw.value)
      case None => None
      case Some(parsed) =>
        var topN := Field(parsed, "topN");
        var minScore := Field(parsed, "minSuitabilityScore");
        if !topN.Num? || !minScore.Num? then None
        else Some(RunMemory(Clamp(Round(topN.n), 1, 50), Clamp(Round(minScore.n), 0, 100)))
  }

  /** A loaded memory is always in range, and it is None exactly when one of the fields is not a number. */
  lemma LoadedMemoryInRange(raw: Option<string>, parse: string -> Option<Json>)
    ensures LoadAutomaticRunMemory(raw, parse).Some? ==>
      var m := LoadAutomaticRunMemory(raw, parse).value;
      1 <= m.topN <= 50 && 0 <= m.minSuitabilityScore <= 100
    ensures raw.Some? && raw.value != "" && parse(raw.value).Some? ==>
      (LoadAutomaticRunMemory(raw, parse).None? <==>
        !Field(parse(raw.value).value, "topN").Num? || !Field(parse(raw.value).value, "minSuitabilityScore").Num?)
  {
    if LoadAutomaticRunMemory(raw, parse).Some? {
      var parsed := parse(raw.value).value;
      ClampSpec(Round(Field(parsed, "topN").n), 1, 50);
      ClampSpec(Round(Field(parsed, "minSuitabilityScore").n), 0, 100);
    }
  }

  /** The JSON object `saveAutomaticRunMemory` stores. */
  function MemoryJson(m: RunMemory): Json
  {
    Obj([("topN", Num(m.topN as real)), ("minSuitabilityScore", Num(m.minSuitabilityScore as real))])
  }

  /** Saving an in-range memory and loading it back gives the same memory, when parsing reads back what stringify wrote. */
  lemma SaveLoadRoundTrip(m: RunMemory, stringify: Json -> string, parse: string -> Option<Json>)
    requires 1 <= m.topN <= 50 && 0 <= m.minSuitabilityScore <= 100
    requires stringify(MemoryJson(m)) != ""
    requires parse(stringify(MemoryJson(m))) == Some(MemoryJson(m))
    ensures LoadAutomaticRunMemory(Some(stringify(MemoryJson(m))), parse) == Some(m)
  {
    var fields := MemoryJson(m).fields;
    assert Get(fields, "topN") == Some(Num(m.topN as real));
    assert Get(fields, "minSuitabilityScore") == Some(Num(m.minSuitabilityScore as real));
    RoundSpec(0.0, m.topN);
    RoundSpec(0.0, m.minSuitabilityScore);
  }
}
