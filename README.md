# job-ops core, modelled in Dafny

job-ops is a job-search orchestrator: it scrapes job boards, scores and selects
jobs, tailors CV data, tracks applications through their stages, reads
post-application email from Gmail and links it to jobs, keeps settings and
backups, and shows the results in a web client. Around its network, database,
LLM and UI plumbing sits a large body of small deterministic rules. This
project models those rules and proves what they promise.

One Dafny module per source file, each a flat `.dfy` file:

- **Extractor** (`scrape_jobs.dfy`): lenient environment parsing, the site
  list, the progress-line protocol, the order of a run's output, and the
  output paths as POSIX pathlib normalises them. The extractor hands the
  whole site list, the location and the Indeed country to the scraping
  library in one call (`extractors/jobspy/scrape_jobs.py:71-80`); the model
  treats the library's result as an input.
- **Normalisers** (`search_cities.dfy`, `normalize_string_array.dfy`,
  `string_utils.dfy`, `tokenized_input.dfy`, `automatic_run.dfy`): location
  alias folding, the city filter, keep-first case-insensitive dedupe,
  whitespace collapsing, token merging, search-term round trips and the
  automatic-run estimate.
- **Tailoring** (`tailoring_utils.dfy`, `use_tailoring_draft.dfy`): the skills
  JSON normaliser, the editable-group round trip, the draft id counter, and the
  draft hook as a class whose methods are the hook's state updates.
- **Post-application email** (`relevance.dfy`, `mapping_engine.dfy`,
  `gmail_sync.dfy`, `review_service.dfy`, `tracking_inbox.dfy`): keyword
  scoring and the LLM gate, candidate scoring, top-five selection and the
  decision tree, Gmail header and body parsing, the sync counters, the
  approve/deny state machine over an in-memory store, and the inbox page rules.
- **Jobs and selection** (`select_jobs.dfy`, `discover_jobs.dfy`,
  `score_jobs.dfy`, `jobs_routes.dfy`, `application_tracking.dfy`,
  `job_actions.dfy`, `job_selection_actions.dfy`, `bulk_job_selection.dfy`,
  `simple_bulk_job_selection.dfy`, `filtered_jobs.dfy`, `pipeline_sources.dfy`,
  `reactive_resume_section.dfy`): top-N selection, discovery grouping and
  blocked employers, auto-skip, route rules and counters, stage transitions and
  auto tasks, status gates, the client selection sets and their reconciliation
  after bulk actions, the filter chain, and the pipeline-source and resume
  project toggles.
- **Settings** (`serializers.dfy`, `env_settings.dfy`, `settings_registry.dfy`,
  `apply_updates.dfy`, `settings.dfy`): value serialisers, the environment map
  with override and restore, secret hints, per-key handlers, update planning and
  the LLM base-URL fallbacks.
- **LLM shaping** (`retry_policy.dfy`, `capability_fallback.dfy`,
  `mode_selection.dfy`, `llm_http.dfy`, `llm_string.dfy`, `object_path.dfy`,
  `json_content.dfy`, `provider_factory.dfy`, `gemini.dfy`, `openai.dfy`,
  `llm_types.dfy`): retry and capability predicates, the mode cache as a class
  over a map, URL and header building, truncation, error-message selection,
  JSON path lookup, fence stripping and brace slicing, and the per-provider
  request bodies and text extraction.
- **Backups** (`backup.dfy`): file names and their parsing, type
  classification, the path guard, collision naming, oldest-first pruning and
  the scheduler decisions, as a class over an in-memory directory.
- **Analytics** (`response_rate_by_source.dfy`, `freshness_response.dfy`,
  `in_progress_board.dfy`, `timeline.dfy`): response rates by source,
  freshness buckets, Kanban lanes and timeline grouping.
- **Shared helpers**: `wrappers.dfy` (Option and Result), `text.dfy` (trim,
  lower-case, split, join, search, decimal printing), `seqs.dfy` (filters),
  `json.dfy` (a JSON value with `undefined`, and object field lookup and
  update), `sorting.dfy` and `comparator_sort.dfy` (stable insertion sorts),
  `dedupe.dfy` (keep-first dedupe), `selection.dfy` (the set algebra of the
  selection hooks), `js_number.dfy` and `js_parse.dfy` (`Math.round`, clamps,
  `parseInt`).

Pure source code is modelled as functions with lemmas. Code that loops or
updates state is modelled as methods with loop invariants, or as classes whose
methods state the whole new state. Each such method is proved against a
specification function whose properties are proved as lemmas. JSON parsing and
printing, dates, URL parsing, the scraping library, the database, Gmail and the
LLM are parameters or inputs.

## Model

| member | source | states |
|---|---|---|
| ScrapeJobs.EnvStrSpec | extractors/jobspy/scrape_jobs.py:11-13 | an unset or all-whitespace value gives the default; any other value is returned raw, not stripped |
| ScrapeJobs.PyParseIntOfString | extractors/jobspy/scrape_jobs.py:20-21 | `int()` reads back the decimal text of every integer, negative ones included |
| ScrapeJobs.EnvIntSpec | extractors/jobspy/scrape_jobs.py:16-23 | a printed integer is read back whatever the default; unset, blank or unparsable text gives the default instead of raising |
| ScrapeJobs.EnvBoolSpec | extractors/jobspy/scrape_jobs.py:26-30 | unset or blank gives the default; any other value ignores the default and is true exactly when its stripped, lower-cased form is one of "1", "true", "yes", "y", "on" |
| ScrapeJobs.EnvBoolStripped | extractors/jobspy/scrape_jobs.py:28-30 | stripping the value first does not change the answer |
| ScrapeJobs.ParseSitesClean | extractors/jobspy/scrape_jobs.py:38-39 | every parsed site is stripped, non-empty and free of "," |
| ScrapeJobs.ParseSitesConcat | extractors/jobspy/scrape_jobs.py:38-39 | the sites on either side of a "," are parsed independently and keep their order |
| ScrapeJobs.ParseSitesJoin | extractors/jobspy/scrape_jobs.py:38-39 | joining clean site names with "," and parsing gives the same names back, in order |
| ScrapeJobs.ProgressLineSpec | extractors/jobspy/scrape_jobs.py:33-35 | a progress line is "JOBOPS_PROGRESS " followed by the serialised object, whose "event" key holds the event name unless the payload rebinds it, and every other key has the payload's value |
| ScrapeJobs.PathTextNormal | extractors/jobspy/scrape_jobs.py:52 | the text pathlib prints for a path is already normal: read again it has the same anchor and components and prints the same |
| ScrapeJobs.NormalForm | extractors/jobspy/scrape_jobs.py:52-55 | an anchor ("", "/" or "//") followed by kept components joined by single slashes reads back as exactly that anchor and those components, and prints as itself |
| ScrapeJobs.WithSuffixSpec | extractors/jobspy/scrape_jobs.py:53-55 | `with_suffix` fails exactly when the path has no final component; otherwise the result is normal, keeps the anchor and every directory component, and its final component keeps its stem and has exactly the suffix ".json" |
| ScrapeJobs.TrailingSlashIgnored | extractors/jobspy/scrape_jobs.py:52-55 | for a relative path, a trailing slash changes neither its components, nor the printed path, nor the result of `with_suffix` ("out/" behaves as "out") |
| ScrapeJobs.TrailingDotIgnored | extractors/jobspy/scrape_jobs.py:52-55 | for a relative path, a trailing "." component changes neither its components, nor the printed path, nor the result of `with_suffix` ("x/." behaves as "x") |
| ScrapeJobs.LeadingDotIgnored | extractors/jobspy/scrape_jobs.py:52-55 | for a relative path, a leading "./" changes neither its components, nor the printed path, nor the result of `with_suffix` ("./jobs.csv" gives "jobs.json") |
| ScrapeJobs.OutputPathsSpec | extractors/jobspy/scrape_jobs.py:52-55 | the paths are refused exactly when the CSV path has no final component; otherwise the CSV path is printed normalised with its components kept, the JSON path defaults to `with_suffix(".json")` of the CSV path, and a set, non-blank JSON path is used in its normal form |
| ScrapeJobs.ProgressLinesOfRun | extractors/jobspy/scrape_jobs.py:62-103 | of the six lines a run prints, only the second and fourth belong to the progress protocol |
| ScrapeJobs.RunOutputProgress | extractors/jobspy/scrape_jobs.py:62-103 | whatever the row count and the two paths, the progress lines of the six printed lines are `term_start` and then `term_complete` with `jobsFoundTerm` |
| ScrapeJobs.RunProgress | extractors/jobspy/scrape_jobs.py:63-91 | a run that completes prints exactly two progress lines: `term_start` with index, total and term, then `term_complete` adding `jobsFoundTerm`, the row count, which may be 0 |
| ScrapeJobs.RunRequest | extractors/jobspy/scrape_jobs.py:52-98 | the scraper gets the configuration unchanged, the location included; only a CSV path with no final component (".", "/", "//") stops the run before scraping; a raising scraper stops it after, and otherwise the run completes; the CSV uses non-numeric quoting, a backslash escape and no index; the exit code is 0 |
| ScrapeJobs.RunRaised | extractors/jobspy/scrape_jobs.py:62-80 | when `scrape_jobs` raises, the run has printed only the search-term line and the `term_start` progress line: no row count, no `term_complete`, no "Wrote" line and no files |
| ScrapeJobs.StartOutputProgress | extractors/jobspy/scrape_jobs.py:62-70 | of the two lines printed before scraping, only `term_start` is a progress line |
| ScrapeJobs.RunPaths | extractors/jobspy/scrape_jobs.py:52-103 | the files are written to, and "Wrote CSV:" and "Wrote JSON:" print, the normalised CSV path (its components kept) and the JSON path: by default the CSV path with suffix ".json", otherwise the set path normalised |
| SearchCities.NormalizeLocationTokenShape | shared/src/search-cities.ts:9-15 | the token is trimmed, lower-case and has single spaces, and it is never itself an alias key ("uk", "us", "usa") |
| SearchCities.NormalizeLocationTokenIdempotent | shared/src/search-cities.ts:3-15 | normalising a token a second time changes nothing, because alias targets are not alias keys |
| SearchCities.NormalizeLocationTokenEmpty | shared/src/search-cities.ts:12-13 | the token is "" exactly when the value is missing or all whitespace |
| SearchCities.ParseSearchCitiesSetting | shared/src/search-cities.ts:17-38 | the loop's output equals the split-trim-drop-dedupe specification `ParsedCities` |
| SearchCities.ParsedCitiesShape | shared/src/search-cities.ts:29-36 | every parsed city is trimmed and non-empty, and no two are equal case-insensitively |
| SearchCities.ParsedCitiesBlank | shared/src/search-cities.ts:20-21 | a missing or blank setting parses to no cities |
| SearchCities.ParseSerializeRoundTrip | shared/src/search-cities.ts:17-43 | serialising one or more trimmed, non-empty, case-insensitively distinct cities free of the pipe character and newline, then parsing the text, gives the same list |
| SearchCities.StrictFilterOffWhenBlank | shared/src/search-cities.ts:45-51 | a blank city or a blank country key never turns the strict filter on |
| SearchCities.StrictFilterOnWhenDifferent | shared/src/search-cities.ts:49-52 | a non-blank city whose token differs from a non-blank country key always turns it on |
| SearchCities.StrictFilterOffForCountry | shared/src/search-cities.ts:45-53 | a city naming the country itself, in any spelling or alias, never turns it on (country key taken as `normalizeLocationToken`) |
| SearchCities.MatchesRequestedCityBlank | shared/src/search-cities.ts:55-61 | a missing or blank location, or a blank requested city, never matches |
| SearchCities.MatchesRequestedCityContains | shared/src/search-cities.ts:59-62 | a match means the requested token occurs inside the job's token, so it is no longer |
| SearchCities.MatchesSameCity | shared/src/search-cities.ts:55-63 | a job located exactly at the requested city, up to case, spacing and aliases, matches it |
| NormalizeStringArray.NormalizeStringArray | shared/src/normalize-string-array.ts:1-21 | the loop's output equals the specification `Normalized`: trim, drop empties, keep the first spelling of each lower-cased key |
| NormalizeStringArray.TrimAndKeepFirst | shared/src/normalize-string-array.ts:6-18 | the trim, skip-empty, skip-seen-key loop computes `KeepFirst(TrimmedNonEmpty(values), {})` |
| NormalizeStringArray.NormalizedEmptyInput | shared/src/normalize-string-array.ts:4-4 | null, undefined and [] all give [] |
| NormalizeStringArray.NormalizedShape | shared/src/normalize-string-array.ts:9-18 | every output element is trimmed and non-empty, no two are equal case-insensitively, and each is the first spelling of its key among the trimmed inputs |
| NormalizeStringArray.NormalizedOrder | shared/src/normalize-string-array.ts:9-18 | the output is a subsequence of the trimmed inputs, so first occurrences keep their order, and it is no longer than the input |
| NormalizeStringArray.NormalizedCovers | shared/src/normalize-string-array.ts:9-18 | every key present among the trimmed non-empty inputs is kept |
| NormalizeStringArray.NormalizedIdempotent | shared/src/normalize-string-array.ts:1-21 | normalising twice equals normalising once |
| Dedupe.KeepFirstProps | shared/src/normalize-string-array.ts:13-17 | the kept values avoid the keys already seen, have pairwise distinct keys, form a subsequence of the input and are no more numerous |
| Dedupe.KeepFirstSpelling | shared/src/normalize-string-array.ts:13-17 | every kept value is the first spelling of its key in the input |
| Dedupe.KeepFirstCovers | shared/src/normalize-string-array.ts:13-17 | every key of the input was either seen before or is kept |
| Dedupe.KeepFirstOfDistinct | shared/src/normalize-string-array.ts:13-17 | a list whose keys are distinct and unseen is kept whole |
| Dedupe.KeepFirstIdempotent | shared/src/normalize-string-array.ts:13-17 | deduplicating twice is the same as deduplicating once |
| Dedupe.TrimmedNonEmptyClean | shared/src/normalize-string-array.ts:10-11 | every value left after trimming and dropping empties is trimmed and non-empty |
| Dedupe.TrimmedNonEmptyIdempotent | shared/src/normalize-string-array.ts:10-11 | trimming and dropping empties twice is the same as once |
| StringUtils.CollapseWhitespace | shared/src/utils/string.ts:2-2 | after replacing whitespace runs, every whitespace character is a single plain space; the text is empty, and starts with whitespace, exactly when the input was and did |
| StringUtils.CollapseOfCollapsed | shared/src/utils/string.ts:2-2 | a string with no whitespace runs and no whitespace other than spaces is left as it is |
| StringUtils.CollapseChars | shared/src/utils/string.ts:2-2 | collapsing only drops characters or turns whitespace into a space |
| StringUtils.NormalizeWhitespaceShape | shared/src/utils/string.ts:1-3 | the result has no leading or trailing whitespace and no whitespace other than single spaces |
| StringUtils.NormalizeWhitespaceFixed | shared/src/utils/string.ts:1-3 | text already in that form is unchanged |
| StringUtils.NormalizeWhitespaceIdempotent | shared/src/utils/string.ts:1-3 | normalising twice equals normalising once |
| StringUtils.ReplaceTags | shared/src/utils/string.ts:6-6 | after replacing `<...>` spans with a space, no complete tag is left and every character is a space or came from the input |
| StringUtils.ReplaceTagsNoOpen | shared/src/utils/string.ts:6-6 | text without "<" has no tag to replace |
| StringUtils.StripHtmlTagsShape | shared/src/utils/string.ts:5-7 | the stripped text is in normal whitespace form |
| StringUtils.StripHtmlTagsPlain | shared/src/utils/string.ts:5-7 | text with no "<" and no whitespace runs is unchanged apart from trimming |
| TokenizedInput.MergeUnique | orchestrator/src/client/pages/orchestrator/TokenizedInput.tsx:17-27 | the loop's output equals the specification `Merged` (existing values, then each new value whose key is new) |
| TokenizedInput.MergedProps | orchestrator/src/client/pages/orchestrator/TokenizedInput.tsx:17-27 | the existing values are a prefix of the merge; each appended value comes from the new values and has a key that no existing value and no earlier appended value has; the keys afterwards are exactly the keys of both lists |
| TokenizedInput.MergedKeepsFirstSpelling | orchestrator/src/client/pages/orchestrator/TokenizedInput.tsx:20-25 | each appended value is the first spelling of its key among the new values |
| TokenizedInput.MergedIdempotent | orchestrator/src/client/pages/orchestrator/TokenizedInput.tsx:17-27 | merging the same new values a second time changes nothing |
| TokenizedInput.AddValuesSpec | orchestrator/src/client/pages/orchestrator/TokenizedInput.tsx:40-44 | adding emits a change exactly when the parsed input is non-empty, and the change keeps the old values as its prefix |
| TokenizedInput.CommitSpec | orchestrator/src/client/pages/orchestrator/TokenizedInput.tsx:52-63 | Enter, "," and blur always clear the draft; the chips are kept when the draft parses to nothing, and otherwise gain exactly the keys of the parsed draft behind the old chips |
| TokenizedInput.PasteSpec | orchestrator/src/client/pages/orchestrator/TokenizedInput.tsx:64-71 | a paste parsing to at most one value is left to the browser; a larger one is intercepted, adds the parsed values and keeps the draft |
| TokenizedInput.RemoveValueSpec | orchestrator/src/client/pages/orchestrator/TokenizedInput.tsx:82-84 | removing a chip drops every entry equal to its value and keeps every other entry, with its multiplicity, in its original order |
| TokenizedInput.RemoveLength | orchestrator/src/client/pages/orchestrator/TokenizedInput.tsx:82-84 | the list shrinks by exactly the number of entries equal to the removed value |
| AutomaticRun.PresetsGraded | orchestrator/src/client/pages/orchestrator/automatic-run.ts:34-56 | from fast to balanced to detailed, each preset processes more jobs, fetches more per source and accepts lower scores |
| AutomaticRun.ParsedTermsClean | orchestrator/src/client/pages/orchestrator/automatic-run.ts:65-70 | every parsed term is trimmed, non-empty and holds no newline or comma |
| AutomaticRun.ParseSearchTermsConcat | orchestrator/src/client/pages/orchestrator/automatic-run.ts:65-70 | terms on the two sides of a newline or comma are parsed independently and keep their order |
| AutomaticRun.ParseStringifyRoundTrip | orchestrator/src/client/pages/orchestrator/automatic-run.ts:65-74 | writing clean terms one per line and parsing the text gives the same terms back |
| AutomaticRun.TermCount | orchestrator/src/client/pages/orchestrator/automatic-run.ts:81-81 | the term count is at least one and at least the number of terms |
| AutomaticRun.EstimateBounds | orchestrator/src/client/pages/orchestrator/automatic-run.ts:76-111 | with non-negative settings the cap is non-negative; 0 ≤ discovered.min ≤ discovered.max ≤ cap; processed.min ≤ processed.max ≤ topN; each processed bound is at most its discovered bound, and they are equal when topN is at least discovered.max |
| AutomaticRun.EstimateIgnoresOtherSources | orchestrator/src/client/pages/orchestrator/automatic-run.ts:82-94 | a source other than indeed, linkedin, gradcracker and ukvisajobs adds nothing to the estimate |
| AutomaticRun.EstimateExample | orchestrator/src/client/pages/orchestrator/automatic-run.ts:87-98 | two terms, 100 results per board, 40 per term from Gradcracker and 30 from UK Visa Jobs give cap 510, discovered 179 to 383, and processed 10 to 10 for topN 10 |
| AutomaticRun.EstimateEmptyTerms | orchestrator/src/client/pages/orchestrator/automatic-run.ts:81-81 | with no search terms the estimate is the one for a single term |
| AutomaticRun.LoadedMemoryInRange | orchestrator/src/client/pages/orchestrator/automatic-run.ts:113-134 | a loaded memory has topN in [1, 50] and minSuitabilityScore in [0, 100]; for stored, parsable text it is null exactly when one of the two fields is not a number |
| AutomaticRun.SaveLoadRoundTrip | orchestrator/src/client/pages/orchestrator/automatic-run.ts:113-142 | saving an in-range memory and loading it back gives the same memory, when parsing reads back what stringify wrote |
| TailoringUtils.DraftIdCounter.constructor | orchestrator/src/client/components/tailoring-utils.ts:12-12 | the counter starts at 0 |
| TailoringUtils.DraftIdCounter.CreateId | orchestrator/src/client/components/tailoring-utils.ts:14-17 | the counter goes up by one and the id is "skill-group-" followed by the new count |
| TailoringUtils.DraftIdInjective | orchestrator/src/client/components/tailoring-utils.ts:14-17 | different counter values give different ids, so the ids handed out are pairwise distinct |
| TailoringUtils.ParseTailoredSkills | orchestrator/src/client/components/tailoring-utils.ts:19-61 | the method's result equals the specification `ParsedSkills` |
| TailoringUtils.CollectSkillItems | orchestrator/src/client/components/tailoring-utils.ts:28-51 | the loop collects exactly the object groups and the bare keywords of the items, in order |
| TailoringUtils.ItemGroupClean | orchestrator/src/client/components/tailoring-utils.ts:36-50 | a group read from an object item has a trimmed name and trimmed non-empty keywords, and is not empty in both |
| TailoringUtils.LegacyKeywordsSpec | orchestrator/src/client/components/tailoring-utils.ts:31-34 | the bare keywords are the trimmed, non-empty string items, in order |
| TailoringUtils.ParsedSkillsShape | orchestrator/src/client/components/tailoring-utils.ts:28-57 | every group is clean; the object groups come first, in order; one "Skills" group of the bare keywords follows, present exactly when some string item is not blank |
| TailoringUtils.ParsedSkillsEmpty | orchestrator/src/client/components/tailoring-utils.ts:22-26 | missing, blank, unparsable and non-array text all give no groups |
| TailoringUtils.ItemGroupOfGroupJson | orchestrator/src/client/components/tailoring-utils.ts:36-50 | a clean group written as JSON reads back as the same group |
| TailoringUtils.SerializeParseRoundTrip | orchestrator/src/client/components/tailoring-utils.ts:19-66 | serialising clean groups and parsing the text gives the same groups, [] included, when JSON.parse reads back what JSON.stringify wrote |
| TailoringUtils.ToEditableSkillGroups | orchestrator/src/client/components/tailoring-utils.ts:68-76 | the counter goes up by the number of groups and the result is `EditableOf`: fresh ids, the names, the keywords joined with ", " |
| TailoringUtils.EditableIdsDistinct | orchestrator/src/client/components/tailoring-utils.ts:71-75 | the editable entries get pairwise distinct ids |
| TailoringUtils.FromEditableSkillGroups | orchestrator/src/client/components/tailoring-utils.ts:78-95 | the loop's result equals the specification `FromEditable` |
| TailoringUtils.FromEditableClean | orchestrator/src/client/components/tailoring-utils.ts:83-92 | every edited group is clean, and there are no more groups than entries |
| TailoringUtils.KeywordsTextRoundTrip | orchestrator/src/client/components/tailoring-utils.ts:74-88 | keywords joined with ", ", after any leading whitespace, split on "," and trimmed give the same keywords |
| TailoringUtils.EditedGroupOfEditable | orchestrator/src/client/components/tailoring-utils.ts:71-92 | an editable entry made from a group reads back as that group, whatever its id |
| TailoringUtils.EditableRoundTrip | orchestrator/src/client/components/tailoring-utils.ts:68-95 | converting clean groups with comma-free keywords to editable entries and back gives the same groups, whatever ids they got |
| TailoringDraft.ParseSelectedIds | orchestrator/src/client/components/tailoring/useTailoringDraft.ts:20-21 | every selected id is non-empty and holds no "," |
| TailoringDraft.SelectedIdsRoundTrip | orchestrator/src/client/components/tailoring/useTailoringDraft.ts:20-21 | non-empty, comma-free ids joined with "," read back as exactly the set of those ids |
| TailoringDraft.HasSelectionDiffSpec | orchestrator/src/client/components/tailoring/useTailoringDraft.ts:23-29 | the selection differs exactly when the two sets are not equal |
| TailoringDraft.ToggledSpec | orchestrator/src/client/components/tailoring/useTailoringDraft.ts:219-226 | toggling flips membership of the one id, leaves every other id alone, and undoes itself |
| TailoringDraft.OpenAfterResetSpec | orchestrator/src/client/components/tailoring/useTailoringDraft.ts:210-217 | after the effect the open id is "" or names an existing group, and it changes exactly when it was non-empty and its group is gone |
| TailoringDraft.UpdatedGroupsSpec | orchestrator/src/client/components/tailoring/useTailoringDraft.ts:237-246 | updating keeps every id and position; only the named field of the groups with that id changes |
| TailoringDraft.RemovedGroupsSpec | orchestrator/src/client/components/tailoring/useTailoringDraft.ts:248-250 | removing drops exactly the groups with that id and keeps the others in order |
| TailoringDraft.BlankGroupIgnored | orchestrator/src/client/components/tailoring/useTailoringDraft.ts:228-235 | a blank group added to the draft does not change the normalised groups, so the skills JSON stays the same |
| TailoringDraft.ParseIncomingDraft | orchestrator/src/client/components/tailoring/useTailoringDraft.ts:31-51 | the counter goes up by the number of parsed groups and the result is `IncomingDraftOf(job)`, with the skills JSON serialised from the draft read back |
| TailoringDraft.MountSnapshotAgrees | orchestrator/src/client/components/tailoring/useTailoringDraft.ts:71-96 | when no stored keyword holds a ",", the mount snapshot of the skills equals the JSON of the draft |
| TailoringDraft.Draft.IsDirtySpec | orchestrator/src/client/components/tailoring/useTailoringDraft.ts:103-120 | dirty exactly when summary, headline, description, skills JSON or the selection set differs from its saved copy |
| TailoringDraft.Draft.constructor | orchestrator/src/client/components/tailoring/useTailoringDraft.ts:62-96 | mounting loads every field and its saved copy from the job, with the skills snapshot taken from the draft's own JSON, so an untouched editor is clean; nothing is open or active |
| TailoringDraft.Draft.ApplyIncomingDraft | orchestrator/src/client/components/tailoring/useTailoringDraft.ts:158-170 | every current field and its saved copy take the same incoming value, so the draft is clean; the open group, the active field and the last job id are untouched |
| TailoringDraft.Draft.Rehydrate | orchestrator/src/client/components/tailoring/useTailoringDraft.ts:187-208 | a new job id always reloads the draft and records the id; the same id reloads it only when it is clean and no field is active, and otherwise nothing changes |
| TailoringDraft.Draft.MarkCurrentAsSaved | orchestrator/src/client/components/tailoring/useTailoringDraft.ts:122-156 | the saved copies take the current values, nothing else changes, and the draft is clean |
| TailoringDraft.Draft.ResetOpenSkillGroup | orchestrator/src/client/components/tailoring/useTailoringDraft.ts:210-217 | only the open group id changes, to `OpenAfterReset` |
| TailoringDraft.Draft.ToggleProject | orchestrator/src/client/components/tailoring/useTailoringDraft.ts:219-226 | only the selection changes, to `Toggled` |
| TailoringDraft.Draft.AddSkillGroup | orchestrator/src/client/components/tailoring/useTailoringDraft.ts:228-235 | the counter goes up by one; a blank group with the new id is appended and opened; the skills JSON does not change |
| TailoringDraft.Draft.UpdateSkillGroup | orchestrator/src/client/components/tailoring/useTailoringDraft.ts:237-246 | only the draft groups change, to `UpdatedGroups` |
| TailoringDraft.Draft.RemoveSkillGroup | orchestrator/src/client/components/tailoring/useTailoringDraft.ts:248-250 | only the draft groups change, to `RemovedGroups` |
| TailoringDraft.Draft.MountAsWritten | orchestrator/src/client/components/tailoring/useTailoringDraft.ts:62-91 | mounting as written: the fields and saved copies come from the job, but the skills snapshot is serialised from the parsed groups rather than from the draft |
| TailoringDraft.MountSnapshotMismatch | orchestrator/src/client/components/tailoring/useTailoringDraft.ts:71-96 | for a stored keywords array holding "a,b", the as-written mount snapshot differs from the draft's JSON, so a freshly mounted editor is dirty |
| Relevance.RuleSumBounds | orchestrator/src/server/services/post-application/ingestion/relevance.ts:67-78 | the weight sum lies between 0 and the total weight of the rules, and is 0 when no term occurs |
| Relevance.RuleSumMatched | orchestrator/src/server/services/post-application/ingestion/relevance.ts:72-76 | a rule whose term occurs adds its full weight, so the sum is at least that weight |
| Relevance.MatchScore | orchestrator/src/server/services/post-application/ingestion/relevance.ts:67-78 | the loop's total equals the specification `MatchScoreOf` |
| Relevance.MatchScoreBlank | orchestrator/src/server/services/post-application/ingestion/relevance.ts:68-69 | a blank value scores 0, whatever the rules |
| Relevance.ComputeKeywordRelevanceScore | orchestrator/src/server/services/post-application/ingestion/relevance.ts:80-100 | the method's score equals the specification `KeywordRelevanceScore` |
| Relevance.KeywordRelevanceScoreSpec | orchestrator/src/server/services/post-application/ingestion/relevance.ts:80-100 | the score lies in [0, 100]; an exclusion term in subject or snippet forces 0; otherwise the score is the sum of the three rule scores, clamped |
| Relevance.ExclusionIgnoresSender | orchestrator/src/server/services/post-application/ingestion/relevance.ts:88-92 | changing only the sender never rescues an excluded email: both scores are 0 |
| Relevance.FirstMatchSpec | orchestrator/src/server/services/post-application/ingestion/relevance.ts:112-158 | over any category list the result is "False positive" exactly when no category term occurs; otherwise the result's category matches and no earlier one does |
| Relevance.ClassifyIsFirstMatch | orchestrator/src/server/services/post-application/ingestion/relevance.ts:112-158 | the if-chain equals the first match over the seven categories in source order (rejection, offer, availability, assessment, interview, referral, confirmation) |
| Relevance.ClassifyByKeywordsSpec | orchestrator/src/server/services/post-application/ingestion/relevance.ts:116-157 | a classification other than "False positive" has a term of its own category and none of an earlier one; "False positive" means no category term occurs at all |
| Relevance.ComputePolicyDecision | orchestrator/src/server/services/post-application/ingestion/relevance.ts:160-171 | the decision never both consults the LLM and marks the email relevant |
| Relevance.PolicyDecisionSpec | orchestrator/src/server/services/post-application/ingestion/relevance.ts:160-171 | relevant exactly from 95 up; the LLM is consulted exactly from 60 to 94 |
| MappingEngine.TokenizeShape | orchestrator/src/server/services/post-application/mapping/engine.ts:63-67 | every token has at least two characters, all of them lower-case letters or digits |
| MappingEngine.NormalizeWord | orchestrator/src/server/services/post-application/mapping/engine.ts:59-61 | a word of token characters is unchanged by normalising |
| MappingEngine.TokenizeWord | orchestrator/src/server/services/post-application/mapping/engine.ts:63-67 | a word of two or more token characters tokenizes to itself alone |
| MappingEngine.OverlapScore | orchestrator/src/server/services/post-application/mapping/engine.ts:69-79 | the counting loop returns the shared-token ratio `OverlapScoreOf` |
| MappingEngine.SetOverlapSpec | orchestrator/src/server/services/post-application/mapping/engine.ts:69-79 | the set overlap lies in [0, 1], is symmetric, is 0 when either set is empty, and is 1 exactly on equal non-empty sets |
| MappingEngine.OverlapScoreSpec | orchestrator/src/server/services/post-application/mapping/engine.ts:69-79 | the overlap of two texts lies in [0, 1], is symmetric, is 0 when either has no token, and is 1 exactly when both have the same non-empty token set |
| MappingEngine.DeriveSignals | orchestrator/src/server/services/post-application/mapping/engine.ts:81-97 | subject, snippet and received time are carried over; a missing sender domain becomes "" |
| MappingEngine.CompanyScore | orchestrator/src/server/services/post-application/mapping/engine.ts:116-121 | the company score lies in [0, 40] |
| MappingEngine.TitleScore | orchestrator/src/server/services/post-application/mapping/engine.ts:123-129 | the title score lies in [0, 30] |
| MappingEngine.TimeScoreSpec | orchestrator/src/server/services/post-application/mapping/engine.ts:143-152 | the time score is one of 1, 2, 4, 7, 10, and it is 2 exactly when the job has no applied time |
| MappingEngine.ComputeComponents | orchestrator/src/server/services/post-application/mapping/engine.ts:110-152 | the method's four component scores are the specification functions' |
| MappingEngine.BuildReasons | orchestrator/src/server/services/post-application/mapping/engine.ts:116-152 | the method's reasons are the specification `Reasons` |
| MappingEngine.ScoreJobCandidate | orchestrator/src/server/services/post-application/mapping/engine.ts:109-163 | the method's candidate is the specification `CandidateOf` |
| MappingEngine.CandidateScoreSpec | orchestrator/src/server/services/post-application/mapping/engine.ts:109-163 | the components lie in their ranges, so the clamp never cuts: the score is their sum within [0, 100], the job id is the job's, and the last reason is the time score |
| MappingEngine.CandidatesOfSpec | orchestrator/src/server/services/post-application/mapping/engine.ts:165-173 | every scored job has a score in [0, 100] and the id of one of the jobs |
| MappingEngine.TopCandidatesOrder | orchestrator/src/server/services/post-application/mapping/engine.ts:165-173 | the top candidates are sorted by score, non-increasing |
| MappingEngine.PickTopCandidatesSpec | orchestrator/src/server/services/post-application/mapping/engine.ts:165-173 | at most five candidates, none exactly when there is no job, sorted by score non-increasing, each naming one of the jobs with a score in [0, 100] |
| MappingEngine.RerankResultSpec | orchestrator/src/server/services/post-application/mapping/engine.ts:239-249 | an LLM reply yields a result exactly when there are candidates and it names a known job, not necessarily one of the candidates; the score is the reply's score rounded and clamped to [0, 100], the method is the LLM rerank, and the reply's job is matched exactly from a score of 60 |
| MappingEngine.PersistRowsSpec | orchestrator/src/server/services/post-application/mapping/engine.ts:252-286 | rows keep the candidates' order with ranks 1..n and their reasons; only the chosen job takes the result's score and method, and only it, from a score of 95, is high-confidence |
| MappingEngine.DecideSpec | orchestrator/src/server/services/post-application/mapping/engine.ts:288-354 | no candidate gives no match, score 0 and no LLM call; a top score of 95 or more matches the top job by keyword; one under 60 matches nothing; in between an accepted LLM reply decides, with its rounded, clamped score and its own job from a score of 60, and otherwise the top job matches by keyword |
| MappingEngine.DecideIgnoresReplyOutsideBand | orchestrator/src/server/services/post-application/mapping/engine.ts:302-354 | outside the [60, 95) band the LLM's reply plays no part in the decision |
| MappingEngine.DecideSound | orchestrator/src/server/services/post-application/mapping/engine.ts:288-354 | when every candidate is in range and names a known job, a match has a score of at least 60 and names a known job, and the score lies in [0, 100] |
| MappingEngine.RunWithoutJobs | orchestrator/src/server/services/post-application/mapping/engine.ts:288-354 | with no job there is no match, a score of 0, no LLM call and no candidate rows |
| MappingEngine.RunJobMappingSound | orchestrator/src/server/services/post-application/mapping/engine.ts:288-354 | over any jobs a match has a score of at least 60 and names one of the jobs, the score lies in [0, 100], the suggestion written is the match returned, and rows are written exactly when there is a job |
| MappingEngine.ComputeCompanyScore | orchestrator/src/server/services/post-application/mapping/engine.ts:116-120 | the company score is the larger of the two employer overlaps, times 40, rounded |
| MappingEngine.ComputeTitleScore | orchestrator/src/server/services/post-application/mapping/engine.ts:123-128 | the title score is the largest of the three title overlaps, times 30, rounded |
| MappingEngine.DomainScore | orchestrator/src/server/services/post-application/mapping/engine.ts:131-140 | the domain score is 20 exactly when an employer token or the employer's own domain occurs in the sender's domain, and 0 otherwise |
| MappingEngine.ReasonsEndWithTime | orchestrator/src/server/services/post-application/mapping/engine.ts:152 | the last reason is always the time score |
| MappingEngine.PickTopCandidatesOrder | orchestrator/src/server/services/post-application/mapping/engine.ts:165-173 | at most five candidates are kept, fewer only when there are fewer jobs, in non-increasing score order |
| MappingEngine.PickTopCandidatesMembers | orchestrator/src/server/services/post-application/mapping/engine.ts:165-173 | each kept candidate is the score of one of the jobs, within [0, 100] |
| GmailSync.AsStringSpec | orchestrator/src/server/services/post-application/ingestion/gmail-sync.ts:117-121 | a present result is the trimmed, non-blank string; None means a non-string or a blank one; a result read back is unchanged |
| GmailSync.ParseGmailCredentialsSpec | orchestrator/src/server/services/post-application/ingestion/gmail-sync.ts:123-145 | credentials exist exactly when there is a non-blank refresh token; the expiry date is kept only when it is a number |
| GmailSync.SyncLimit | orchestrator/src/server/services/post-application/ingestion/gmail-sync.ts:571-572 | the search window and message cap are at least 1, the requested value when it is at least 1, and the default when none is given |
| GmailSync.HeaderValueSpec | orchestrator/src/server/services/post-application/ingestion/gmail-sync.ts:360-365 | the value comes from the first header whose name matches ignoring case, or is "" when no header has the name |
| GmailSync.ParseFromHeaderNamed | orchestrator/src/server/services/post-application/ingestion/gmail-sync.ts:367-380 | for "Name <address>" the sender name is the trimmed name, or None when blank, and the address is trimmed and lower-cased |
| GmailSync.ParseFromHeaderBare | orchestrator/src/server/services/post-application/ingestion/gmail-sync.ts:367-380 | a bare address has no sender name and is itself trimmed and lower-cased |
| GmailSync.DomainOfSpec | orchestrator/src/server/services/post-application/ingestion/gmail-sync.ts:375-377 | there is a domain exactly when the address has an `@` after its first character, and it is the text after the first `@` |
| GmailSync.FromDomainSpec | orchestrator/src/server/services/post-application/ingestion/gmail-sync.ts:367-380 | the address is lower-case, and the domain is the text after its first `@` when that is not at the start |
| GmailSync.StandardAlphabet | orchestrator/src/server/services/post-application/ingestion/gmail-sync.ts:388 | same length, with `-` turned into `+` and `_` into `/` and every other character kept |
| GmailSync.PadBase64Spec | orchestrator/src/server/services/post-application/ingestion/gmail-sync.ts:389 | padding appends fewer than four `=`, reaching a multiple of four, and nothing to a length that already is one |
| GmailSync.StandardAlphabetSpec | orchestrator/src/server/services/post-application/ingestion/gmail-sync.ts:387-391 | the result has neither `-` nor `_`, and text without them is unchanged |
| GmailSync.FindCi | orchestrator/src/server/services/post-application/ingestion/gmail-sync.ts:393-400 | the offset is the first at which the pattern occurs ignoring case, or -1 when it does not occur |
| GmailSync.RemoveBlocksNoOpen | orchestrator/src/server/services/post-application/ingestion/gmail-sync.ts:393-397 | text without `<` has no style or script block to remove |
| GmailSync.HtmlToTextShape | orchestrator/src/server/services/post-application/ingestion/gmail-sync.ts:393-400 | the text has no leading or trailing space and no whitespace other than single spaces |
| GmailSync.HtmlToTextPlain | orchestrator/src/server/services/post-application/ingestion/gmail-sync.ts:393-400 | plain text without markup, already in normal form, comes through unchanged |
| GmailSync.Walk | orchestrator/src/server/services/post-application/ingestion/gmail-sync.ts:405-419 | the walk appends to the chunks so far this part's chunk and then each child's, in order (the specification `Chunks`) |
| GmailSync.ExtractBodyText | orchestrator/src/server/services/post-application/ingestion/gmail-sync.ts:402-425 | the method's text is the non-empty chunks joined by a blank line and trimmed, as the specification `BodyText` |
| GmailSync.BodyTextEmpty | orchestrator/src/server/services/post-application/ingestion/gmail-sync.ts:402-425 | a message without a payload, or with no "text/" part carrying data, has an empty body |
| GmailSync.BodyTextSingle | orchestrator/src/server/services/post-application/ingestion/gmail-sync.ts:402-425 | a single non-html "text/" part gives its decoded data, trimmed |
| GmailSync.ClassifyResultSpec | orchestrator/src/server/services/post-application/ingestion/gmail-sync.ts:477-498 | the score is clamped to [0, 100] and the confidence to [0, 1], 0 for a non-number; a relevant reply has a score of at least 60 |
| GmailSync.FalsePositiveNeverRelevant | orchestrator/src/server/services/post-application/ingestion/gmail-sync.ts:716-719 | a reply labelled "False positive", in any case, is never relevant |
| GmailSync.StepConsistent | orchestrator/src/server/services/post-application/ingestion/gmail-sync.ts:618-762 | each message keeps matched ≤ relevant ≤ classified and classified + errored ≤ discovered, and adds one to discovered |
| GmailSync.Bump | orchestrator/src/server/services/post-application/ingestion/gmail-sync.ts:618-762 | the loop body's counter updates are the specification `Step` for the message's branch |
| GmailSync.SyncMessages | orchestrator/src/server/services/post-application/ingestion/gmail-sync.ts:618-762 | the loop's counters are the specification `SummaryOf` over the messages, consistent, with one discovery per message |
| GmailSync.SummaryAppend | orchestrator/src/server/services/post-application/ingestion/gmail-sync.ts:618-762 | the counters of a sync are the sums over its parts, so a message that errs does not disturb the counting of those after it |
| GmailSync.ErroredMessage | orchestrator/src/server/services/post-application/ingestion/gmail-sync.ts:759-761 | a message that throws, or whose LLM call fails, counts only as discovered and errored |
| GmailSync.LowKeywordScoreSkipped | orchestrator/src/server/services/post-application/ingestion/gmail-sync.ts:639-660 | keyword scores under 60 are stored as not relevant without consulting the LLM |
| GmailSync.HighKeywordScoreRelevant | orchestrator/src/server/services/post-application/ingestion/gmail-sync.ts:662-701 | keyword scores of 95 and up are relevant without consulting the LLM, whatever it would say |
| ReviewService.JobStatusOf | orchestrator/src/server/services/post-application/review/service.ts:26-35 | every stage maps the job to status "applied" |
| ReviewService.InferStage | orchestrator/src/server/services/post-application/review/service.ts:37-45 | a stage is inferred exactly for the message types interview, offer, rejection and update |
| ReviewService.InferStageSpec | orchestrator/src/server/services/post-application/review/service.ts:37-45 | interview gives the technical interview, offer the offer, rejection closed and update the recruiter screen; no type gives "applied" |
| ReviewService.FindPending | orchestrator/src/server/services/post-application/review/service.ts:89-103 | success exactly for an existing message of this provider and account that is still pending, returning it; not found exactly when it is missing or another account's; otherwise a conflict |
| ReviewService.ResolveJobId | orchestrator/src/server/services/post-application/review/service.ts:105-110 | the explicit job id wins over the matched one, and an empty or missing id resolves to none |
| ReviewService.ApproveCheck | orchestrator/src/server/services/post-application/review/service.ts:89-116 | an approval passes only for a pending message with a resolved job id of a known job; the message guards' error comes first, and a missing job id is unprocessable |
| ReviewService.TargetStageSpec | orchestrator/src/server/services/post-application/review/service.ts:130-137 | an explicit stage always wins; rejection goes to closed; a type that names no stage keeps the stage of the latest event, or "applied" |
| ReviewService.OccurredAtSeconds | orchestrator/src/server/services/post-application/review/service.ts:138-141 | the event time is the whole second containing the received time, or the decision time when that is not finite |
| ReviewService.LatestEvent | orchestrator/src/server/services/post-application/review/service.ts:122-131 | none exactly when the job has no event; otherwise one of the job's events, with a time no other event of the job exceeds |
| ReviewService.Decided | orchestrator/src/server/services/post-application/review/service.ts:189-195 | the decided message keeps its identity and type and takes the new status, matched job, decision time and decider |
| ReviewService.DecisionIsFinal | orchestrator/src/server/services/post-application/review/service.ts:99-103 | once decided, deciding the message again is a conflict |
| ReviewService.Bumped | orchestrator/src/server/services/post-application/review/service.ts:177-184 | the counter of the named run goes up by one and every other is unchanged; no row, no change |
| ReviewService.ApprovedJob | orchestrator/src/server/services/post-application/review/service.ts:164-174 | an approved job has status "applied" and keeps its applied time, taking the decision time only when it had none |
| ReviewService.ReviewStore.constructor | orchestrator/src/server/services/post-application/review/service.ts:24 | the store holds the given tables |
| ReviewService.ReviewStore.Approve | orchestrator/src/server/services/post-application/review/service.ts:80-204 | fails exactly when the checks fail, with their error and nothing changed; otherwise the message is linked, the run's approved counter bumped and, except for an "other" message, one stage event appended and the job updated |
| ReviewService.ReviewStore.Link | orchestrator/src/server/services/post-application/review/service.ts:118-196 | the writes of a passed approval: the stage event and job update unless the message is "other", the run counter, then the decided message |
| ReviewService.ReviewStore.Deny | orchestrator/src/server/services/post-application/review/service.ts:206-253 | fails exactly when the message guards fail, changing nothing; otherwise the message is ignored and the run's denied counter bumped when it has a run; jobs and events never change |
| ReviewService.LastWithId | orchestrator/src/server/services/post-application/review/service.ts:51 | the position of the last job with the id, or -1 when none has it |
| ReviewService.JobById | orchestrator/src/server/services/post-application/review/service.ts:51 | a job is found exactly when one has the id, and it is one of the jobs with that id |
| ReviewService.BuildMatchedJobMap | orchestrator/src/server/services/post-application/review/service.ts:47-58 | one row per message in order, carrying the job of its truthy matched id, if known |
| ReviewService.MatchedJobNamed | orchestrator/src/server/services/post-application/review/service.ts:47-58 | a matched job is always the job the message names, and a message without a match gets none |
| ReviewService.MatchedJobIds | orchestrator/src/server/services/post-application/review/service.ts:73-75 | the truthy matched ids, each once, exactly the ones some message carries |
| ReviewService.JobsWithIds | orchestrator/src/server/services/post-application/review/service.ts:76 | the jobs kept are exactly those whose id is requested |
| ReviewService.JobByIdSnoc | orchestrator/src/server/services/post-application/review/service.ts:51 | a later job with the same id overrides earlier ones, and no other lookup changes |
| ReviewService.InboxLookupComplete | orchestrator/src/server/services/post-application/review/service.ts:60-78 | looking up only the deduplicated matched ids loses no match: every inbox row carries the job it would get from the whole job table |
| TrackingInbox.FindCandidateByJob | orchestrator/src/client/pages/TrackingInboxPage.tsx:71-73 | the index of the first candidate for the job, or -1 when no candidate is for it |
| TrackingInbox.FirstCandidateIdSpec | orchestrator/src/client/pages/TrackingInboxPage.tsx:69-77 | the candidate for the matched job comes first, then the first candidate, then ""; with candidates the result names one of them |
| TrackingInbox.SenderLabelSpec | orchestrator/src/client/pages/TrackingInboxPage.tsx:84-97 | never blank: a non-blank sender name wins, trimmed; a blank address gives "Unknown sender"; an address with "<" after its first character shows the trimmed text before it; otherwise the trimmed address |
| TrackingInbox.ScoreTextClassSpec | orchestrator/src/client/pages/TrackingInboxPage.tsx:99-104 | scores of 70 and up are emerald, from 50 below 70 the foreground colour, and lower scores and null muted |
| TrackingInbox.AppliedJobLabelSpec | orchestrator/src/client/pages/TrackingInboxPage.tsx:106-113 | employer and title joined by " - " when both are non-blank, else whichever is, else the job id |
| TrackingInbox.AppliedJobLabelTrimmed | orchestrator/src/client/pages/TrackingInboxPage.tsx:106-113 | apart from the bare job id, the label has no surrounding whitespace |
| TrackingInbox.Primed | orchestrator/src/client/pages/TrackingInboxPage.tsx:351-368 | priming keeps every earlier key and gives every item's message a selection |
| TrackingInbox.PrimeCandidateSelections | orchestrator/src/client/pages/TrackingInboxPage.tsx:351-368 | the updater's loop over a copy of the previous record computes the specification `Primed` |
| TrackingInbox.PrimedFrame | orchestrator/src/client/pages/TrackingInboxPage.tsx:355-363 | priming leaves every key that is not an item's message id as it was |
| TrackingInbox.PrimedEntry | orchestrator/src/client/pages/TrackingInboxPage.tsx:355-363 | for distinct message ids, each message keeps a truthy selection naming one of its candidates and otherwise gets its first candidate id |
| TrackingInbox.PrimedValid | orchestrator/src/client/pages/TrackingInboxPage.tsx:351-368 | after priming each message has a selection naming one of its candidates, or "" when it has none, and a valid earlier selection is kept |
| TrackingInbox.SyncInput | orchestrator/src/client/pages/TrackingInboxPage.tsx:570-582 | the sync form is accepted exactly when both fields parse as integers, max messages in [1, 500] and search days in [1, 365], and then yields those integers |
| TrackingInbox.SyncInputAccepts | orchestrator/src/client/pages/TrackingInboxPage.tsx:570-582 | printed limits inside the ranges are accepted unchanged |
| TrackingInbox.CanDecide | orchestrator/src/client/pages/TrackingInboxPage.tsx:226-228 | only a pending message can be decided; with candidates exactly when one is selected, without them exactly when a job is picked |
| TrackingInbox.PrimedCanDecide | orchestrator/src/client/pages/TrackingInboxPage.tsx:226-228 | a primed pending message with candidates whose ids are non-empty can be decided |
| SelectJobs.Eligible | orchestrator/src/server/pipeline/steps/select-jobs.ts:9-12 | exactly the input jobs whose score, 0 when missing, reaches the minimum |
| SelectJobs.PrefixDominates | orchestrator/src/server/pipeline/steps/select-jobs.ts:13-17 | in a best-first order nothing after the slice outranks anything in it |
| SelectJobs.SelectJobsPrefix | orchestrator/src/server/pipeline/steps/select-jobs.ts:8-17 | the selection is a prefix of the eligible jobs sorted best first |
| SelectJobs.SelectJobsSpec | orchestrator/src/server/pipeline/steps/select-jobs.ts:8-17 | every selected job reaches the minimum, the selection is best first, and each job is taken from the input without duplication |
| SelectJobs.SelectJobsSize | orchestrator/src/server/pipeline/steps/select-jobs.ts:17 | with a non-negative top N, as many eligible jobs as there are, up to top N |
| SelectJobs.SelectJobsMaximal | orchestrator/src/server/pipeline/steps/select-jobs.ts:8-17 | no eligible job left out scores higher than one kept |
| DiscoverJobs.StringEntries | orchestrator/src/server/pipeline/steps/discover-jobs.ts:35 | exactly the array's string entries, and no more entries than the array |
| DiscoverJobs.BlockedCompanyKeywordsSpec | orchestrator/src/server/pipeline/steps/discover-jobs.ts:29-40 | a missing, empty, unparsable or non-array setting gives no keywords; otherwise the array's string entries normalised: trimmed, non-empty, one per case-insensitive key, every key kept |
| DiscoverJobs.AnyContainedSpec | orchestrator/src/server/pipeline/steps/discover-jobs.ts:49-51 | some keyword occurs in the text exactly when one of them is contained in it |
| DiscoverJobs.LowerAll | orchestrator/src/server/pipeline/steps/discover-jobs.ts:254-256 | one lower-cased keyword per keyword |
| DiscoverJobs.IsBlockedEmployerSpec | orchestrator/src/server/pipeline/steps/discover-jobs.ts:42-52 | blocked exactly when there is a non-empty employer whose lower-cased name contains a keyword |
| DiscoverJobs.BlockedByInfix | orchestrator/src/server/pipeline/steps/discover-jobs.ts:42-52 | matching ignores case: an employer name holding a blocked keyword, in any case, is blocked |
| DiscoverJobs.SearchTermsFromEnv | orchestrator/src/server/pipeline/steps/discover-jobs.ts:74-81 | without the setting the terms always exist, each trimmed, non-empty and free of the pipe character |
| DiscoverJobs.SearchTermsDefault | orchestrator/src/server/pipeline/steps/discover-jobs.ts:75-76 | with neither the setting nor the environment variable, the one term "web developer" |
| DiscoverJobs.SearchTermsEnvRoundTrip | orchestrator/src/server/pipeline/steps/discover-jobs.ts:74-81 | clean terms written to the environment joined by the pipe character are read back unchanged |
| DiscoverJobs.EnvSearchTermsSet | orchestrator/src/server/pipeline/steps/discover-jobs.ts:75-80 | a non-empty environment variable is split on the pipe character, trimmed, with empty pieces dropped |
| DiscoverJobs.GroupIndex | orchestrator/src/server/pipeline/steps/discover-jobs.ts:124 | the position of the group for the manifest, or -1 exactly when no group has it |
| DiscoverJobs.GroupByManifest | orchestrator/src/server/pipeline/steps/discover-jobs.ts:117-135 | the grouping loop computes the specification `Grouping`: the groups and the not-registered errors |
| DiscoverJobs.SourcesOfSnoc | orchestrator/src/server/pipeline/steps/discover-jobs.ts:117-135 | one more source adds itself to the sources of its own manifest and to no other |
| DiscoverJobs.AddUnregisteredKeeps | orchestrator/src/server/pipeline/steps/discover-jobs.ts:119-122 | an unregistered source leaves the groups as they are |
| DiscoverJobs.AddToGroupKeeps | orchestrator/src/server/pipeline/steps/discover-jobs.ts:124-128 | a source whose manifest already has a group is appended to that group, keeping the grouping invariant |
| DiscoverJobs.AddNewGroupKeeps | orchestrator/src/server/pipeline/steps/discover-jobs.ts:130-134 | a source whose manifest has no group yet opens a new group at the end, keeping the grouping invariant |
| DiscoverJobs.NewGroupCovers | orchestrator/src/server/pipeline/steps/discover-jobs.ts:130-134 | after a new group opens, every registered source seen so far still has a group |
| DiscoverJobs.AddSourceKeeps | orchestrator/src/server/pipeline/steps/discover-jobs.ts:117-135 | each iteration keeps the grouping invariant |
| DiscoverJobs.GroupingSpec | orchestrator/src/server/pipeline/steps/discover-jobs.ts:112-135 | the groups have distinct manifests, each holds exactly its manifest's sources in order, and every registered source has a group |
| DiscoverJobs.GroupingErrors | orchestrator/src/server/pipeline/steps/discover-jobs.ts:119-122 | one error per unregistered source, in order, "<source>: extractor manifest not registered" |
| DiscoverJobs.BuildTasks | orchestrator/src/server/pipeline/steps/discover-jobs.ts:137-197 | the loop's tasks are the specification `Tasks` |
| DiscoverJobs.TasksSpec | orchestrator/src/server/pipeline/steps/discover-jobs.ts:139-149 | groups whose manifest is missing are skipped; with every manifest present, one task per group with its sources, in order |
| DiscoverJobs.TaskResultOf | orchestrator/src/server/pipeline/steps/discover-jobs.ts:182-194 | a task yields its jobs and no error exactly on success; otherwise no jobs and one error, "<sources joined by ,>: <error>" for a failed result and "<manifest id>: <message>" for a thrown one |
| DiscoverJobs.Aggregate | orchestrator/src/server/pipeline/steps/discover-jobs.ts:246-249 | the loop appends all results' jobs and errors, in order |
| DiscoverJobs.AggregateEmpty | orchestrator/src/server/pipeline/steps/discover-jobs.ts:246-249 | there is no error exactly when no result has one, and no job exactly when no result has any |
| DiscoverJobs.PlanStep | orchestrator/src/server/pipeline/steps/discover-jobs.ts:66-197 | the steps before the pool compute the specification `Plan` |
| DiscoverJobs.DiscoverJobsStep | orchestrator/src/server/pipeline/steps/discover-jobs.ts:54-296 | the step computes the specification `Discover` |
| DiscoverJobs.PlanCountry | orchestrator/src/server/pipeline/steps/discover-jobs.ts:83-110 | incompatible sources are skipped, and the step fails when sources were requested but none is compatible with the selected country |
| DiscoverJobs.TasksMembers | orchestrator/src/server/pipeline/steps/discover-jobs.ts:139-197 | every task carries the sources of one of the groups |
| DiscoverJobs.AllSourcesFailedRule | orchestrator/src/server/pipeline/steps/discover-jobs.ts:281-287 | once the pool has run and the step is not cancelled, it fails exactly when no job survives the filter and some source reported an error, with the errors joined by "; " |
| DiscoverJobs.DiscoveredJobsFiltered | orchestrator/src/server/pipeline/steps/discover-jobs.ts:251-259 | the returned jobs are the discovered ones without blocked employers, in order: each kept job is unblocked and every unblocked one is kept |
| DiscoverJobs.GroupingOne | orchestrator/src/server/pipeline/steps/discover-jobs.ts:117-135 | a single registered source opens one group |
| DiscoverJobs.PlanOne | orchestrator/src/server/pipeline/steps/discover-jobs.ts:66-197 | a single compatible, registered source plans one task for its manifest |
| DiscoverJobs.SingleFailingSource | orchestrator/src/server/pipeline/steps/discover-jobs.ts:182-188 | a failing source alone fails the step with "All sources failed: <source>: <error>" |
| ScoreJobs.AutoSkipSpec | orchestrator/src/server/pipeline/steps/score-jobs.ts:24-26 | a job is skipped exactly when it is not applied, the threshold setting parses to a number and the score is below it; an unset setting never skips |
| ScoreJobs.AutoSkipPrinted | orchestrator/src/server/pipeline/steps/score-jobs.ts:85-89 | a threshold written as a number skips a non-applied job exactly when its score is lower |
| ScoreJobs.SponsorFields | orchestrator/src/server/pipeline/steps/score-jobs.ts:69-82 | a job without a truthy employer gets a sponsor score of 0 and no names |
| ScoreJobs.ScoreOne | orchestrator/src/server/pipeline/steps/score-jobs.ts:44-115 | a cached score is kept with no row update; otherwise the scorer's score and reason are pushed and written, and the job is marked skipped exactly when the auto-skip rule says so |
| ScoreJobs.ScoreJobsStep | orchestrator/src/server/pipeline/steps/score-jobs.ts:37-116 | every job is scored once, in order, and counted; the row updates are the specification `Updates` |
| ScoreJobs.UpdatesCount | orchestrator/src/server/pipeline/steps/score-jobs.ts:91-97 | exactly one row update per job without a cached score |
| ScoreJobs.UnscoredStep | orchestrator/src/server/pipeline/steps/score-jobs.ts:47-64 | one more job adds one unscored index exactly when it has no cached score |
| ScoreJobs.UpdatesOnlyUnscored | orchestrator/src/server/pipeline/steps/score-jobs.ts:47-64 | every row update is for an input job without a cached score: a cached score is never rescored |
| JobsRoutes.ParseStatusFilterSpec | orchestrator/src/server/api/routes/jobs.ts:238-243 | a parsed filter is a non-empty list of non-empty statuses without ","; it is none exactly when there is no filter or every piece is empty |
| JobsRoutes.ParseStatusFilterRoundTrip | orchestrator/src/server/api/routes/jobs.ts:238-243 | statuses joined with "," parse back to the same list |
| JobsRoutes.MapErrorForResult | orchestrator/src/server/api/routes/jobs.ts:275-299 | an AppError keeps its code, message and details; anything else is INTERNAL_ERROR with no details and a non-empty message, the Error's own when it has one |
| JobsRoutes.MapJobActionFailure | orchestrator/src/server/api/routes/jobs.ts:470-494 | a known code keeps its tabulated status; an unknown one becomes INTERNAL_ERROR with 500; the message is kept |
| JobsRoutes.ErrorMappingRoundTrip | orchestrator/src/server/api/routes/jobs.ts:275-299 | mapping an AppError into a per-job result and back restores it, without details, whenever its status is the one tabulated for its code |
| JobsRoutes.ExecuteJobActionSpec | orchestrator/src/server/api/routes/jobs.ts:330-468 | the result is for the requested job; it succeeds only for an existing job whose status passes the action's gate; a missing job is NOT_FOUND, a refused gate INVALID_REQUEST naming the status |
| JobsRoutes.GatesMatchClient | orchestrator/src/server/api/routes/jobs.ts:233-236 | the server's skip, move-to-ready and rescore gates agree with the client's checks on a single job |
| JobsRoutes.UniqueSpec | orchestrator/src/server/api/routes/jobs.ts:607 | the deduplicated ids are distinct, exactly the requested ids, and no more of them |
| JobsRoutes.BulkActionSpec | orchestrator/src/server/api/routes/jobs.ts:604-668 | a request succeeds exactly when its 1 to 100 ids are non-empty; then one result per distinct id, each for a requested id, and every requested id has one; succeeded + failed = results = requested |
| JobsRoutes.StreamActions | orchestrator/src/server/api/routes/jobs.ts:745-787 | the jobs begun while the client is connected run in order, each result pushed, with succeeded counting the successes and succeeded + failed the results |
| JobsRoutes.StreamMatchesBulk | orchestrator/src/server/api/routes/jobs.ts:673-852 | a stream that runs to completion reports what the plain bulk action reports |
| JobsRoutes.FirstForwardedSpec | orchestrator/src/server/api/routes/jobs.ts:262-265 | only the first comma-separated element of a forwarded header counts, trimmed |
| JobsRoutes.ResolveRequestOrigin | orchestrator/src/server/api/routes/jobs.ts:245-273 | a usable configured base URL wins; otherwise the request's protocol and host, each replaced by the first forwarded value only when proxies are trusted and that value is non-empty |
| JobsRoutes.OriginNullWhenEmpty | orchestrator/src/server/api/routes/jobs.ts:270-272 | the origin is null exactly when the protocol or the host is empty, and otherwise begins with the protocol |
| JobsRoutes.ClearThresholdSpec | orchestrator/src/server/api/routes/jobs.ts:1324-1336 | the threshold is accepted exactly when parseInt gives a number in [0, 100], and is that number; otherwise the answer is 400 |
| JobsRoutes.ClearThresholdPrinted | orchestrator/src/server/api/routes/jobs.ts:1324-1336 | a printed threshold in range is accepted as that number, whatever non-digit text follows it |
| JobsRoutes.CloseOutClosedAt | orchestrator/src/server/api/routes/jobs.ts:991-993 | no outcome gives no closing time; an outcome keeps a given closing time, or takes now in whole seconds |
| JobsRoutes.TailoredSkillsIssueSpec | orchestrator/src/server/api/routes/jobs.ts:145-172 | blank or missing passes; otherwise the value passes exactly when it parses to an array of skill groups, so a single group object is refused |
| ApplicationTracking.ParseMetadataSpec | orchestrator/src/server/services/applicationTracking.ts:274-284 | falsy input is null, an unparsable string null, a parsable one its parse, and any other value, an object in particular, is returned as it is, so parsing an object twice changes nothing |
| ApplicationTracking.EnsureAssessmentGroupSpec | orchestrator/src/server/services/applicationTracking.ts:256-272 | non-assessment metadata is unchanged; an assessment's is an object whose groupId is the given one, else the last assessment's, else "oa_<timestamp>", whose groupLabel defaults to "Online assessment", and whose other keys are the given metadata's |
| ApplicationTracking.PutTwoFields | orchestrator/src/server/services/applicationTracking.ts:267-271 | two puts of distinct keys: each key holds its value and every other key is as it was |
| ApplicationTracking.Latest | orchestrator/src/server/services/applicationTracking.ts:104-110 | none exactly when no event matches; otherwise a matching event with a time no other matching event exceeds |
| ApplicationTracking.FromStageAfter | orchestrator/src/server/services/applicationTracking.ts:104-112 | an event at or after every earlier event of its application becomes the latest: the next transition's fromStage is its toStage |
| ApplicationTracking.TransitionedSpec | orchestrator/src/server/services/applicationTracking.ts:131-144 | every stage leaves the job "applied"; appliedAt is set only on the first "applied" and never overwritten; an outcome sets closedAt to the transition time, or to the latest event time when ghosted; without an outcome both stay as they were |
| ApplicationTracking.AutoTasksSpec | orchestrator/src/server/services/applicationTracking.ts:164-233 | at most one task, open and for the application, due at the action's offset; none when the action has no rule or an open task of that type exists; recruiter-screen prep is due a day before, an assessment three days after |
| ApplicationTracking.Store.constructor | orchestrator/src/server/services/applicationTracking.ts:17 | the store holds the given tables |
| ApplicationTracking.Store.BuildAutoTasks | orchestrator/src/server/services/applicationTracking.ts:164-233 | the method's tasks are the specification `AutoTasks` |
| ApplicationTracking.Store.JobUpdates | orchestrator/src/server/services/applicationTracking.ts:131-144 | the method's job row is the specification `Transitioned` |
| ApplicationTracking.Store.TransitionStage | orchestrator/src/server/services/applicationTracking.ts:81-162 | invalid input and a missing job fail, changing nothing; otherwise the event is appended, the job row updated and the automatic tasks appended, keeping the store valid |
| ApplicationTracking.GhostedClosedAt | orchestrator/src/server/services/applicationTracking.ts:286-294 | a ghosted close-out takes the latest event time after the insert, never earlier than the transition nor than any earlier event |
| JobActions.ActionChecksNested | orchestrator/src/client/pages/orchestrator/jobActions.ts:3-17 | moving to ready implies skipping, skipping implies rescoring, and all three refuse an empty selection |
| JobActions.ActionChecksSingle | orchestrator/src/client/pages/orchestrator/jobActions.ts:3-17 | for one job: skip exactly from discovered or ready, move to ready exactly from discovered, rescore from anything but processing |
| JobActions.ActionChecksAppend | orchestrator/src/client/pages/orchestrator/jobActions.ts:5-17 | adding a job keeps each check exactly when it also holds for that job alone |
| JobActions.FailedJobIds | orchestrator/src/client/pages/orchestrator/jobActions.ts:19-24 | exactly the ids of results that did not succeed |
| JobActions.FailedJobIdsSnoc | orchestrator/src/client/pages/orchestrator/jobActions.ts:19-24 | the failed set grows with each failed result and ignores successes |
| JobSelectionActions.ClampNumber | orchestrator/src/client/pages/orchestrator/useJobSelectionActions.tsx:141-145 | the result lies in [min, max], is the value when it already does, and the nearer bound otherwise |
| JobSelectionActions.SafeCounts | orchestrator/src/client/pages/orchestrator/useJobSelectionActions.tsx:139-147 | at least one job requested and a completed count between zero and that, each as reported when it already makes sense |
| JobSelectionActions.ProgressTitleShape | orchestrator/src/client/pages/orchestrator/useJobSelectionActions.tsx:139-147 | the title always reads "c/r label" with 1 ≤ r and c ≤ r |
| JobSelectionActions.ErrorText | orchestrator/src/client/pages/orchestrator/useJobSelectionActions.tsx:174-177 | an error event leaves a non-empty message, its own when it has one |
| JobSelectionActions.StreamErrorLast | orchestrator/src/client/pages/orchestrator/useJobSelectionActions.tsx:173-177 | the stream error is set exactly when an error event arrived, and it is the message of the last one |
| JobSelectionActions.FinalResultLast | orchestrator/src/client/pages/orchestrator/useJobSelectionActions.tsx:200-214 | the final result is set exactly when a completion event arrived, and it is built from the last one |
| JobSelectionActions.ConsumeStream | orchestrator/src/client/pages/orchestrator/useJobSelectionActions.tsx:173-215 | the event handler's error, final result and latest progress are the specification functions over the whole stream |
| JobSelectionActions.StreamOutcomeProps | orchestrator/src/client/pages/orchestrator/useJobSelectionActions.tsx:219-225 | the action succeeds exactly when no error event and some completion event arrived; with neither, it fails with "Job action stream ended before completion" |
| JobSelectionActions.JobSelection.constructor | orchestrator/src/client/pages/orchestrator/useJobSelectionActions.tsx:44-50 | nothing is selected, no action is in flight, and the current tab is remembered |
| JobSelectionActions.JobSelection.OnActiveTabChange | orchestrator/src/client/pages/orchestrator/useJobSelectionActions.tsx:67-71 | a new tab clears the selection; the same tab changes nothing |
| JobSelectionActions.JobSelection.OnActiveJobsChange | orchestrator/src/client/pages/orchestrator/useJobSelectionActions.tsx:73-82 | the selection keeps exactly the ids still listed |
| JobSelectionActions.JobSelection.ToggleSelectJob | orchestrator/src/client/pages/orchestrator/useJobSelectionActions.tsx:84-94 | the id is removed when selected and added otherwise, nothing else changing |
| JobSelectionActions.JobSelection.ToggleSelectAll | orchestrator/src/client/pages/orchestrator/useJobSelectionActions.tsx:96-111 | unchecked selects nothing; checked selects every active job, or the first 100 when there are more, so never more than 100 |
| JobSelectionActions.JobSelection.ClearSelection | orchestrator/src/client/pages/orchestrator/useJobSelectionActions.tsx:113-115 | the selection becomes empty |
| JobSelectionActions.JobSelection.StartJobAction | orchestrator/src/client/pages/orchestrator/useJobSelectionActions.tsx:117-128 | nothing happens for an empty selection or one over 100 ids; otherwise the action is in flight and the selection at the start is returned |
| JobSelectionActions.JobSelection.FinishJobAction | orchestrator/src/client/pages/orchestrator/useJobSelectionActions.tsx:219-263 | on success the selection becomes the failed ids plus the user's changes during the request; on failure it is left alone; either way no action is in flight |
| BulkJobSelection.SuccessLabelDecides | orchestrator/src/client/pages/orchestrator/useBulkJobSelection.tsx:175-180 | each action has its own success label, so the toast names the action that ran |
| BulkJobSelection.EstimatedBulkProgress | orchestrator/src/client/pages/orchestrator/useBulkJobSelection.tsx:20-31 | the estimate lies in [6, 96] and, for a decay in [0, 1], is 6 plus the ratio 1 - decay of the span from 6 to 96 |
| BulkJobSelection.EstimateNeverDecreases | orchestrator/src/client/pages/orchestrator/useBulkJobSelection.tsx:23-31 | as time passes the decay shrinks, so the estimate never goes back; it starts at 6 and stays below 96 while the decay is positive |
| BulkJobSelection.BulkSelection.constructor | orchestrator/src/client/pages/orchestrator/useBulkJobSelection.tsx:44-49 | nothing is selected, no action is in flight, and the current tab is remembered |
| BulkJobSelection.BulkSelection.OnActiveTabChange | orchestrator/src/client/pages/orchestrator/useBulkJobSelection.tsx:69-73 | a new tab clears the selection; the same tab changes nothing |
| BulkJobSelection.BulkSelection.OnActiveJobsChange | orchestrator/src/client/pages/orchestrator/useBulkJobSelection.tsx:75-84 | the selection keeps exactly the ids still listed |
| BulkJobSelection.BulkSelection.ToggleSelectJob | orchestrator/src/client/pages/orchestrator/useBulkJobSelection.tsx:86-96 | the id is removed when selected and added otherwise |
| BulkJobSelection.BulkSelection.ToggleSelectAll | orchestrator/src/client/pages/orchestrator/useBulkJobSelection.tsx:98-113 | unchecked selects nothing; checked selects every active job, or the first 100 when there are more |
| BulkJobSelection.BulkSelection.ClearSelection | orchestrator/src/client/pages/orchestrator/useBulkJobSelection.tsx:115-117 | the selection becomes empty |
| BulkJobSelection.BulkSelection.StartBulkAction | orchestrator/src/client/pages/orchestrator/useBulkJobSelection.tsx:119-130 | refused for an empty selection or one over 100 ids; otherwise the action is in flight and the selection at the start is returned |
| BulkJobSelection.BulkSelection.FinishBulkAction | orchestrator/src/client/pages/orchestrator/useBulkJobSelection.tsx:169-217 | when the request returned, the selection becomes the failed ids plus the user's changes during the request; when it threw, it is left alone; either way no action is in flight |
| SimpleBulkJobSelection.BulkActionHintCases | orchestrator/src/client/pages/orchestrator/useBulkJobSelection.ts:43-55 | no hint without a selection or when both actions are allowed; otherwise the one message that names what is not allowed |
| SimpleBulkJobSelection.SuccessLabel | orchestrator/src/client/pages/orchestrator/useBulkJobSelection.ts:108-109 | skip reads "jobs skipped" and every other action "jobs moved to Ready" |
| SimpleBulkJobSelection.SimpleBulkSelection.constructor | orchestrator/src/client/pages/orchestrator/useBulkJobSelection.ts:23-27 | nothing is selected and no action is in flight |
| SimpleBulkJobSelection.SimpleBulkSelection.OnActiveTabChange | orchestrator/src/client/pages/orchestrator/useBulkJobSelection.ts:57-59 | any tab change clears the selection |
| SimpleBulkJobSelection.SimpleBulkSelection.OnActiveJobsChange | orchestrator/src/client/pages/orchestrator/useBulkJobSelection.ts:61-70 | the selection keeps exactly the ids still listed |
| SimpleBulkJobSelection.SimpleBulkSelection.ToggleSelectJob | orchestrator/src/client/pages/orchestrator/useBulkJobSelection.ts:72-82 | the id is removed when selected and added otherwise |
| SimpleBulkJobSelection.SimpleBulkSelection.ToggleSelectAll | orchestrator/src/client/pages/orchestrator/useBulkJobSelection.ts:84-91 | checked selects exactly the active jobs' ids, with no cap; unchecked selects nothing |
| SimpleBulkJobSelection.SimpleBulkSelection.ClearSelection | orchestrator/src/client/pages/orchestrator/useBulkJobSelection.ts:93-95 | the selection becomes empty |
| SimpleBulkJobSelection.SimpleBulkSelection.RunBulkAction | orchestrator/src/client/pages/orchestrator/useBulkJobSelection.ts:97-128 | nothing happens for an empty selection; otherwise a returned request leaves exactly the failed ids selected, a thrown one leaves the selection, and no action is in flight afterwards |
| Selection.SelectedJobs | orchestrator/src/client/pages/orchestrator/useJobSelectionActions.tsx:52-55 | exactly the active jobs whose id is selected, in list order |
| Selection.Elements | orchestrator/src/client/pages/orchestrator/useJobSelectionActions.tsx:74 | the set holds exactly the listed ids and is no larger than the list |
| Selection.Toggle | orchestrator/src/client/pages/orchestrator/useJobSelectionActions.tsx:84-94 | the id flips membership and every other id keeps it |
| Selection.ToggleTwice | orchestrator/src/client/pages/orchestrator/useJobSelectionActions.tsx:84-94 | toggling the same id twice restores the selection |
| Selection.SubsetSameSize | orchestrator/src/client/pages/orchestrator/useJobSelectionActions.tsx:80 | a subset as large as its superset is the superset, so the size check detects any pruning |
| Selection.Pruned | orchestrator/src/client/pages/orchestrator/useJobSelectionActions.tsx:75-81 | the pruned selection is the selected ids still active, the old selection itself when none was dropped |
| Selection.SelectAllCapped | orchestrator/src/client/pages/orchestrator/useJobSelectionActions.tsx:98-108 | nothing when unchecked; every active id when there are at most the cap, else the first cap; never more than the cap, all active |
| Selection.ReconciledProps | orchestrator/src/client/pages/orchestrator/useJobSelectionActions.tsx:240-253 | an id selected at the start stays only if it failed and the user kept it; any other id is selected if it failed or the user added it; with no change during the request the selection becomes the failed ids |
| Selection.ReconcileSelection | orchestrator/src/client/pages/orchestrator/useJobSelectionActions.tsx:240-253 | the updater's loop computes the specification `Reconciled` |
| FilteredJobs.SponsorCategoryPartition | orchestrator/src/client/pages/orchestrator/useFilteredJobs.ts:6-11 | the sponsor categories partition the scores: no score is unknown, 95 and up confirmed, 80 up to 95 potential, below 80 not found, and "all" is never a category |
| FilteredJobs.DigitsEnd | orchestrator/src/client/pages/orchestrator/useFilteredJobs.ts:31 | the scan for `\d+` stops after a run of digits at the first non-digit or the end of the text |
| FilteredJobs.SpacesEnd | orchestrator/src/client/pages/orchestrator/useFilteredJobs.ts:31 | the scan for `\s*` stops at the first non-space character or the end of the text |
| FilteredJobs.KMatches | orchestrator/src/client/pages/orchestrator/useFilteredJobs.ts:31-34 | every `<digits>k` match yields a non-empty run of digits |
| FilteredJobs.PlainMatches | orchestrator/src/client/pages/orchestrator/useFilteredJobs.ts:36-39 | every plain match is a run of four to six digits |
| FilteredJobs.Normalize | orchestrator/src/client/pages/orchestrator/useFilteredJobs.ts:28 | the normalised salary text holds no comma |
| FilteredJobs.Amounts | orchestrator/src/client/pages/orchestrator/useFilteredJobs.ts:33-38 | one amount per match, each the decimal value of its digits times the scale (1000 for `k`, 1 for plain) |
| FilteredJobs.MinOf | orchestrator/src/client/pages/orchestrator/useFilteredJobs.ts:42 | the minimum is one of the values and no value is below it |
| FilteredJobs.SalaryFloor | orchestrator/src/client/pages/orchestrator/useFilteredJobs.ts:13-43 | a numeric minimum wins, then a numeric maximum; otherwise the floor is absent exactly when the text is missing, empty or holds no amount, and else it is the least amount in the text |
| FilteredJobs.ParseSalaryFloor | orchestrator/src/client/pages/orchestrator/useFilteredJobs.ts:13-43 | the imperative parse returns the floor `SalaryFloor` defines |
| FilteredJobs.FiftyKMatches | orchestrator/src/client/pages/orchestrator/useFilteredJobs.ts:31-39 | "50k" gives one `k` match "50" and no plain match |
| FilteredJobs.FiftyKNormal | orchestrator/src/client/pages/orchestrator/useFilteredJobs.ts:28 | normalising "50k" leaves it as it is |
| FilteredJobs.FiftyValue | orchestrator/src/client/pages/orchestrator/useFilteredJobs.ts:33 | the digits "50" read as fifty |
| FilteredJobs.FiftyKAmounts | orchestrator/src/client/pages/orchestrator/useFilteredJobs.ts:31-39 | the amounts in "50k" are exactly [50000] |
| FilteredJobs.SingleAmountFloor | orchestrator/src/client/pages/orchestrator/useFilteredJobs.ts:26-42 | with no numeric bounds and exactly one amount in the text, that amount is the floor |
| FilteredJobs.ThousandsExample | orchestrator/src/client/pages/orchestrator/useFilteredJobs.ts:13-43 | a job whose only salary information is "50k" has the floor 50000 |
| FilteredJobs.ListedJobs | orchestrator/src/client/pages/orchestrator/useFilteredJobs.ts:54-90 | a job is kept exactly when it was in the input and passes the tab, source, sponsor, minimum-salary and search filters |
| FilteredJobs.NarrowStep | orchestrator/src/client/pages/orchestrator/useFilteredJobs.ts:57-90 | applying one filter of the chain when the view turns it on, or skipping it when it is off, takes the survivors of the earlier filters to the survivors of the next |
| FilteredJobs.StageEnds | orchestrator/src/client/pages/orchestrator/useFilteredJobs.ts:54-90 | before the first filter every job survives, and after the fifth the survivors are the listed jobs |
| FilteredJobs.NarrowFirstStages | orchestrator/src/client/pages/orchestrator/useFilteredJobs.ts:55-75 | the tab, source and sponsor filters, applied in turn, leave the survivors of the first three stages |
| FilteredJobs.NarrowJobs | orchestrator/src/client/pages/orchestrator/useFilteredJobs.ts:55-90 | the whole filter chain leaves exactly the listed jobs |
| FilteredJobs.FilterJobs | orchestrator/src/client/pages/orchestrator/useFilteredJobs.ts:54-92 | the result is a permutation of the listed jobs, holds a job exactly when it is in the input and passes every filter, and is ranked by the comparator |
| PipelineSources.AllowedOf | orchestrator/src/client/pages/orchestrator/usePipelineSources.ts:11 | keeping the allowed sources keeps their order, and holds a source exactly when it is both chosen and allowed; it is empty exactly when no chosen source is allowed |
| PipelineSources.NormalizeSources | orchestrator/src/client/pages/orchestrator/usePipelineSources.ts:6-18 | the allowed chosen sources when any remain; otherwise the enabled sources, or else the first allowed one; empty only when nothing is chosen-and-allowed, enabled or allowed |
| PipelineSources.NormalizeIdempotent | orchestrator/src/client/pages/orchestrator/usePipelineSources.ts:6-18 | when every enabled source is allowed, normalising a normalised selection changes nothing |
| PipelineSources.SourcesMatch | orchestrator/src/client/pages/orchestrator/usePipelineSources.ts:20-22 | two lists match exactly when they are equal element by element |
| PipelineSources.Unique | orchestrator/src/client/pages/orchestrator/usePipelineSources.ts:92 | the set built from a list has the same elements and no duplicates |
| PipelineSources.ToggledProps | orchestrator/src/client/pages/orchestrator/usePipelineSources.ts:90-96 | checking adds the source without duplicates; unchecking removes it, in order, unless that would empty the list, which then stays as it was; the result is empty only for an unchecked toggle of an empty list |
| PipelineSources.KnownStored | orchestrator/src/client/pages/orchestrator/usePipelineSources.ts:52-54 | a stored source is kept exactly when it is a string among the known sources |
| PipelineSources.InitialSources | orchestrator/src/client/pages/orchestrator/usePipelineSources.ts:36-63 | a missing, unparsable or non-array stored value starts from the normalised enabled sources; a stored array with a known allowed source starts from exactly those; every initial source is allowed or enabled |
| PipelineSources.PipelineSourceSelection.constructor | orchestrator/src/client/pages/orchestrator/usePipelineSources.ts:36-63 | the selection starts as `InitialSources` of the stored value |
| PipelineSources.PipelineSourceSelection.SyncSources | orchestrator/src/client/pages/orchestrator/usePipelineSources.ts:65-74 | when the allowed or enabled sources change, the selection becomes its normalised form |
| PipelineSources.PipelineSourceSelection.ToggleSource | orchestrator/src/client/pages/orchestrator/usePipelineSources.ts:87-99 | a source that is not allowed leaves the selection alone; an allowed one toggles it as `Toggled` says |
| ReactiveResumeSection.WithId | orchestrator/src/client/pages/settings/components/ReactiveResumeSection.tsx:243-244 | pushing an id when it is missing: the id is then present, nothing else is added, no duplicate appears, and a present id leaves the list unchanged |
| ReactiveResumeSection.WithoutId | orchestrator/src/client/pages/settings/components/ReactiveResumeSection.tsx:246-248 | filtering an id out: it is gone, every other id stays in order, and an absent id leaves the list unchanged |
| ReactiveResumeSection.LockedProps | orchestrator/src/client/pages/settings/components/ReactiveResumeSection.tsx:242-260 | locking a project adds it to the must-include ids, removes it from the AI-selectable ids, raises the maximum to at least the locked count (keeping it otherwise), and keeps the two lists disjoint |
| ReactiveResumeSection.UnlockedProps | orchestrator/src/client/pages/settings/components/ReactiveResumeSection.tsx:263-277 | unlocking a project removes it from the must-include ids, makes it AI-selectable, clamps the maximum between the locked count and the total (unchanged when already in range), and keeps the lists disjoint |
| ReactiveResumeSection.LockThenUnlock | orchestrator/src/client/pages/settings/components/ReactiveResumeSection.tsx:234-278 | locking and then unlocking a project that was not locked restores the locked ids and leaves it AI-selectable |
| ReactiveResumeSection.SelectableToggledProps | orchestrator/src/client/pages/settings/components/ReactiveResumeSection.tsx:291-307 | the AI-selectable toggle adds or removes only that id and leaves the locked ids and the maximum alone; it keeps the lists disjoint unless it adds a locked id |
| ReactiveResumeSection.SelectableToggleBack | orchestrator/src/client/pages/settings/components/ReactiveResumeSection.tsx:291-307 | checking and then unchecking an id that was not selectable restores the value |
| ReactiveResumeSection.OnLockedChange | orchestrator/src/client/pages/settings/components/ReactiveResumeSection.tsx:234-278 | with no form value nothing is emitted; a checked box emits the locked value, any other state the unlocked value |
| ReactiveResumeSection.OnSelectableChange | orchestrator/src/client/pages/settings/components/ReactiveResumeSection.tsx:291-308 | with no form value nothing is emitted; otherwise the value with the id toggled as the box says |
| ReactiveResumeSection.OnMaxProjectsChange | orchestrator/src/client/pages/settings/components/ReactiveResumeSection.tsx:144-156 | with no form value nothing is emitted; otherwise only the maximum changes, to a value between the locked count and the total, and an in-range entry is kept as typed |
| Serializers.ToStringOrNull | orchestrator/src/server/services/settings-update/serializers.ts:9-13 | a number is stored as text exactly when it is present; only null and undefined become null |
| Serializers.ToStringOrNullRoundTrip | orchestrator/src/server/services/settings-update/serializers.ts:9-13 | reading the stored text back as an integer gives the stored number, and zero is stored as "0" rather than dropped |
| Serializers.ToJsonOrNull | orchestrator/src/server/services/settings-update/serializers.ts:15-17 | the result is null exactly for null and undefined; every other value, 0 and false included, is stored as its JSON text |
| Serializers.BitBoolRoundTrip | orchestrator/src/server/services/settings-update/serializers.ts:19-24 | a flag is stored as "1" or "0" and reads back as itself; null is stored as null |
| EnvSettings.NormalizeEnvInput | orchestrator/src/server/services/envSettings.ts:7-12 | the result is null exactly when the value is missing or only whitespace, and otherwise the trimmed, non-empty text |
| EnvSettings.NormalizeEnvInputIdempotent | orchestrator/src/server/services/envSettings.ts:7-12 | normalising a normalised value changes nothing |
| EnvSettings.Applied | orchestrator/src/server/services/envSettings.ts:14-26 | applying a value sets that variable; applying null restores the start-up value, or removes the variable when it had none; no other variable changes |
| EnvSettings.ApplyThenRestore | orchestrator/src/server/services/envSettings.ts:14-26 | setting a variable and then clearing it gives back an environment that agreed with the start-up snapshot on that variable |
| EnvSettings.AppliedIdempotent | orchestrator/src/server/services/envSettings.ts:14-26 | applying the same value twice is applying it once |
| EnvSettings.OverridesUntouched | orchestrator/src/server/services/envSettings.ts:41-46 | a variable that no setting is tied to keeps its value after the stored overrides are applied |
| EnvSettings.OverrideApplied | orchestrator/src/server/services/envSettings.ts:41-46 | with one setting per variable, a stored override sets its variable to the normalised text, or restores the start-up value when it is blank, whatever its place in the registry |
| EnvSettings.RawValue | orchestrator/src/server/services/envSettings.ts:61-62 | a stored override, even an empty one, wins; otherwise the value is the variable's, and missing when the variable is unset |
| EnvSettings.SecretHint | orchestrator/src/server/services/envSettings.ts:66-72 | no hint for a missing or empty secret; otherwise a prefix of one to four characters: four for a long secret, one less than the whole for two to four characters, and never the whole secret once it has two characters |
| EnvSettings.BasicAuthActive | orchestrator/src/server/services/envSettings.ts:78-86 | basic authentication is on exactly when the user and the password, override first, are both present and non-empty |
| EnvSettings.PageData | orchestrator/src/server/services/envSettings.ts:83-87 | the page record holds the readable values, the hints over them and the basic-auth flag over both, and nothing else |
| EnvSettings.ReadableEntry | orchestrator/src/server/services/envSettings.ts:58-75 | every non-secret setting tied to a variable appears under its key with its normalised value, override first |
| EnvSettings.ReadableKeys | orchestrator/src/server/services/envSettings.ts:58-75 | only non-secret settings tied to a variable appear among the readable values |
| EnvSettings.HintEntry | orchestrator/src/server/services/envSettings.ts:64-72 | every secret tied to a variable appears under its key plus "Hint" as its hint only |
| EnvSettings.Env.constructor | orchestrator/src/server/services/envSettings.ts:5 | the environment starts as the process environment, which is also the start-up snapshot |
| EnvSettings.Env.ApplyEnvValue | orchestrator/src/server/services/envSettings.ts:14-26 | the environment becomes `Applied` of the old one |
| EnvSettings.Env.ApplyStoredEnvOverrides | orchestrator/src/server/services/envSettings.ts:28-49 | every setting tied to a variable with a stored override has that override, normalised, applied |
| EnvSettings.Env.GetEnvSettingsData | orchestrator/src/server/services/envSettings.ts:51-88 | the record returned is `PageData` of the readable values, the secret hints and the basic-auth flag for the current environment and overrides |
| SettingsRegistry.HandleKey | orchestrator/src/server/services/settings-update/registry.ts:52-284 | a submitted key yields an update exactly when the registry has a handler for it |
| SettingsRegistry.HandleActions | orchestrator/src/server/services/settings-update/registry.ts:46-284 | the legacy OpenRouter key stores its normalised value as the LLM key, mirrored into LLM_API_KEY, and clears itself and OPENROUTER_API_KEY; every other handler persists exactly one action, under its own key |
| SettingsRegistry.HandleDeferred | orchestrator/src/server/services/settings-update/registry.ts:266-283 | the only deferred effect is the backup-scheduler refresh, and a handler defers it exactly when its shape says so |
| SettingsRegistry.NormalizedStored | orchestrator/src/server/services/settings-update/registry.ts:186-264 | credentials are stored trimmed, a blank or missing one as null, and the same value is mirrored into the variable the setting is tied to |
| SettingsRegistry.ScalarsStored | orchestrator/src/server/services/settings-update/registry.ts:119-168 | counts are stored as decimal text that reads back as the number, flags as text that reads back as the flag, and null as null |
| SettingsRegistry.JsonStored | orchestrator/src/server/services/settings-update/registry.ts:131-158 | JSON-valued settings are stored as their JSON text, and null or undefined as null |
| SettingsRegistry.NullResumeProjects | orchestrator/src/server/services/settings-update/registry.ts:104-108 | a null project selection is stored as null, without consulting the profile's projects |
| SettingsRegistry.OnlyOpenRouterIsLegacy | orchestrator/src/server/services/settings-update/registry.ts:170-185 | among the registered keys, only `openrouterApiKey` has the two-action legacy handler |
| SettingsRegistry.OnlyBackupRefreshes | orchestrator/src/server/services/settings-update/registry.ts:266-283 | the three backup settings are registered, and a registered key defers the backup refresh exactly when it is one of them |
| SettingsRegistry.CredentialsMirrored | orchestrator/src/server/services/settings-update/registry.ts:186-264 | the LLM key, the basic-auth user and password and the webhook secret are mirrored into LLM_API_KEY, BASIC_AUTH_USER, BASIC_AUTH_PASSWORD and WEBHOOK_SECRET |
| ApplyUpdates.RunAction | orchestrator/src/server/services/settings-update/apply-updates.ts:11-16 | an action first stores its value and then, when it has one, makes its environment update, and does nothing else |
| ApplyUpdates.ApplySettingsUpdates | orchestrator/src/server/services/settings-update/apply-updates.ts:18-46 | the actions are those of the submitted keys' handlers in key order, each run as `RunAction` says, and the backup schedule is re-read exactly when a backup setting was submitted |
| ApplyUpdates.DeferredRefresh | orchestrator/src/server/services/settings-update/apply-updates.ts:26-44 | the collected deferred effects hold the backup refresh exactly when one of the submitted keys is a backup setting |
| ApplyUpdates.BackupKeySnoc | orchestrator/src/server/services/settings-update/apply-updates.ts:26-37 | a list of keys holds a backup setting exactly when its prefix does or its last key is one |
| ApplyUpdates.KeyDeferral | orchestrator/src/server/services/settings-update/apply-updates.ts:27-36 | a key defers the backup refresh exactly when it has a handler and is a backup setting |
| ApplyUpdates.CollectedAppend | orchestrator/src/server/services/settings-update/apply-updates.ts:26-37 | the actions collected for two runs of keys, one after the other, are the actions of the first followed by those of the second |
| ApplyUpdates.UnhandledIgnored | orchestrator/src/server/services/settings-update/apply-updates.ts:30 | a key the registry has no handler for adds no action wherever it appears |
| Settings.ResolveDefaultLlmBaseUrlSpec | orchestrator/src/server/services/settings.ts:337-348 | the trimmed, lower-cased provider picks its URL: ollama, lmstudio, openai and gemini each their own, and every other name OpenRouter's; each URL comes from exactly its provider |
| Settings.LowerTrimmed | orchestrator/src/server/services/settings.ts:338 | lower-casing a trimmed name leaves it trimmed |
| Settings.ResolveNormalizedProvider | orchestrator/src/server/services/settings.ts:337-348 | normalising the provider name first does not change the URL chosen |
| Settings.OrElse | orchestrator/src/server/services/settings.ts:56 | `override or fallback` on text: a non-empty override wins, and a missing or empty one falls back |
| Settings.Lookup | orchestrator/src/server/services/settings.ts:55 | `overrides[key] ?? null`: present exactly when stored, with the stored text |
| Settings.TaskModelsOf | orchestrator/src/server/services/settings.ts:55-62 | each per-task model is its non-empty override, and otherwise the general model |
| Settings.LlmBaseUrl | orchestrator/src/server/services/settings.ts:72-75 | the base URL is a non-empty override, else a non-empty LLM_BASE_URL, else the provider's default URL |
| Settings.SearchCitiesOverride | orchestrator/src/server/services/settings.ts:137-140 | the search-cities override is the stored `searchCities` when present, even an empty one, and else the legacy `jobspyLocation` |
| RetryPolicy.ShouldRetrySpec | orchestrator/src/server/services/llm/policies/retry-policy.ts:1-12 | an attempt is retried exactly when its message mentions parsing, a timeout or a failed fetch, or its status is 429 or 5xx; any 5xx is retried, and another 4xx only for its message |
| RetryPolicy.RetryDelayLinear | orchestrator/src/server/services/llm/policies/retry-policy.ts:14-16 | the delay grows by the base delay with each attempt, never shrinks for later attempts, and is zero before the first |
| CapabilityFallback.IsCapabilityErrorSpec | orchestrator/src/server/services/llm/policies/capability-fallback.ts:3-25 | a failure is a capability error exactly when a structured mode got a 400 whose lower-cased body names a response-format marker and does not speak of a missing or unknown model; the plain mode and any other status never are |
| ModeSelection.CacheKeyInjective | orchestrator/src/server/services/llm/policies/mode-selection.ts:5-7 | for provider names without a colon, different provider and base-URL pairs get different cache keys |
| ModeSelection.OrderedModesSpec | orchestrator/src/server/services/llm/policies/mode-selection.ts:9-17 | without a cached mode the modes are tried as given; with one, it is tried first and the others follow in their order, without repeating it |
| ModeSelection.ModeCache.constructor | orchestrator/src/server/services/llm/policies/mode-selection.ts:3 | the cache starts empty |
| ModeSelection.ModeCache.RememberSuccessfulMode | orchestrator/src/server/services/llm/policies/mode-selection.ts:19-24 | only the given key is set to the mode, which is then tried first for that key |
| ModeSelection.ModeCache.ClearModeCache | orchestrator/src/server/services/llm/policies/mode-selection.ts:26-28 | after clearing, every key tries the modes as given |
| ModeSelection.RememberScoped | orchestrator/src/server/services/llm/policies/mode-selection.ts:19-24 | remembering a mode for one key leaves the order for every other key as it was and puts the mode first for its own key |
| LlmHttp.StripTrailingSlashes | orchestrator/src/server/services/llm/utils/http.ts:4 | the base without its trailing slashes: a prefix of it that does not end in "/", and only slashes were removed |
| LlmHttp.JoinUrlSpec | orchestrator/src/server/services/llm/utils/http.ts:3-7 | the joined URL is the base without trailing slashes, one "/", and the path; a leading "/" on the path and a trailing "/" on the base make no difference |
| LlmHttp.AddQueryParamSpec | orchestrator/src/server/services/llm/utils/http.ts:9-12 | the URL is kept, followed by "&" when it already has a "?" and by "?" otherwise, then the encoded key, "=" and the encoded value |
| LlmHttp.AddQueryParamTwice | orchestrator/src/server/services/llm/utils/http.ts:9-12 | after one parameter has been added, the next one is joined with "&" |
| LlmHttp.BuildHeaders | orchestrator/src/server/services/llm/utils/http.ts:14-32 | the headers always carry the JSON content type, carry a bearer Authorization exactly when the key is non-empty, and carry the two OpenRouter headers exactly for OpenRouter; nothing else |
| LlmString.TruncateSpec | orchestrator/src/server/services/llm/utils/string.ts:3-6 | text within the limit is returned as it is; longer text keeps its first limit-1 characters followed by an ellipsis, so it is exactly the limit long; truncating twice is truncating once |
| LlmString.FirstNonBlank | orchestrator/src/server/services/llm/utils/string.ts:23-27 | the first candidate that is a non-blank string, or -1 when there is none; no earlier candidate is one |
| LlmString.ParseErrorMessageSpec | orchestrator/src/server/services/llm/utils/string.ts:8-37 | the message is empty exactly for blank input and is always trimmed; text that is not JSON comes back trimmed; a non-blank `error.message` wins; with no non-blank candidate a non-blank JSON string is used, and otherwise the trimmed input |
| ObjectPath.Step | orchestrator/src/server/services/llm/utils/object.ts:9-16 | an index step into anything but an array, and a key step into anything but an object or array, gives undefined |
| ObjectPath.GetNestedValue | orchestrator/src/server/services/llm/utils/object.ts:7-19 | the loop returns the value `NestedValue` reaches along the path |
| ObjectPath.UndefinedAbsorbs | orchestrator/src/server/services/llm/utils/object.ts:7-19 | once a step gives undefined, the rest of the path does too |
| ObjectPath.NestedValueAppend | orchestrator/src/server/services/llm/utils/object.ts:7-19 | following a path in two parts is following it at once |
| JsonContent.LabelEnd | orchestrator/src/server/services/llm/utils/json.ts:5 | the optional "json" or "JSON" label after a fence is either absent or four characters long |
| JsonContent.SpacesEnd | orchestrator/src/server/services/llm/utils/json.ts:5 | the `\s*` after a fence stops at the first non-space character or the end |
| JsonContent.ParseJsonContent | orchestrator/src/server/services/llm/utils/json.ts:1-27 | the candidate text is parsed; a successful parse is returned as it is, and a failure becomes an error prefixed "Failed to parse JSON response: " |
| JsonContent.StripFencesHead | orchestrator/src/server/services/llm/utils/json.ts:6 | the second replace puts no backtick at the front that was not already there |
| JsonContent.StripFencesFree | orchestrator/src/server/services/llm/utils/json.ts:6 | after the second replace no fence is left, however the backticks were grouped |
| JsonContent.TrimFenceFree | orchestrator/src/server/services/llm/utils/json.ts:7 | trimming text without fences leaves it without fences |
| JsonContent.BraceSliceFenceFree | orchestrator/src/server/services/llm/utils/json.ts:9-14 | cutting to the braces keeps text without fences without them |
| JsonContent.CandidateFenceFree | orchestrator/src/server/services/llm/utils/json.ts:2-14 | whatever the model answered, the candidate holds no code fence |
| JsonContent.BraceSliceSpec | orchestrator/src/server/services/llm/utils/json.ts:9-14 | with a `{` before a later `}`, the candidate runs from the first `{` to the last `}` and only brace-free text is cut from either side; otherwise it is left as it is |
| JsonContent.CandidateTrimmed | orchestrator/src/server/services/llm/utils/json.ts:2-14 | without braces to cut to, the candidate carries no surrounding whitespace |
| JsonContent.FencesUntouched | orchestrator/src/server/services/llm/utils/json.ts:6 | text with no backtick passes through the second replace untouched |
| JsonContent.FencedReply | orchestrator/src/server/services/llm/utils/json.ts:5-6 | a reply wrapped as ```json, whitespace, a body and ``` comes out as the body |
| ProviderFactory.DefaultValidationUrls | orchestrator/src/server/services/llm/providers/factory.ts:27-28 | one URL per validation path, in order, each the path joined to the base |
| ProviderFactory.ValidationUrlsSpec | orchestrator/src/server/services/llm/providers/factory.ts:25-28 | without a provider override there is one URL per validation path, and a path with a leading "/" gives the base without trailing slashes followed by the path |
| ProviderFactory.ResponseFormatSpec | orchestrator/src/server/services/llm/providers/factory.ts:46-59 | every mode but `none` sets a format naming its own type, and the JSON-schema format is strict and carries the schema under its own name |
| ProviderFactory.BuildChatCompletionsBody | orchestrator/src/server/services/llm/providers/factory.ts:32-62 | the body starts with model, messages and `stream`, each overridden by an extra of the same name and every other extra kept; `response_format` is set by the mode, and in `none` mode it is whatever the extras gave |
| ProviderFactory.ExtractChatCompletionsTextSpec | orchestrator/src/server/services/llm/providers/factory.ts:64-72 | there is text exactly when `choices` is a non-empty array whose first entry's `message.content` is a string, and the text is that string |
| ProviderFactory.ExtractChatCompletionsTextRoundTrip | orchestrator/src/server/services/llm/providers/factory.ts:64-72 | a response built around a string content reads back as that string |
| Gemini.ToGeminiContents | orchestrator/src/server/services/llm/providers/gemini.ts:65-89 | the loop returns the system instruction and the contents that `SystemInstruction` and `Contents` define |
| Gemini.SplitMessages | orchestrator/src/server/services/llm/providers/gemini.ts:69-86 | every message goes either to the system texts or to the contents, and there is no system instruction exactly when no message has the system role |
| Gemini.ContentsOfConversation | orchestrator/src/server/services/llm/providers/gemini.ts:70-82 | without system messages there is one content per message, in order, with role "model" for the assistant and "user" otherwise, and the message text as its one part |
| Gemini.ContentJsonRole | orchestrator/src/server/services/llm/providers/gemini.ts:79-81 | a content's role is the message's role mapped to Gemini's |
| Gemini.ContentRoles | orchestrator/src/server/services/llm/providers/gemini.ts:67-81 | every content has the role "user" or "model" |
| Gemini.GenerationConfigSpec | orchestrator/src/server/services/llm/providers/gemini.ts:22-31 | a generation config is sent exactly in the JSON-schema and JSON-object modes, always asking for JSON, and carries the response schema exactly in the JSON-schema mode |
| Gemini.GenerateUrlSpec | orchestrator/src/server/services/llm/providers/gemini.ts:33-37 | the request URL is the base without trailing slashes, "/v1beta/models/", the encoded model and ":generateContent", then the encoded key parameter, empty when there is no key |
| Gemini.ValidationUrlsSpec | orchestrator/src/server/services/llm/providers/gemini.ts:59-62 | validation uses one URL: the models list under the base, with the key as its query parameter |
| Gemini.FilledBodySpec | orchestrator/src/server/services/llm/providers/gemini.ts:14-31 | the body holds the contents, the system instruction only when there is one, and the generation config only when the mode sets one, and nothing else |
| Gemini.BuildBody | orchestrator/src/server/services/llm/providers/gemini.ts:13-31 | the body holds the contents of the conversation, the system instruction exactly when there are system messages, the generation config of the mode, and nothing else |
| Gemini.BuildRequest | orchestrator/src/server/services/llm/providers/gemini.ts:12-44 | the request goes to the generate URL with only the JSON content type as header (the key travels in the URL), and its body is the one `BuildBody` describes |
| Gemini.ExtractTextNonEmpty | orchestrator/src/server/services/llm/providers/gemini.ts:45-58 | extracted text is never empty, and parts without any string text give no text |
| Gemini.PartTextsOfTexts | orchestrator/src/server/services/llm/providers/gemini.ts:53-55 | the texts of parts built from texts are those texts, in order |
| Gemini.PartsOfResponse | orchestrator/src/server/services/llm/providers/gemini.ts:46-51 | the parts are read from the first candidate's content |
| Gemini.ExtractTextRoundTrip | orchestrator/src/server/services/llm/providers/gemini.ts:45-58 | a response whose first candidate holds text parts reads back as their concatenation, or as no text when that is empty |
| OpenAi.SomeMentionsJson | orchestrator/src/server/services/llm/providers/openai.ts:65-67 | the scan is true exactly when some message, lower-cased, mentions "json" |
| OpenAi.EnsureJsonInstructionSpec | orchestrator/src/server/services/llm/providers/openai.ts:60-76 | outside the JSON-object mode, or when some message already mentions JSON, the messages are kept; otherwise the system instruction "Respond with valid JSON." is put in front of them |
| OpenAi.InstructionMentionsJson | orchestrator/src/server/services/llm/providers/openai.ts:72 | the added instruction itself mentions JSON |
| OpenAi.EnsureJsonInstructionIdempotent | orchestrator/src/server/services/llm/providers/openai.ts:60-76 | in JSON-object mode the result always mentions JSON, so a second pass adds nothing |
| OpenAi.TextSettingSpec | orchestrator/src/server/services/llm/providers/openai.ts:19-30 | a `text` setting is sent exactly in the JSON-schema and JSON-object modes; the schema format is strict under the schema's name, and the object format names only its type |
| OpenAi.FilledBodySpec | orchestrator/src/server/services/llm/providers/openai.ts:14-30 | model and input come first with their values, and `text` is there exactly when the mode gives one |
| OpenAi.ResponsesUrl | orchestrator/src/server/services/llm/providers/openai.ts:33 | the request goes to the base without trailing slashes followed by "/v1/responses" |
| OpenAi.BuildRequest | orchestrator/src/server/services/llm/providers/openai.ts:12-37 | the request goes to the responses URL, with a bearer header exactly when there is a non-empty key, and a body of the model, the input with the JSON instruction when needed, and the mode's `text` setting |
| OpenAi.ExtractText | orchestrator/src/server/services/llm/providers/openai.ts:38-57 | the nested loops return what `OutputText` defines |
| OpenAi.FindTextPart | orchestrator/src/server/services/llm/providers/openai.ts:48-54 | the inner loop returns the text of the first output-text part |
| OpenAi.OutputItemStep | orchestrator/src/server/services/llm/providers/openai.ts:45-55 | an output item yields its first text part when it has one, and otherwise the search moves on to the next item |
| OpenAi.FirstTextPartSpec | orchestrator/src/server/services/llm/providers/openai.ts:48-54 | there is a text part result exactly when some part is an output-text part with string text, and it is the text of the first such part |
| OpenAi.FirstTextPartNone | orchestrator/src/server/services/llm/providers/openai.ts:48-54 | no text is found exactly when no part is an output-text part |
| OpenAi.FirstTextPartIndex | orchestrator/src/server/services/llm/providers/openai.ts:48-54 | a found text is that of a text part with no text part before it |
| OpenAi.DirectTextWins | orchestrator/src/server/services/llm/providers/openai.ts:39-40 | a non-blank `output_text` is returned as it is, whatever the output items hold |
| OpenAi.TextPartOf | orchestrator/src/server/services/llm/providers/openai.ts:49-51 | a part typed "output_text" with string text is a text part |
| OpenAi.OutputPartRoundTrip | orchestrator/src/server/services/llm/providers/openai.ts:38-57 | without `output_text`, a response with one output text part reads back as its text |
| Backup.GenerateBackupFilename | orchestrator/src/server/services/backup/index.ts:57-75 | every generated name ends in ".db" |
| Backup.Pad2Props | orchestrator/src/server/services/backup/index.ts:62-63 | a two-digit padded field is two digits that read back as the number |
| Backup.YearProps | orchestrator/src/server/services/backup/index.ts:61 | a four-digit year prints as four digits that read back as the year |
| Backup.DateTextProps | orchestrator/src/server/services/backup/index.ts:61-64 | the date part of a name has the `YYYY_MM_DD` shape and reads back as the clock's date |
| Backup.TimeTextProps | orchestrator/src/server/services/backup/index.ts:70-73 | the time part of a manual name has the `HH_MM_SS` shape and reads back as the clock's time |
| Backup.GetBackupType | orchestrator/src/server/services/backup/index.ts:107-111 | every name classified as a backup starts with "jobs_" and ends in ".db", and a manual one starts with "jobs_manual_" |
| Backup.ParseBackupDate | orchestrator/src/server/services/backup/index.ts:79-102 | a date is parsed for exactly the names classified as backups, so the listing's check on both never drops one; an automatic backup is dated at midnight |
| Backup.GenerateParseRoundTrip | orchestrator/src/server/services/backup/index.ts:57-110 | a generated name has the type it was made for, by either manual pattern, and parsing it gives back the date (and for a manual backup the time) it was made from |
| Backup.PatternsDisjoint | orchestrator/src/server/services/backup/index.ts:17-19 | no name is both an automatic and a manual backup, with either manual pattern |
| Backup.DateTextChars | orchestrator/src/server/services/backup/index.ts:17-19 | a date text holds only digits and underscores |
| Backup.TimeTextChars | orchestrator/src/server/services/backup/index.ts:19 | a time text holds only digits and underscores |
| Backup.BackupNameSafe | orchestrator/src/server/services/backup/index.ts:209-216 | a name accepted for deletion ends in ".db" and holds only letters, digits and underscores before it, so it cannot leave the backup directory |
| Backup.FreeSuffix | orchestrator/src/server/services/backup/index.ts:138-148 | the suffix chosen is the first from 1 up to 100 whose name is free, and there is none only when all are taken |
| Backup.CollisionNameUnlisted | orchestrator/src/server/services/backup/index.ts:138-144 | as written, a manual backup renamed with a `_N` suffix matches neither pattern, so it is never listed and cannot be deleted |
| Backup.LongNameUnlisted | orchestrator/src/server/services/backup/index.ts:17-19 | a name longer than 34 characters matches neither pattern as written |
| Backup.CollisionNameListed | orchestrator/src/server/services/backup/index.ts:138-144 | with the suffix admitted, a renamed manual backup is a manual backup and keeps the time it was made at |
| Backup.BackupService.constructor | orchestrator/src/server/services/backup/index.ts:28-32 | backups start disabled at hour 2 with five kept, and the scheduler stopped |
| Backup.BackupService.StartScheduler | orchestrator/src/server/services/backup/index.ts:35-38 | starting the scheduler runs it at the given hour and changes nothing else |
| Backup.BackupService.StopScheduler | orchestrator/src/server/services/backup/index.ts:329-331 | stopping the scheduler leaves it stopped and changes nothing else |
| Backup.BackupService.SetBackupSettings | orchestrator/src/server/services/backup/index.ts:273-292 | given fields replace the settings; the scheduler is (re)started when backups become enabled or the hour changes, stopped when they become disabled, and otherwise left alone; a scheduler in step with the settings stays so |
| Backup.BackupService.StartBackupScheduler | orchestrator/src/server/services/backup/index.ts:320-324 | the scheduler is started at the configured hour exactly when backups are enabled |
| Backup.BackupService.CreateBackup | orchestrator/src/server/services/backup/index.ts:117-159 | no database is an error; a free name is copied to; a taken automatic name is reused without copying; a taken manual name gets the first free `_1`..`_100` suffix, or fails when all are taken; nothing else changes |
| Backup.BackupService.DeleteBackup | orchestrator/src/server/services/backup/index.ts:209-229 | a name of neither shape (the manual one with its collision suffix admitted) is rejected, a missing backup is reported, and otherwise exactly that file is removed |
| Backup.BackupService.ListBackups | orchestrator/src/server/services/backup/index.ts:165-203 | the listing holds each backup in the directory (the manual pattern with its collision suffix admitted) with its type and parsed time, newest first, and no two entries name the same file |
| Backup.BackupService.CleanupOldBackups | orchestrator/src/server/services/backup/index.ts:236-267 | when there are more automatic backups than the maximum, distinct oldest ones are deleted and exactly the maximum remain (none for a negative maximum); only automatic backups are deleted, none deleted is newer than one kept, and nothing else changes |
| Backup.BackupService.DeleteAll | orchestrator/src/server/services/backup/index.ts:252-261 | deleting each name in turn removes exactly those names |
| Backup.ListStep | orchestrator/src/server/services/backup/index.ts:181-195 | reading one more name keeps the listing complete: a backup name is added with its entry, any other name is skipped |
| Backup.PermutedDistinct | orchestrator/src/server/services/backup/index.ts:197-200 | sorting a listing whose file names are distinct keeps them distinct |
| Backup.OrderedDistinct | orchestrator/src/server/services/backup/index.ts:237-245 | the automatic backups, sorted oldest first, name each automatic backup of the directory exactly once |
| Backup.RemainingAuto | orchestrator/src/server/services/backup/index.ts:249-261 | deleting a duplicate-free run of automatic backups leaves their number less the run |
| Backup.ListedSorted | orchestrator/src/server/services/backup/index.ts:198-200 | sorting the listing newest first keeps it complete |
| Backup.InOrdered | orchestrator/src/server/services/backup/index.ts:239-246 | an entry of the sorted automatic backups is an automatic backup from the listing |
| Backup.FilterMultiset | orchestrator/src/server/services/backup/index.ts:243-246 | sorting does not change how many automatic backups there are |
| Backup.OldestDeleted | orchestrator/src/server/services/backup/index.ts:243-252 | the names taken from the front of the oldest-first order are automatic backups from the directory, none newer than an automatic backup left behind |
| ResponseRateBySource.RateBounds | orchestrator/src/client/components/charts/ResponseRateBySourceChart.tsx:115 | with no more responses than applications, the rate is a percentage between 0 and 100 |
| ResponseRateBySource.SumByAppend | orchestrator/src/client/components/charts/ResponseRateBySourceChart.tsx:143-150 | the running sum over one more row adds that row's value |
| ResponseRateBySource.SumByUpdate | orchestrator/src/client/components/charts/ResponseRateBySourceChart.tsx:99-107 | replacing one entry changes the sum by the difference |
| ResponseRateBySource.Rows | orchestrator/src/client/components/charts/ResponseRateBySourceChart.tsx:110-116 | one row per source entry, in order, and the rows add up to the same applications and responses as the entries |
| ResponseRateBySource.RankedCons | orchestrator/src/client/components/charts/ResponseRateBySourceChart.tsx:117 | a row that no later row is ahead of can lead a ranked list |
| ResponseRateBySource.InsertRowProps | orchestrator/src/client/components/charts/ResponseRateBySourceChart.tsx:117 | inserting a row into a ranked list keeps it ranked by rate then volume, adds exactly that row, and adds its counts to the totals |
| ResponseRateBySource.SortRowsProps | orchestrator/src/client/components/charts/ResponseRateBySourceChart.tsx:117 | the rows are ranked by rate, then by applications, both descending, are a permutation of the input, and keep its totals |
| ResponseRateBySource.FindSource | orchestrator/src/client/components/charts/ResponseRateBySourceChart.tsx:99 | the entry found for a source has that source, and none is found only when no entry has it |
| ResponseRateBySource.CountStep | orchestrator/src/client/components/charts/ResponseRateBySourceChart.tsx:96-108 | one more job adds to its own source's counts only, and to the totals, only when it was applied for |
| ResponseRateBySource.SkipStep | orchestrator/src/client/components/charts/ResponseRateBySourceChart.tsx:97 | a job never applied for changes no count |
| ResponseRateBySource.BumpStep | orchestrator/src/client/components/charts/ResponseRateBySourceChart.tsx:99-107 | an applied job from a source already seen adds one application, and one response when it reached a response stage, to that source |
| ResponseRateBySource.BumpSums | orchestrator/src/client/components/charts/ResponseRateBySourceChart.tsx:99-107 | bumping an entry keeps the entries adding up to the totals |
| ResponseRateBySource.AppendStep | orchestrator/src/client/components/charts/ResponseRateBySourceChart.tsx:99-107 | an applied job from a new source starts its entry at one application |
| ResponseRateBySource.AppendSums | orchestrator/src/client/components/charts/ResponseRateBySourceChart.tsx:99-107 | a new entry keeps the entries adding up to the totals |
| ResponseRateBySource.FindKept | orchestrator/src/client/components/charts/ResponseRateBySourceChart.tsx:99 | a source present in the entries is found |
| ResponseRateBySource.BuildResponseRateBySource | orchestrator/src/client/components/charts/ResponseRateBySourceChart.tsx:91-118 | there is one row for each source with an applied job, carrying that source's counts and rate, and no other; the rows are ranked and add up to all applied jobs and all responses |
| ResponseRateBySource.SortedRowsOfTallies | orchestrator/src/client/components/charts/ResponseRateBySourceChart.tsx:110-117 | sorted rows built from complete entries are ranked, are exactly the per-source rows, and keep the totals |
| ResponseRateBySource.RowsOfTallies | orchestrator/src/client/components/charts/ResponseRateBySourceChart.tsx:110-116 | rows built from complete entries are exactly the per-source rows |
| ResponseRateBySource.RespondedAtMostApplied | orchestrator/src/client/components/charts/ResponseRateBySourceChart.tsx:96-105 | a source never has more responses than applications, and neither do the totals |
| ResponseRateBySource.RowOfBounds | orchestrator/src/client/components/charts/ResponseRateBySourceChart.tsx:111-116 | a source's row has at least one application, no more responses than applications, and a rate in [0, 100] equal to responses over applications times 100 |
| ResponseRateBySource.FilterSplit | orchestrator/src/client/components/charts/ResponseRateBySourceChart.tsx:137-141 | each row is either shown or hidden by the minimum-sample filter |
| ResponseRateBySource.SummarizeProps | orchestrator/src/client/components/charts/ResponseRateBySourceChart.tsx:133-152 | the totals count every row, hidden or not, and the overall rate lies in [0, 100]; with small samples included every row is shown, otherwise exactly the rows with at least five applications, in order, and the hidden count is the rest |
| FreshnessResponse.FindBucket | orchestrator/src/client/components/charts/FreshnessResponseChart.tsx:67-69 | the bucket found is the first whose day range holds the count, and none is found only when no range holds it |
| FreshnessResponse.FindBucketFrom | orchestrator/src/client/components/charts/FreshnessResponseChart.tsx:67-69 | the search from a position finds the first bucket from there on whose range holds the count |
| FreshnessResponse.BucketsPartition | orchestrator/src/client/components/charts/FreshnessResponseChart.tsx:41-48 | every non-negative day count falls in exactly one bucket, and a negative one in none |
| FreshnessResponse.SkippedJobs | orchestrator/src/client/components/charts/FreshnessResponseChart.tsx:56-66 | a job is left out exactly when it was not applied for, has no posting date, has a date that does not parse, or was discovered before it was posted |
| FreshnessResponse.PlacedJob | orchestrator/src/client/components/charts/FreshnessResponseChart.tsx:64-69 | any other job goes to the bucket of the whole days between posting and discovery |
| FreshnessResponse.TotalsAddUp | orchestrator/src/client/components/charts/FreshnessResponseChart.tsx:56-77 | the six bucket totals add up to the number of jobs placed |
| FreshnessResponse.PositiveAtMostTotal | orchestrator/src/client/components/charts/FreshnessResponseChart.tsx:73-76 | a bucket never has more positive responses than jobs |
| FreshnessResponse.PositiveRateBounds | orchestrator/src/client/components/charts/FreshnessResponseChart.tsx:81-82 | the positive rate is a percentage in [0, 100], and 0 for an empty bucket |
| FreshnessResponse.LabelsDistinct | orchestrator/src/client/components/charts/FreshnessResponseChart.tsx:41-48 | the bucket labels are distinct, so each bucket has its own count |
| FreshnessResponse.CountSkip | orchestrator/src/client/components/charts/FreshnessResponseChart.tsx:57-72 | a job that is not placed leaves every count as it was |
| FreshnessResponse.CountBump | orchestrator/src/client/components/charts/FreshnessResponseChart.tsx:71-76 | a placed job adds one to its bucket's total, and one to its positives when it had a positive response |
| FreshnessResponse.CountsOfNone | orchestrator/src/client/components/charts/FreshnessResponseChart.tsx:51-54 | every bucket starts at zero |
| FreshnessResponse.BuildFreshnessData | orchestrator/src/client/components/charts/FreshnessResponseChart.tsx:50-90 | one row per bucket, in bucket order, each with that bucket's counts and rate |
| FreshnessResponse.RowsProps | orchestrator/src/client/components/charts/FreshnessResponseChart.tsx:79-89 | every row has no more positives than jobs and a rate in [0, 100] (0 when empty), and the rows' totals add up to the jobs placed |
| InProgressBoard.StagesDistinct | shared/src/types.js:4-13 | the application stages are listed without repetition |
| InProgressBoard.EveryStageListed | shared/src/types.js:4-13 | every stage is one of the listed stages, so every card has a lane |
| InProgressBoard.SortByRecentOrder | orchestrator/src/client/pages/InProgressBoardPage.tsx:24-31 | the comparator is negative exactly when the first card goes first (the later event, then a card with an event before one without, then the later discovery), positive exactly when the second does, and antisymmetric |
| InProgressBoard.RankedCons | orchestrator/src/client/pages/InProgressBoardPage.tsx:107 | a card that no later card is ahead of can lead a ranked lane |
| InProgressBoard.InsertCardProps | orchestrator/src/client/pages/InProgressBoardPage.tsx:107 | inserting a card into a ranked lane keeps it ranked and adds exactly that card |
| InProgressBoard.InsertCardMultiset | orchestrator/src/client/pages/InProgressBoardPage.tsx:107 | inserting a card adds exactly that card |
| InProgressBoard.InsertCardRanked | orchestrator/src/client/pages/InProgressBoardPage.tsx:107 | inserting a card into a ranked lane keeps it ranked |
| InProgressBoard.NoneAheadOfHead | orchestrator/src/client/pages/InProgressBoardPage.tsx:107 | when the head of a ranked lane is ahead of the inserted card, nothing in the rest goes before the head |
| InProgressBoard.SortCardsProps | orchestrator/src/client/pages/InProgressBoardPage.tsx:107 | a sorted lane is ranked by recency and is a permutation of its cards |
| InProgressBoard.ResolveCurrentStage | orchestrator/src/client/pages/InProgressBoardPage.tsx:33-41 | without events a card is in "applied" with no event time; otherwise it takes the stage and time of the last event |
| InProgressBoard.CardOfLatest | orchestrator/src/client/pages/InProgressBoardPage.tsx:60-72 | a card keeps its job; without events (or when they failed to load) it is "applied" with no time; otherwise its time is that of the latest event and its stage that event's stage |
| InProgressBoard.LastIsLatest | orchestrator/src/client/pages/InProgressBoardPage.tsx:64 | after sorting by time, the last event is one of the job's events and none is later |
| InProgressBoard.NextCards | orchestrator/src/client/pages/InProgressBoardPage.tsx:60-72 | one card per job, in the order of the jobs |
| InProgressBoard.LaneOfCount | orchestrator/src/client/pages/InProgressBoardPage.tsx:102-104 | a lane holds each card of its stage as often as the board does, and no card of another stage |
| InProgressBoard.EmptyLanes | orchestrator/src/client/pages/InProgressBoardPage.tsx:91-100 | every stage starts with an empty lane |
| InProgressBoard.BuildLanes | orchestrator/src/client/pages/InProgressBoardPage.tsx:90-111 | every stage's lane is that stage's cards, sorted by recency |
| InProgressBoard.LanesPartition | orchestrator/src/client/pages/InProgressBoardPage.tsx:90-111 | every lane is ranked, and the lanes together hold each card once, in the lane of its stage |
| Timeline.GroupIdsProps | orchestrator/src/client/pages/job/Timeline.tsx:56-67 | a group id is listed exactly when some event carries it |
| Timeline.GroupIdsDistinct | orchestrator/src/client/pages/job/Timeline.tsx:64-66 | the Map lists each group id once |
| Timeline.CollectAlone | orchestrator/src/client/pages/job/Timeline.tsx:57-61 | an event without a group id joins the standalone events and leaves the groups unchanged |
| Timeline.CollectGrouped | orchestrator/src/client/pages/job/Timeline.tsx:63-66 | a grouped event is appended to its group; the group is created with that event's label (or "Grouped events") and its id listed on first sight |
| Timeline.StandaloneEntries | orchestrator/src/client/pages/job/Timeline.tsx:69 | one event entry per standalone event, in order |
| Timeline.BuildEntries | orchestrator/src/client/pages/job/Timeline.tsx:52-87 | the entries are the standalone entries and one entry per group, sorted by time |
| Timeline.CollectEvents | orchestrator/src/client/pages/job/Timeline.tsx:54-67 | after the loop, the standalone events and the groups are exactly those of the input |
| Timeline.PushEntries | orchestrator/src/client/pages/job/Timeline.tsx:69-80 | the mapped list is the standalone entries followed by one entry per group in the Map's order |
| Timeline.PushGroupStep | orchestrator/src/client/pages/job/Timeline.tsx:71-80 | pushing one group's entry extends the group entries by that group's entry |
| Timeline.StandaloneOfMembers | orchestrator/src/client/pages/job/Timeline.tsx:57-61 | an event is standalone exactly when it is an input event with no group id |
| Timeline.MembersFirst | orchestrator/src/client/pages/job/Timeline.tsx:63-64 | a group's label comes from the first input event carrying its id |
| Timeline.MembersCount | orchestrator/src/client/pages/job/Timeline.tsx:65 | a group holds exactly the input events carrying its id, as often as they occur |
| Timeline.GroupEntryProps | orchestrator/src/client/pages/job/Timeline.tsx:71-79 | a group entry holds its group's events in ascending time, is labelled by the first of them in input order, and carries the earliest time |
| Timeline.GroupEntriesMembers | orchestrator/src/client/pages/job/Timeline.tsx:71-80 | each group entry belongs to one of the listed ids |
| Timeline.EntriesFrom | orchestrator/src/client/pages/job/Timeline.tsx:82-86 | sorting keeps exactly the standalone and the group entries |
| Timeline.EventEntries | orchestrator/src/client/pages/job/Timeline.tsx:69-86 | an event entry shows a standalone input event, and every standalone input event has one |
| Timeline.GroupEntriesListed | orchestrator/src/client/pages/job/Timeline.tsx:71-86 | a group entry belongs to a group id of the input |
| Timeline.EntriesSorted | orchestrator/src/client/pages/job/Timeline.tsx:82-86 | the entries come in ascending time order |
| Timeline.FlattenSort | orchestrator/src/client/pages/job/Timeline.tsx:82-86 | sorting the entries keeps the events they show |
| Timeline.GroupedOutside | orchestrator/src/client/pages/job/Timeline.tsx:63-66 | an event outside the listed groups leaves their events unchanged |
| Timeline.GroupedInside | orchestrator/src/client/pages/job/Timeline.tsx:63-66 | an event of a listed group adds itself once to the grouped events |
| Timeline.Partition | orchestrator/src/client/pages/job/Timeline.tsx:54-67 | the standalone and the grouped events together are the input, each event exactly once |
| Timeline.PartitionStep | orchestrator/src/client/pages/job/Timeline.tsx:56-67 | one more event joins either the standalone events or exactly one group |
| Timeline.PartitionAlone | orchestrator/src/client/pages/job/Timeline.tsx:58-61 | a standalone event leaves the groups alone |
| Timeline.PartitionJoin | orchestrator/src/client/pages/job/Timeline.tsx:64-66 | an event of a group already seen joins that group |
| Timeline.PartitionNew | orchestrator/src/client/pages/job/Timeline.tsx:64-66 | an event of a new group starts that group, listed last |
| Timeline.ShownOnce | orchestrator/src/client/pages/job/Timeline.tsx:52-87 | every input event is shown by exactly one entry, as often as it occurs in the input |
| ComparatorSort.SortByProps | orchestrator/src/client/pages/orchestrator/useFilteredJobs.ts:92 | after sorting with a comparator, no element compares strictly before the one in front of it, and the result is a permutation of the input |
| Sorting.SortDescProps | orchestrator/src/server/services/post-application/mapping/engine.ts:171 | sorting by descending score leaves the scores non-increasing and is a permutation of its input |
| Sorting.InsertWithKey | orchestrator/src/server/services/post-application/mapping/engine.ts:171 | inserting an element puts it ahead of every element with its key and moves no other element past one of the same key |
| Sorting.SortDescStable | orchestrator/src/server/services/post-application/mapping/engine.ts:171 | the sort is stable: the elements with any one key come out in the order they went in |
| Sorting.SortDescHead | orchestrator/src/server/services/post-application/mapping/engine.ts:171 | the first sorted element has the largest key and is the earliest input element with that key, so ties for the top score go to the job listed first |
| Sorting.TopKProps | orchestrator/src/server/services/post-application/mapping/engine.ts:170-172 | the top k hold at most k elements, in non-increasing key order, all from the input, as many as the input allows, and none left out has a larger key than one kept |
| JsNumber.ClampSpec | orchestrator/src/client/pages/orchestrator/automatic-run.ts:125-128 | clamping into a non-empty range lands in the range and leaves values already inside unchanged |
| JsNumber.RoundSpec | orchestrator/src/client/pages/orchestrator/automatic-run.ts:95-96 | rounding lands within one half of its argument and keeps whole numbers |
| JsNumber.RoundMonotone | orchestrator/src/client/pages/orchestrator/automatic-run.ts:95-96 | rounding is monotone |
| JsParse.ParseIntOfString | orchestrator/src/server/api/routes/jobs.ts:1325 | a printed integer followed by text that does not start with a digit reads back as that integer |
| JsParse.ParseIntNoDigits | orchestrator/src/server/api/routes/jobs.ts:1325-1326 | text with no digit after the optional whitespace and sign reads as NaN |

## Left out

- Network and external services: Gmail HTTP calls and token refresh, LLM calls, webhooks and the scraping library itself. Their results are inputs to the model; a raising scraper is modelled as a missing result (`ScrapeJobs.RunRaised`).
- `getResponseDetail` (`orchestrator/src/server/services/llm/utils/http.ts:34-51`) is not modelled. It reads an HTTP response body, which is network I/O.
- Database and file-system effects are modelled as in-memory stores. This covers drizzle transactions and the backup directory. File copying, `stat` and `unlink` become updates of that store, and `readdir` order is an input.
- Concurrency is left out. `asyncPool` and `Promise.all` are modelled as sequential loops in item order. The cancellation checks in `score-jobs.ts` are left out.
- Scheduler timers and `getNextBackupTime` are left out. The model keeps only the start and stop decisions.
- Clocks and randomness are inputs: `Date.now`, `new Date()`, `randomUUID` and the local time used in backup names.
- Calendar validity of backup dates is not checked. Local time and UTC are not told apart.
- Backup file names are modelled, but the database path in `createBackup`'s error message is not.
- `JSON.parse` and `JSON.stringify` are parameters, and so are `encodeURIComponent`, URL parsing and hostnames, base64 decoding, `Date.parse` and the other time parsers.
- `Date.parse` is a parameter that returns `None` for NaN. Where the source uses the value without checking for NaN, the parser is taken to be total.
- `compareJobs`, `jobMatchesQuery`, `resolveSettingValue`, `normalizeCountryKey`, `isSourceAllowedForCountry` and the resume-project normaliser are parameters, because their definitions are not part of this model.
- `clampInt` is a parameter, required only to clamp to its bounds.
- `clampNumber`: `utils.ts` is not part of this model, so `clampNumber` is taken to be the usual clamp.
- `normalizeCountryKey` is assumed to behave like `normalizeLocationToken`.
- Lower-casing covers ASCII letters only. Unicode case folding is not modelled.
- Only the whitespace sets of JavaScript `\s` and Python `str.split()` are modelled.
- JavaScript numbers are integers or reals. Floating-point rounding error and overflow are not modelled.
- `Math.round` is half-up.
- The `Math.exp` decay in the bulk progress estimate is a parameter.
- Salary floors are parsed only in their integer cases. Decimal "k" amounts are left out.
- Set and Map iteration order is an insertion-ordered sequence.
- SQL row order among equal timestamps is not modelled. `ReviewService.LatestEvent` keeps the earliest inserted of equal events and `ApplicationTracking.Latest` the later inserted.
- Browser `localStorage` is left out. The automatic-run memory is modelled only as the parsing of the stored value.
- The ordered list of pipeline sources is a parameter.
- The bulk-action eligibility rules of `bulkActions.ts` and `getFailedJobIds` are parameters.
- React rendering, toasts, logging and progress messages are left out.
- The network-error path of `streamJobAction` is left out.
- `FilteredJobs.FilterJobs` models the four tabs the page offers. Any other tab value keeps every job, as the `AllTab` branch does.
- `DiscoverJobs.SearchTerms`: a `searchTerms` setting whose JSON is not an array gives no terms in the model. In the source (`orchestrator/src/server/pipeline/steps/discover-jobs.ts:72-73`, used at line 132) JSON `null` makes `searchTerms.length` throw a TypeError, a JSON string is taken as its characters so `termsTotal` is its length, and a number, boolean or object gives an undefined `termsTotal`.
- `EnvSettings`: the "no such table" fallback when reading settings is left out. It is a database error path.
- `ScrapeJobs.ScrapeMain` does not write files. Directory creation, `to_csv` and `to_json` are left out. The CSV options are recorded as a value.
- `Backup.BackupService.ListBackups` lists a manual backup with a `_<n>` collision suffix. The source's pattern (`orchestrator/src/server/services/backup/index.ts:18-19`) skips it. The service follows the corrected pattern of the Findings row; `Backup.CollisionNameUnlisted` states the behaviour as written.
- `Backup.BackupService.DeleteBackup` deletes a manual backup with a `_<n>` collision suffix. The source throws "Invalid backup filename" for it, because its pattern rejects the suffix.
- `Backup.ListStep` and `Backup.ParseBackupDate` accept the `_<n>` collision suffix as well, for the same reason.
- `LlmString.Truncate` counts characters, where JavaScript's `length` and `slice` count UTF-16 code units. A character outside the Basic Multilingual Plane counts once here and twice in the source, and the source can cut its surrogate pair in two.
- `EnvSettings.SecretHint` counts characters, not UTF-16 code units, for the same reason.
- `ScrapeJobs.PyParseInt` accepts ASCII digits only. Python's `int()` also accepts other Unicode decimal digits, such as Arabic-Indic ones.
- `ScrapeJobs.PathText` models POSIX pathlib only. ".." components are kept, as pathlib keeps them; symbolic links and Windows paths are not modelled.
- `ObjectPath.Step` treats a key segment on an array as a missing field, giving `undefined`. The source's `isRecord` accepts arrays, so there `length` and numeric keys such as "0" have values.
- `SearchCities`: the alias lookup sees only the table's own keys. A lookup on the source's plain object also sees inherited keys such as "constructor".
- `DiscoverJobs.SearchTerms` drops array entries that are not strings. The source's `as string[]` cast passes them through.
- `ReviewService` does not model the `updatedAt` timestamps written on approve and deny (`orchestrator/src/server/services/post-application/review/service.ts:172-233`).
- `JobSelectionActions`: the order of `jobIds` in a request is not modelled. The source sends `Array.from(selectedJobIds)` (`orchestrator/src/client/pages/orchestrator/useJobSelectionActions.tsx:119-170`), in the set's insertion order; the model keeps the selection as a set.
- `BulkJobSelection`: the order of `jobIds` in a bulk request is not modelled either, for the same reason.
- `LlmTypes` models only the `llm/types.ts` shapes the other modules use.
- `ComparatorSort.SortByProps` states only that no element compares strictly before the element in front of it. A comparator given as a parameter need not be transitive, so no pairwise order across the whole list is claimed.
- `ScoreJobs`: the scoring run is a sequential loop in job order. The `Promise.all` concurrency and cancellation are left out.

## Findings

| source | as written | input that shows it | evidently intended | confidence | as-written member | corrected member |
|---|---|---|---|---|---|---|
| orchestrator/src/client/components/tailoring/useTailoringDraft.ts:86-88 | On mount, the saved skills snapshot serialises the parsed groups directly. The draft's own JSON goes through the editable comma-joined form (lines 36-41), so a stored keyword containing "," is split in two in the draft but not in the snapshot. A freshly mounted draft is then dirty. | stored `tailoredSkills` = `[{"name":"Core","keywords":["a,b"]}]` | The mount snapshot is built the way `parseIncomingDraft` builds it, from the editable groups, so a fresh draft is never dirty | not executed | TailoringDraft.Draft.MountAsWritten, TailoringDraft.MountSnapshotMismatch | TailoringDraft.Draft.constructor, TailoringDraft.MountSnapshotAgrees |
| orchestrator/src/server/services/backup/index.ts:18-19 | A manual backup made when the name is already taken is named `jobs_manual_<date>_<time>_<n>.db` (lines 138-144). `MANUAL_BACKUP_PATTERN` admits no `_<n>` suffix, so that file is never listed, classified or deleted as a backup. | `jobs_manual_2024_01_02_03_04_05_1.db` | The manual pattern admits the optional `_<n>` collision suffix, so every backup the service creates is listed | not executed | Backup.GetBackupTypeAsWritten, Backup.CollisionNameUnlisted | Backup.GetBackupType, Backup.CollisionNameListed |
