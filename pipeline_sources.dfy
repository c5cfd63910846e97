// orchestrator/src/client/pages/orchestrator/usePipelineSources.ts: which job
// sources the pipeline runs on. The list is kept within the allowed sources
// with a fallback when none remain, toggling never empties it, and the
// initial list comes from what local storage holds. The list of known
// sources (`orderedSources`) and the allowed and enabled lists arrive as
// parameters; storage reads and writes are left out.
module PipelineSources {
  import opened Json
  import opened Seqs

  /** No element appears twice. */
  predicate NoDuplicates(xs: seq<string>)
  {
    forall i, j :: 0 <= i < j < |xs| ==> xs[i] != xs[j]
  }

  /** Some source of the list is allowed. */
  predicate SomeAllowed(sources: seq<string>, allowed: seq<string>)
  {
    exists i :: 0 <= i < |sources| && sources[i] in allowed
  }

  /** The sources of the list that are allowed, in order. */
  function AllowedOf(sources: seq<string>, allowed: seq<string>): (r: seq<string>)
    ensures IsSubseq(r, sources)
    ensures forall x :: x in r <==> x in sources && x in allowed
    ensures r != [] <==> SomeAllowed(sources, allowed)
  {
    var keep := (x: string) => x in allowed;
    FilterSubseq(sources, keep);
    Filter(sources, keep)
  }

  /**
    * `normalizeSources`: the allowed sources of the list; when none is
    * allowed, the enabled sources, or the first allowed source when none is
    * enabled.
    */
  function NormalizeSources(sources: seq<string>, allowed: seq<string>, enabled: seq<string>): (r: seq<string>)
    ensures SomeAllowed(sources, allowed) ==>
      IsSubseq(r, sources) && forall x :: x in r <==> x in sources && x in allowed
    ensures !SomeAllowed(sources, allowed) && enabled != [] ==> r == enabled
    ensures !SomeAllowed(sources, allowed) && enabled == [] ==> r == (if allowed == [] then [] else [allowed[0]])
    ensures r == [] <==> !SomeAllowed(sources, allowed) && enabled == [] && allowed == []
  {
    var filtered := AllowedOf(sources, allowed);
    if |filtered| > 0 then filtered
    else if |enabled| > 0 then enabled
    else if |allowed| > 0 then allowed[..1]
    else []
  }

  /**
    * When every enabled source is allowed, normalising a normalised list
    * changes nothing: the sync effect settles after one run.
    */
  lemma NormalizeIdempotent(sources: seq<string>, allowed: seq<string>, enabled: seq<string>)
    requires forall x :: x in enabled ==> x in allowed
    ensures NormalizeSources(NormalizeSources(sources, allowed, enabled), allowed, enabled)
            == NormalizeSources(sources, allowed, enabled)
  {
    var keep := (x: string) => x in allowed;
    var once := NormalizeSources(sources, allowed, enabled);
    if SomeAllowed(sources, allowed) {
      assert once == Filter(sources, keep);
      FilterFilter(sources, keep, keep, keep);
    } else if enabled != [] {
      FilterAll(enabled, keep);
      assert enabled[0] in allowed;
    } else if allowed != [] {
      assert once == [allowed[0]];
      assert once[0] in allowed;
      FilterAll(once, keep);
    }
  }

  /** `sourcesMatch`: same length and the same source at every position. */
  function SourcesMatch(left: seq<string>, right: seq<string>): (r: bool)
    ensures r <==> left == right
  {
    |left| == |right| && forall i :: 0 <= i < |left| ==> left[i] == right[i]
  }

  /** `Array.from(new Set(xs))`: each element once, where it first appears. */
  function Unique(xs: seq<string>): (r: seq<string>)
    ensures forall x :: x in r <==> x in xs
    ensures NoDuplicates(r)
    decreases |xs|
  {
    if xs == [] then []
    else
      var init, last := xs[..|xs| - 1], xs[|xs| - 1];
      assert xs == init + [last];
      var r := Unique(init);
      if last in r then r else r + [last]
  }

  /** The `toggleSource` updater for an allowed source. */
  function Toggled(current: seq<string>, source: string, checked: bool): (r: seq<string>)
  {
    var next := if checked then Unique(current + [source]) else Filter(current, (x: string) => x != source);
    if |next| == 0 then current else next
  }

  /**
    * Toggling on adds the source once and keeps every other source;
    * toggling off removes every copy of it, unless that would leave the
    * list empty, in which case the list is unchanged.
    */
  lemma ToggledProps(current: seq<string>, source: string, checked: bool)
    ensures checked ==> NoDuplicates(Toggled(current, source, checked))
    ensures checked ==> forall x :: x in Toggled(current, source, checked) <==> x in current || x == source
    ensures !checked && (exists i :: 0 <= i < |current| && current[i] != source) ==>
      IsSubseq(Toggled(current, source, checked), current)
      && forall x :: x in Toggled(current, source, checked) <==> x in current && x != source
    ensures !checked && (forall i :: 0 <= i < |current| ==> current[i] == source) ==>
      Toggled(current, source, checked) == current
    ensures Toggled(current, source, checked) == [] <==> current == [] && !checked
  {
    var drop := (x: string) => x != source;
    if checked {
      assert source in current + [source];
    } else {
      FilterSubseq(current, drop);
      if exists i :: 0 <= i < |current| && current[i] != source {
        var i :| 0 <= i < |current| && current[i] != source;
        assert current[i] in Filter(current, drop);
      }
    }
  }

  /** What local storage held under the pipeline-sources key. */
  datatype Stored =
    | NothingStored        // no item, or an empty string
    | Unparsable           // JSON.parse threw
    | Parsed(value: Json)

  /** The stored entries that are known source names, in order. */
  function KnownStored(items: seq<Json>, known: seq<string>): (r: seq<string>)
    ensures forall x :: x in r <==> Str(x) in items && x in known
    decreases |items|
  {
    if items == [] then []
    else
      var rest := KnownStored(items[1..], known);
      assert items == [items[0]] + items[1..];
      if items[0].Str? && items[0].s in known then [items[0].s] + rest else rest
  }

  /**
    * The initial state: a stored list is cut down to the known sources and
    * normalised; nothing stored, a parse failure or a stored non-list
    * normalises the enabled sources instead.
    */
  function InitialSources(stored: Stored, known: seq<string>, allowed: seq<string>, enabled: seq<string>): (r: seq<string>)
    ensures !(stored.Parsed? && stored.value.Arr?) ==> r == NormalizeSources(enabled, allowed, enabled)
    ensures stored.Parsed? && stored.value.Arr? && (exists x :: x in allowed && x in known && Str(x) in stored.value.items) ==>
      forall x :: x in r <==> x in allowed && x in known && Str(x) in stored.value.items
    ensures forall x :: x in r ==> x in allowed || x in enabled
  {
    if stored.Parsed? && stored.value.Arr? then
      var next := KnownStored(stored.value.items, known);
      assert (exists x :: x in allowed && x in known && Str(x) in stored.value.items) ==> SomeAllowed(next, allowed) by {
        if exists x :: x in allowed && x in known && Str(x) in stored.value.items {
          var x :| x in allowed && x in known && Str(x) in stored.value.items;
          assert x in next;
        }
      }
      NormalizeSources(next, allowed, enabled)
    else
      NormalizeSources(enabled, allowed, enabled)
  }

  /** The hook's state. */
  class PipelineSourceSelection {
    var pipelineSources: seq<string>

    constructor (stored: Stored, known: seq<string>, allowed: seq<string>, enabled: seq<string>)
      ensures pipelineSources == InitialSources(stored, known, allowed, enabled)
    {
      pipelineSources := InitialSources(stored, known, allowed, enabled);
    }

    /** The effect on a change of the allowed or enabled lists: the list is normalised, and kept as it is when that changes nothing. */
    method SyncSources(allowed: seq<string>, enabled: seq<string>)
      modifies this
      ensures pipelineSources == NormalizeSources(old(pipelineSources), allowed, enabled)
    {
      var normalized := NormalizeSources(pipelineSources, allowed, enabled);
      if !SourcesMatch(pipelineSources, normalized) {
        pipelineSources := normalized;
      }
    }

    /** `toggleSource`: a source that is not allowed changes nothing. */
    method ToggleSource(source: string, checked: bool, allowed: seq<string>)
      modifies this
      ensures source !in allowed ==> pipelineSources == old(pipelineSources)
      ensures source in allowed ==> pipelineSources == Toggled(old(pipelineSources), source, checked)
    {
      if source !in allowed {
        return;
      }
      pipelineSources := Toggled(pipelineSources, source, checked);
    }
  }
}
