// orchestrator/src/server/services/llm/policies/mode-selection.ts: the
// process-wide cache of the response mode that last worked for each
// provider and base URL, tried first on the next request.
module ModeSelection {
  import opened Text
  import opened Seqs
  import opened LlmTypes

  /** `buildModeCacheKey`. */
  function BuildModeCacheKey(provider: string, baseUrl: string): string
  {
    provider + ":" + baseUrl
  }

  /** Keys of providers without ":" in their names never collide. */
  lemma CacheKeyInjective(p1: string, b1: string, p2: string, b2: string)
    requires NoneIn(p1, {':'}) && NoneIn(p2, {':'})
    requires BuildModeCacheKey(p1, b1) == BuildModeCacheKey(p2, b2)
    ensures p1 == p2 && b1 == b2
  {
    var k := BuildModeCacheKey(p1, b1);
    assert FirstIndexIn(k, {':'}) == |p1| by {
      FirstIndexAfterFree(p1, ':', b1, {':'});
    }
    assert FirstIndexIn(k, {':'}) == |p2| by {
      FirstIndexAfterFree(p2, ':', b2, {':'});
    }
    assert p1 == k[..|p1|] && p2 == k[..|p2|];
    assert b1 == k[|p1| + 1..] && b2 == k[|p2| + 1..];
  }

  /** The modes other than `m`. */
  function Except(m: ResponseMode): ResponseMode -> bool
  {
    x => x != m
  }

  /** `getOrderedModes` against a cache: the cached mode first, then the others in order. */
  function OrderedModesIn(cache: map<string, ResponseMode>, cacheKey: string, modes: seq<ResponseMode>): seq<ResponseMode>
  {
    if cacheKey in cache then [cache[cacheKey]] + Filter(modes, Except(cache[cacheKey])) else modes
  }

  /**
    * Without a cached mode the modes are unchanged. With one, it comes
    * first, followed by every other mode in order, so the list gains one
    * element exactly when the cached mode was not offered.
    */
  lemma {:induction false} OrderedModesSpec(cache: map<string, ResponseMode>, cacheKey: string, modes: seq<ResponseMode>)
    ensures cacheKey !in cache ==> OrderedModesIn(cache, cacheKey, modes) == modes
    ensures cacheKey in cache ==>
      var m := cache[cacheKey];
      var r := OrderedModesIn(cache, cacheKey, modes);
      r[0] == m && m !in r[1..] && IsSubseq(r[1..], modes) &&
      (forall x :: x in r <==> x == m || x in modes) &&
      (m !in modes ==> |r| == |modes| + 1)
  {
    if cacheKey in cache {
      var m := cache[cacheKey];
      var r := OrderedModesIn(cache, cacheKey, modes);
      assert r[1..] == Filter(modes, Except(m));
      FilterSubseq(modes, Except(m));
      if m !in modes {
        FilterAll(modes, Except(m));
      }
    }
  }

  /** The cache. */
  class ModeCache {
    var cache: map<string, ResponseMode>

    constructor()
      ensures cache == map[]
    {
      cache := map[];
    }

    /** `getOrderedModes`. */
    function GetOrderedModes(cacheKey: string, modes: seq<ResponseMode>): seq<ResponseMode>
      reads this
    {
      OrderedModesIn(cache, cacheKey, modes)
    }

    /** `rememberSuccessfulMode`: sets only its own key. */
    method RememberSuccessfulMode(cacheKey: string, mode: ResponseMode)
      modifies this
      ensures cache == old(cache)[cacheKey := mode]
      ensures GetOrderedModes(cacheKey, [mode]) == [mode]
    {
      cache := cache[cacheKey := mode];
      assert Filter([mode], Except(mode)) == [];
    }

    /** `clearModeCache`: every list of modes comes back unchanged afterwards. */
    method ClearModeCache()
      modifies this
      ensures cache == map[]
      ensures forall k, modes :: GetOrderedModes(k, modes) == modes
    {
      cache := map[];
    }
  }

  /** Remembering a mode for one key leaves the order for every other key as it was. */
  lemma RememberScoped(cache: map<string, ResponseMode>, key: string, mode: ResponseMode, other: string,
                       modes: seq<ResponseMode>)
    requires other != key
    ensures OrderedModesIn(cache[key := mode], other, modes) == OrderedModesIn(cache, other, modes)
    ensures OrderedModesIn(cache[key := mode], key, modes)[0] == mode
  {
  }
}
