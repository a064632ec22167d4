/**
 * Which remote model the skill asks for (`get_latest_model` and `model_cache`
 * in lambda/lambda_function.py). A single-slot cache remembers the last
 * successfully resolved model id for one hour; on a miss the model listing is
 * filtered to OpenAI chat models and the one with the greatest `created_at`
 * is chosen; any failure yields a fixed fallback id and leaves the cache alone.
 *
 * The listing request is an input: `apiKeyPresent` says whether the key is
 * configured, and `listing` is `None` when the request, its status or its JSON
 * decoding failed, otherwise the decoded models in listing order. Time is an
 * integer clock in seconds.
 */
module ModelResolver {
  import opened Wrappers
  import opened Strings

  /** `timedelta(hours=1)`, in seconds. */
  const OneHour: int := 3600
  /** The id returned whenever the live lookup fails. */
  const Fallback: string := "openai/gpt-4-1106-preview"
  const VendorPrefix: string := "openai/"
  const ChatCapability: string := "chat"

  /** One entry of the model listing; an absent `capabilities` key is the empty list. */
  datatype ModelInfo = ModelInfo(id: string, capabilities: seq<string>, createdAt: Option<string>)

  /** The filter of the list comprehension: an OpenAI model that can chat. */
  predicate IsChatModel(m: ModelInfo) {
    StartsWith(m.id, VendorPrefix) && ChatCapability in m.capabilities
  }

  /** The sort key `x.get('created_at', '')`. */
  function CreatedKey(m: ModelInfo): string {
    m.createdAt.GetOr("")
  }

  /** `chat_models`: the chat models of the listing, in listing order. */
  function ChatModels(models: seq<ModelInfo>): (r: seq<ModelInfo>)
    ensures |r| <= |models|
    ensures forall m :: m in r ==> IsChatModel(m) && m in models
    ensures forall i :: 0 <= i < |models| && IsChatModel(models[i]) ==> models[i] in r
    ensures r == [] <==> forall i :: 0 <= i < |models| ==> !IsChatModel(models[i])
  {
    if models == [] then []
    else
      var last := models[|models| - 1];
      ChatModels(models[..|models| - 1]) + (if IsChatModel(last) then [last] else [])
  }

  /** The positions in the listing of its chat models, in increasing order. */
  ghost function ChatPositions(models: seq<ModelInfo>): seq<nat> {
    if models == [] then []
    else
      var n := |models| - 1;
      ChatPositions(models[..n]) + (if IsChatModel(models[n]) then [n] else [])
  }

  /** `p` lists, increasingly, positions of `models` that hold the elements of `c`. */
  ghost predicate Locates(models: seq<ModelInfo>, c: seq<ModelInfo>, p: seq<nat>) {
    && |p| == |c|
    && (forall i :: 0 <= i < |p| ==> p[i] < |models| && models[p[i]] == c[i])
    && (forall i, j :: 0 <= i < j < |p| ==> p[i] < p[j])
  }

  /** `p` mentions every position of a chat model. */
  ghost predicate CoversChat(models: seq<ModelInfo>, p: seq<nat>) {
    forall q :: 0 <= q < |models| && IsChatModel(models[q]) ==> q in p
  }

  /** One step of `ChatPositionsLocate`: appending a listing entry. */
  lemma LocatesStep(models: seq<ModelInfo>, c: seq<ModelInfo>, p: seq<nat>)
    requires |models| > 0
    requires Locates(models[..|models| - 1], c, p)
    requires CoversChat(models[..|models| - 1], p)
    ensures var n := |models| - 1;
      var c' := c + (if IsChatModel(models[n]) then [models[n]] else []);
      var p' := p + (if IsChatModel(models[n]) then [n] else []);
      Locates(models, c', p') && CoversChat(models, p')
  {
    var n := |models| - 1;
    var front := models[..n];
    forall i | 0 <= i < |p| ensures p[i] < n && models[p[i]] == c[i] {
      assert front[p[i]] == models[p[i]];
    }
    forall q | 0 <= q < n && IsChatModel(models[q]) ensures q in p {
      assert front[q] == models[q];
    }
  }

  /**
   * `ChatModels` keeps listing order: its elements stand in the listing at
   * the strictly increasing positions `ChatPositions`, which include every
   * chat model.
   */
  lemma {:induction false} ChatPositionsLocate(models: seq<ModelInfo>)
    ensures Locates(models, ChatModels(models), ChatPositions(models))
    ensures CoversChat(models, ChatPositions(models))
  {
    if models != [] {
      var n := |models| - 1;
      ChatPositionsLocate(models[..n]);
      LocatesStep(models, ChatModels(models[..n]), ChatPositions(models[..n]));
    }
  }

  /** Appending one element to a prefix whose latest index is `k` keeps `k` unless the new key is strictly greater. */
  lemma LatestStep(c: seq<ModelInfo>, k: nat)
    requires |c| > 1 && k < |c| - 1
    requires forall j :: 0 <= j < |c| - 1 ==> LexLe(CreatedKey(c[j]), CreatedKey(c[k]))
    requires forall j :: 0 <= j < k ==> LexLess(CreatedKey(c[j]), CreatedKey(c[k]))
    ensures LexLess(CreatedKey(c[k]), CreatedKey(c[|c| - 1])) ==>
      forall j :: 0 <= j < |c| - 1 ==> LexLess(CreatedKey(c[j]), CreatedKey(c[|c| - 1]))
    ensures !LexLess(CreatedKey(c[k]), CreatedKey(c[|c| - 1])) ==>
      LexLe(CreatedKey(c[|c| - 1]), CreatedKey(c[k]))
  {
    var n := |c| - 1;
    var kk, kn := CreatedKey(c[k]), CreatedKey(c[n]);
    if LexLess(kk, kn) {
      forall j | 0 <= j < n ensures LexLess(CreatedKey(c[j]), kn) {
        var kj := CreatedKey(c[j]);
        LexLeTransitive(kj, kk, kn);
        if kj == kn {
          LexLeAntisymmetric(kk, kn);
        }
      }
    } else {
      LexLeTotal(kk, kn);
      if kk == kn {
        LexLeReflexive(kn);
      }
    }
  }

  /**
   * `sorted(c, key=CreatedKey, reverse=True)[0]` as an index: Python's sort is
   * stable, also with `reverse=True`, so the first element is the EARLIEST
   * element whose key is greatest.
   */
  function LatestIndex(c: seq<ModelInfo>): (k: nat)
    requires |c| > 0
    ensures k < |c|
    ensures forall j :: 0 <= j < |c| ==> LexLe(CreatedKey(c[j]), CreatedKey(c[k]))
    ensures forall j :: 0 <= j < k ==> LexLess(CreatedKey(c[j]), CreatedKey(c[k]))
  {
    if |c| == 1 then
      LexLeReflexive(CreatedKey(c[0]));
      0
    else
      var n := |c| - 1;
      var k := LatestIndex(c[..n]);
      assert forall j :: 0 <= j < n ==> c[..n][j] == c[j];
      LatestStep(c, k);
      if LexLess(CreatedKey(c[k]), CreatedKey(c[n])) then
        LexLeReflexive(CreatedKey(c[n]));
        n
      else
        k
  }

  /** Any index with the two properties of `LatestIndex` is `LatestIndex`: the choice is deterministic. */
  lemma LatestIndexUnique(c: seq<ModelInfo>, k: nat)
    requires k < |c|
    requires forall j :: 0 <= j < |c| ==> LexLe(CreatedKey(c[j]), CreatedKey(c[k]))
    requires forall j :: 0 <= j < k ==> LexLess(CreatedKey(c[j]), CreatedKey(c[k]))
    ensures LatestIndex(c) == k
  {
    var l := LatestIndex(c);
    if l < k {
      LexLeAntisymmetric(CreatedKey(c[l]), CreatedKey(c[k]));
    } else if k < l {
      LexLeAntisymmetric(CreatedKey(c[k]), CreatedKey(c[l]));
    }
  }

  /**
   * The live lookup (lines 27-66 without the cache): `None` when the key is
   * missing, the listing failed or no candidate survives the filter,
   * otherwise the id of the latest chat model.
   */
  function Lookup(apiKeyPresent: bool, listing: Option<seq<ModelInfo>>): (r: Option<string>)
    ensures r.Some? <==> apiKeyPresent && listing.Some? && ChatModels(listing.value) != []
    ensures r.Some? ==> StartsWith(r.value, VendorPrefix)
  {
    if !apiKeyPresent then None
    else
      match listing
      case None => None
      case Some(models) =>
        var candidates := ChatModels(models);
        if candidates == [] then None
        else
          var latest := candidates[LatestIndex(candidates)];
          assert latest in candidates;
          Some(latest.id)
  }

  /**
   * A chat model at listing position `q` against the latest candidate, which
   * stands at position `pos[k]`.
   */
  lemma ChatEntryNotLater(models: seq<ModelInfo>, c: seq<ModelInfo>, pos: seq<nat>, k: nat, q: nat)
    requires Locates(models, c, pos) && CoversChat(models, pos)
    requires k < |c|
    requires forall j :: 0 <= j < |c| ==> LexLe(CreatedKey(c[j]), CreatedKey(c[k]))
    requires forall j :: 0 <= j < k ==> LexLess(CreatedKey(c[j]), CreatedKey(c[k]))
    requires q < |models| && IsChatModel(models[q])
    ensures LexLe(CreatedKey(models[q]), CreatedKey(models[pos[k]]))
    ensures q < pos[k] ==> LexLess(CreatedKey(models[q]), CreatedKey(models[pos[k]]))
  {
    assert q in pos;
    var j :| 0 <= j < |pos| && pos[j] == q;
    assert models[q] == c[j];
    if q < pos[k] {
      assert j < k;
    }
  }

  /**
   * The id a successful lookup returns belongs to a chat model of the listing
   * at position `p`; its `created_at` is the greatest, and every earlier chat
   * model has a strictly smaller one (ties go to the earliest).
   */
  lemma LookupPicksEarliestLatest(models: seq<ModelInfo>)
    requires ChatModels(models) != []
    ensures |ChatPositions(models)| == |ChatModels(models)|
    ensures var p := ChatPositions(models)[LatestIndex(ChatModels(models))];
      && p < |models|
      && Lookup(true, Some(models)) == Some(models[p].id)
      && IsChatModel(models[p])
      && (forall q :: 0 <= q < |models| && IsChatModel(models[q]) ==>
            LexLe(CreatedKey(models[q]), CreatedKey(models[p])))
      && (forall q :: 0 <= q < p && IsChatModel(models[q]) ==>
            LexLess(CreatedKey(models[q]), CreatedKey(models[p])))
  {
    ChatPositionsLocate(models);
    var c := ChatModels(models);
    var pos := ChatPositions(models);
    var k := LatestIndex(c);
    assert models[pos[k]] == c[k] && c[k] in c;
    forall q | 0 <= q < |models| && IsChatModel(models[q])
      ensures LexLe(CreatedKey(models[q]), CreatedKey(models[pos[k]]))
      ensures q < pos[k] ==> LexLess(CreatedKey(models[q]), CreatedKey(models[pos[k]]))
    {
      ChatEntryNotLater(models, c, pos, k, q);
    }
  }

  /** The content of `model_cache`. */
  datatype CacheState = CacheState(model: Option<string>, timestamp: Option<int>)

  const EmptyCache: CacheState := CacheState(None, None)

  /**
   * What the cache may hold: both fields or neither, and only ids a
   * successful lookup can produce.
   */
  predicate CacheValid(c: CacheState) {
    (c.model.Some? <==> c.timestamp.Some?) &&
    (c.model.Some? ==> StartsWith(c.model.value, VendorPrefix))
  }

  /** The guard of lines 22-24, with Python truthiness: an empty id counts as absent. */
  predicate IsFresh(c: CacheState, now: int) {
    c.timestamp.Some? && c.model.Some? && c.model.value != "" && now - c.timestamp.value < OneHour
  }

  /**
   * One call of `get_latest_model`: the id returned, whether the listing was
   * requested over the network, and the cache afterwards.
   */
  datatype Resolution = Resolution(id: string, fetched: bool, cache: CacheState)

  /** `get_latest_model` as a function of the cache before the call. */
  function Resolve(c: CacheState, now: int, apiKeyPresent: bool, listing: Option<seq<ModelInfo>>): (r: Resolution)
    ensures r.fetched ==> !IsFresh(c, now) && apiKeyPresent
    ensures r.cache == c || r.cache == CacheState(Some(r.id), Some(now))
    ensures || (IsFresh(c, now) && c.model == Some(r.id))
            || Lookup(apiKeyPresent, listing) == Some(r.id)
            || r.id == Fallback
  {
    if IsFresh(c, now) then Resolution(c.model.value, false, c)
    else
      match Lookup(apiKeyPresent, listing)
      case None => Resolution(Fallback, apiKeyPresent, c)
      case Some(latest) => Resolution(latest, apiKeyPresent, CacheState(Some(latest), Some(now)))
  }

  /** A fresh entry answers the call: its id, no listing request, cache unchanged. */
  lemma FreshCacheAnswers(c: CacheState, now: int, apiKeyPresent: bool, listing: Option<seq<ModelInfo>>)
    requires c.model.Some? && c.timestamp.Some? && c.model.value != ""
    requires now - c.timestamp.value < OneHour
    ensures Resolve(c, now, apiKeyPresent, listing) == Resolution(c.model.value, false, c)
  {
  }

  /**
   * A failed lookup (missing key, failed listing, no candidate) on a stale or
   * empty cache gives the fallback id, never the stale id, and keeps the cache.
   */
  lemma FailedLookupFallsBack(c: CacheState, now: int, apiKeyPresent: bool, listing: Option<seq<ModelInfo>>)
    requires !IsFresh(c, now)
    requires !apiKeyPresent || listing.None? || ChatModels(listing.value) == []
    ensures Resolve(c, now, apiKeyPresent, listing).id == Fallback
    ensures Resolve(c, now, apiKeyPresent, listing).cache == c
  {
  }

  /**
   * The cache is written exactly by a successful lookup after a miss, and
   * then with that id and `now`.
   */
  lemma CacheWrittenOnlyOnSuccess(c: CacheState, now: int, apiKeyPresent: bool, listing: Option<seq<ModelInfo>>)
    ensures var r := Resolve(c, now, apiKeyPresent, listing);
      r.cache != c ==>
        !IsFresh(c, now) && Lookup(apiKeyPresent, listing) == Some(r.id) &&
        r.cache == CacheState(Some(r.id), Some(now))
    ensures var r := Resolve(c, now, apiKeyPresent, listing);
      !IsFresh(c, now) && Lookup(apiKeyPresent, listing).Some? ==>
        r.id == Lookup(apiKeyPresent, listing).value && r.fetched &&
        r.cache == CacheState(Some(r.id), Some(now)) && r.cache != c
  {
    var r := Resolve(c, now, apiKeyPresent, listing);
    if !IsFresh(c, now) && Lookup(apiKeyPresent, listing).Some? {
      assert |r.id| >= |VendorPrefix|;
    }
  }

  /** A listing request is made exactly when the cache misses and the key is configured. */
  lemma FetchOnlyOnMissWithKey(c: CacheState, now: int, apiKeyPresent: bool, listing: Option<seq<ModelInfo>>)
    ensures Resolve(c, now, apiKeyPresent, listing).fetched <==> !IsFresh(c, now) && apiKeyPresent
  {
  }

  /** Every resolution keeps the cache valid and returns an OpenAI model id. */
  lemma ResolvePreservesValid(c: CacheState, now: int, apiKeyPresent: bool, listing: Option<seq<ModelInfo>>)
    requires CacheValid(c)
    ensures var r := Resolve(c, now, apiKeyPresent, listing);
      CacheValid(r.cache) && StartsWith(r.id, VendorPrefix)
  {
    assert Fallback[..|VendorPrefix|] == VendorPrefix;
  }

  /**
   * Within the hour after a successful resolution, the next call returns the
   * same id whatever the listing would now say, even if it would fail.
   */
  lemma CachedWithinHour(c: CacheState, t1: int, t2: int, key1: bool, key2: bool,
                         listing1: Option<seq<ModelInfo>>, listing2: Option<seq<ModelInfo>>)
    requires !IsFresh(c, t1) && Lookup(key1, listing1).Some?
    requires t2 - t1 < OneHour
    ensures var r1 := Resolve(c, t1, key1, listing1);
      var r2 := Resolve(r1.cache, t2, key2, listing2);
      r2.id == r1.id && !r2.fetched && r2.cache == r1.cache
  {
    var r1 := Resolve(c, t1, key1, listing1);
    assert r1.id != "" by { assert |r1.id| >= |VendorPrefix|; }
  }

  /** An empty cache whose lookup fails stays empty: the fallback never poisons it. */
  lemma EmptyCacheNotPoisoned(now: int, apiKeyPresent: bool, listing: Option<seq<ModelInfo>>)
    requires Lookup(apiKeyPresent, listing).None?
    ensures Resolve(EmptyCache, now, apiKeyPresent, listing) == Resolution(Fallback, apiKeyPresent, EmptyCache)
  {
  }

  /** The process-wide `model_cache`, updated in place by `get_latest_model`. */
  class ModelCache {
    var model: Option<string>
    var timestamp: Option<int>

    function State(): CacheState
      reads this
    {
      CacheState(model, timestamp)
    }

    ghost predicate Valid()
      reads this
    {
      CacheValid(State())
    }

    /** The module-level initialiser: both entries `None`. */
    constructor ()
      ensures State() == EmptyCache && Valid()
    {
      model := None;
      timestamp := None;
    }

    /** `get_latest_model()` at clock time `now`. */
    method GetLatestModel(now: int, apiKeyPresent: bool, listing: Option<seq<ModelInfo>>)
      returns (id: string, fetched: bool)
      modifies this
      ensures Resolution(id, fetched, State()) == Resolve(old(State()), now, apiKeyPresent, listing)
      ensures old(Valid()) ==> Valid() && StartsWith(id, VendorPrefix)
    {
      ghost var before := State();
      if timestamp.Some? && model.Some? && model.value != "" && now - timestamp.value < OneHour {
        id, fetched := model.value, false;
      } else {
        fetched := apiKeyPresent;
        match Lookup(apiKeyPresent, listing) {
          case None =>
            id := Fallback;
          case Some(latest) =>
            timestamp := Some(now);
            model := Some(latest);
            id := latest;
        }
      }
      if CacheValid(before) {
        ResolvePreservesValid(before, now, apiKeyPresent, listing);
      }
    }
  }
}
