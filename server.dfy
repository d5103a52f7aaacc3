/** The module-level state of the server file: the two caches and the
    getters and random-pick tools built on them. */
module Server {
  import opened PyValues
  import opened Loader
  import opened LazyCache
  import RandomChoice

  class ModuleState {
    /** `_reasons_cache`; JNull (Python `None`) means not loaded. */
    var reasonsCache: Json
    /** `_quotes_cache`; JNull (Python `None`) means not loaded. */
    var quotesCache: Json
    /** How many times `load_reasons` and `load_quotes` have run. */
    ghost var reasonsLoads: nat
    ghost var quotesLoads: nat

    /** Module import: both caches start as `None`. */
    constructor ()
      ensures reasonsCache == JNull && quotesCache == JNull
      ensures reasonsLoads == 0 && quotesLoads == 0
    {
      reasonsCache := JNull;
      quotesCache := JNull;
      reasonsLoads := 0;
      quotesLoads := 0;
    }

    /** `get_reasons`; `read` is what reading reasons.json would give now. */
    method GetReasons(read: ReadOutcome) returns (r: Result<Json>)
      modifies this
      ensures var c := Get(old(reasonsCache), LoadReasons(read));
              r == c.result && reasonsCache == c.cache &&
              reasonsLoads == old(reasonsLoads) + (if c.loaded then 1 else 0)
      ensures !old(reasonsCache).JNull? ==>
                r == Ok(old(reasonsCache)) && reasonsCache == old(reasonsCache) &&
                reasonsLoads == old(reasonsLoads)
      ensures quotesCache == old(quotesCache) && quotesLoads == old(quotesLoads)
    {
      if reasonsCache.JNull? {
        var loaded := LoadReasons(read);
        reasonsLoads := reasonsLoads + 1;
        if loaded.Err? {
          return loaded;
        }
        reasonsCache := loaded.value;
      }
      r := Ok(reasonsCache);
    }

    /** `get_quotes`; `read` is what reading quotes.json would give now. */
    method GetQuotes(read: ReadOutcome) returns (r: Result<Json>)
      modifies this
      ensures var c := Get(old(quotesCache), LoadQuotes(read));
              r == c.result && quotesCache == c.cache &&
              quotesLoads == old(quotesLoads) + (if c.loaded then 1 else 0)
      ensures !old(quotesCache).JNull? ==>
                r == Ok(old(quotesCache)) && quotesCache == old(quotesCache) &&
                quotesLoads == old(quotesLoads)
      ensures reasonsCache == old(reasonsCache) && reasonsLoads == old(reasonsLoads)
    {
      if quotesCache.JNull? {
        var loaded := LoadQuotes(read);
        quotesLoads := quotesLoads + 1;
        if loaded.Err? {
          return loaded;
        }
        quotesCache := loaded.value;
      }
      r := Ok(quotesCache);
    }

    /** The `get_no_reason` tool: `random.choice(get_reasons())`. What it
        returns is whatever element the list holds, string or not. */
    method GetNoReason(read: ReadOutcome) returns (r: Result<Json>)
      modifies this
      ensures var c := Get(old(reasonsCache), LoadReasons(read));
              reasonsCache == c.cache &&
              reasonsLoads == old(reasonsLoads) + (if c.loaded then 1 else 0) &&
              (c.result.Err? ==> r == c.result)
      ensures quotesCache == old(quotesCache) && quotesLoads == old(quotesLoads)
      ensures r.Ok? ==> RandomChoice.IsElement(r.value, reasonsCache)
      ensures (reasonsCache.JArray? || reasonsCache.JString?) && RandomChoice.Len(reasonsCache) != Some(0) ==> r.Ok?
      ensures r.Err? && Get(old(reasonsCache), LoadReasons(read)).result.Ok? ==>
                (r.error == TypeError <==> RandomChoice.Len(reasonsCache).None?) &&
                (r.error == IndexError <==> RandomChoice.Len(reasonsCache) == Some(0)) &&
                (reasonsCache.JObject? && |reasonsCache.fields| > 0 ==> r.error == KeyError)
      ensures old(reasonsCache).JNull? && LoadReasons(read) == Ok(JNull) ==> r == Err(TypeError)
      ensures IsNonEmptyStringList(reasonsCache) ==>
                r.Ok? && r.value.JString? && |r.value.s| > 0
      ensures old(reasonsCache).JNull? && (read.NotFound? || read.DecodeError?) ==>
                r.Ok? && r.value.JString? && r.value.s in ReasonsFallback()
    {
      var reasons := GetReasons(read);
      if reasons.Err? {
        return reasons;
      }
      r := RandomChoice.Choice(reasons.value);
    }

    /** The `get_motivational_quote` tool: `random.choice(get_quotes())`. */
    method GetMotivationalQuote(read: ReadOutcome) returns (r: Result<Json>)
      modifies this
      ensures var c := Get(old(quotesCache), LoadQuotes(read));
              quotesCache == c.cache &&
              quotesLoads == old(quotesLoads) + (if c.loaded then 1 else 0) &&
              (c.result.Err? ==> r == c.result)
      ensures reasonsCache == old(reasonsCache) && reasonsLoads == old(reasonsLoads)
      ensures r.Ok? ==> RandomChoice.IsElement(r.value, quotesCache)
      ensures (quotesCache.JArray? || quotesCache.JString?) && RandomChoice.Len(quotesCache) != Some(0) ==> r.Ok?
      ensures r.Err? && Get(old(quotesCache), LoadQuotes(read)).result.Ok? ==>
                (r.error == TypeError <==> RandomChoice.Len(quotesCache).None?) &&
                (r.error == IndexError <==> RandomChoice.Len(quotesCache) == Some(0)) &&
                (quotesCache.JObject? && |quotesCache.fields| > 0 ==> r.error == KeyError)
      ensures old(quotesCache).JNull? && LoadQuotes(read) == Ok(JNull) ==> r == Err(TypeError)
      ensures IsNonEmptyStringList(quotesCache) ==>
                r.Ok? && r.value.JString? && |r.value.s| > 0
      ensures old(quotesCache).JNull? && (read.NotFound? || read.DecodeError?) ==>
                r.Ok? && r.value.JString? && r.value.s in QuotesFallback()
    {
      var quotes := GetQuotes(read);
      if quotes.Err? {
        return quotes;
      }
      r := RandomChoice.Choice(quotes.value);
    }
  }
}
