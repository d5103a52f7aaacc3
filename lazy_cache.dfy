/** The lazy cache behind `get_reasons` and `get_quotes`, as pure functions:
    one getter call, and a run of many calls while the file under it may
    change from call to call. */
module LazyCache {
  import opened PyValues
  import opened Loader

  /** What one getter call leaves behind: the new cache value, what the call
      returns or raises, and whether it ran the loader. */
  datatype Call = Call(cache: Json, result: Result<Json>, loaded: bool)

  /** One getter call on cache value `cache`, where `load` is what the loader
      would give if it ran now. The loader runs only on `None`; if it raises,
      the assignment to the cache does not happen. */
  function Get(cache: Json, load: Result<Json>): (c: Call)
    ensures c.loaded <==> cache.JNull?
    ensures !c.loaded ==> c.cache == cache
    ensures c.result.Ok? ==> c.result.value == c.cache
    ensures c.loaded ==> c.result == load
    ensures c.result.Err? ==> c.cache.JNull?
  {
    if cache.JNull? then
      match load
      case Ok(v) => Call(v, Ok(v), true)
      case Err(e) => Call(JNull, Err(e), true)
    else
      Call(cache, Ok(cache), false)
  }

  /** A sequence of getter calls: the final cache, every call's result in
      order, and how many times the loader ran. */
  datatype Trace = Trace(cache: Json, results: seq<Result<Json>>, loaderCalls: nat)

  /** Getter calls in sequence from cache value `cache`, where `outcomes[i]` is
      the outcome reading the file would have at the i-th call. */
  function Run(cache: Json, outcomes: seq<ReadOutcome>, fallback: seq<string>): (t: Trace)
    ensures |t.results| == |outcomes|
    ensures t.loaderCalls <= |outcomes|
    decreases |outcomes|
  {
    if outcomes == [] then Trace(cache, [], 0)
    else
      var c := Get(cache, LoadOrFallback(outcomes[0], fallback));
      var rest := Run(c.cache, outcomes[1..], fallback);
      Trace(rest.cache, [c.result] + rest.results,
            (if c.loaded then 1 else 0) + rest.loaderCalls)
  }

  /** A read whose load leaves a non-`None` value in the cache. */
  predicate Settles(read: ReadOutcome, fallback: seq<string>)
  {
    var r := LoadOrFallback(read, fallback);
    r.Ok? && !r.value.JNull?
  }

  /** Reference count of loader calls from an unloaded cache: one per call up
      to and including the first whose load settles. */
  function CallsUntilSettled(outcomes: seq<ReadOutcome>, fallback: seq<string>): nat
    decreases |outcomes|
  {
    if outcomes == [] then 0
    else if Settles(outcomes[0], fallback) then 1
    else 1 + CallsUntilSettled(outcomes[1..], fallback)
  }

  /** Once the cache holds a non-`None` value, no later call runs the loader
      or changes the cache, and every call returns that same value whatever
      the file holds by then. */
  lemma {:induction false} LoadedCacheIsStable(cache: Json, outcomes: seq<ReadOutcome>, fallback: seq<string>)
    requires !cache.JNull?
    ensures Run(cache, outcomes, fallback).cache == cache
    ensures Run(cache, outcomes, fallback).loaderCalls == 0
    ensures forall i :: 0 <= i < |outcomes| ==> Run(cache, outcomes, fallback).results[i] == Ok(cache)
    decreases |outcomes|
  {
    if outcomes != [] {
      LoadedCacheIsStable(cache, outcomes[1..], fallback);
    }
  }

  /** From an unloaded cache the loader runs exactly once per call until a
      load settles, and never after. */
  lemma {:induction false} LoaderCallsMatchReference(outcomes: seq<ReadOutcome>, fallback: seq<string>)
    ensures Run(JNull, outcomes, fallback).loaderCalls == CallsUntilSettled(outcomes, fallback)
    decreases |outcomes|
  {
    if outcomes != [] {
      var c := Get(JNull, LoadOrFallback(outcomes[0], fallback));
      if Settles(outcomes[0], fallback) {
        LoadedCacheIsStable(c.cache, outcomes[1..], fallback);
      } else {
        LoaderCallsMatchReference(outcomes[1..], fallback);
      }
    }
  }

  /** Load at most once: if the first load settles on `v`, the loader never
      runs again and every call returns `v`. */
  lemma {:induction false} FirstSettledLoadIsFinal(outcomes: seq<ReadOutcome>, fallback: seq<string>)
    requires |outcomes| > 0 && Settles(outcomes[0], fallback)
    ensures var v := LoadOrFallback(outcomes[0], fallback).value;
            var t := Run(JNull, outcomes, fallback);
            t.loaderCalls == 1 && t.cache == v &&
            forall i :: 0 <= i < |outcomes| ==> t.results[i] == Ok(v)
  {
    var v := LoadOrFallback(outcomes[0], fallback).value;
    LoadedCacheIsStable(v, outcomes[1..], fallback);
    var t := Run(JNull, outcomes, fallback);
    forall i | 0 <= i < |outcomes|
      ensures t.results[i] == Ok(v)
    {
      if i > 0 {
        assert t.results[i] == Run(v, outcomes[1..], fallback).results[i - 1];
      }
    }
  }

  /** The `null` caveat: a file holding JSON `null` loads to `None`, which the
      cache cannot tell from "not loaded", so every call runs the loader
      again and returns `None`. */
  lemma {:induction false} NullReloadsOnEveryCall(outcomes: seq<ReadOutcome>, fallback: seq<string>)
    requires forall i :: 0 <= i < |outcomes| ==> outcomes[i] == Parsed(JNull)
    ensures Run(JNull, outcomes, fallback).cache == JNull
    ensures Run(JNull, outcomes, fallback).loaderCalls == |outcomes|
    ensures forall i :: 0 <= i < |outcomes| ==> Run(JNull, outcomes, fallback).results[i] == Ok(JNull)
    decreases |outcomes|
  {
    if outcomes != [] {
      NullReloadsOnEveryCall(outcomes[1..], fallback);
    }
  }

  /** A read that raises leaves the cache unloaded, so the next call reads
      the file again: the rest of the run is that of a fresh, unloaded cache. */
  lemma FailedLoadIsRetried(e: string, outcomes: seq<ReadOutcome>, fallback: seq<string>)
    ensures var r := Run(JNull, outcomes, fallback);
            Run(JNull, [OtherError(e)] + outcomes, fallback) ==
              Trace(r.cache, [Err(Raised(e))] + r.results, 1 + r.loaderCalls)
  {
  }

  /** A missing or undecodable file settles on the fallback list, so the
      loader runs once and every call returns that list. */
  lemma {:induction false} MissingFileSettlesOnFallback(outcomes: seq<ReadOutcome>, fallback: seq<string>)
    requires |outcomes| > 0 && (outcomes[0].NotFound? || outcomes[0].DecodeError?)
    ensures var t := Run(JNull, outcomes, fallback);
            t.loaderCalls == 1 && t.cache == StringList(fallback) &&
            forall i :: 0 <= i < |outcomes| ==> t.results[i] == Ok(StringList(fallback))
  {
    assert Settles(outcomes[0], fallback);
    FirstSettledLoadIsFinal(outcomes, fallback);
  }
}
