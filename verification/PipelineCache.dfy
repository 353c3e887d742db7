/**
The pipeline as one thread sees it: the endpoint cache with its dirty flag, the early gate
of the logger, and the decision of `submit` between fallback, synchronous dispatch and the
crossbar.  Calls are atomic here; `CacheRace` takes the cache lookup apart.
*/
module PipelineCache {
  import opened Events
  import opened LaneProtocol
  import opened Routing

  datatype Config = Config(asyncByDefault: bool, fatalSync: bool)

  /** An event handed to `SinkCrossbar::submit`. */
  datatype Handed = Handed(event: Event, mask: set<nat>)

  method MatchEndpoint(allow: seq<string>, deny: seq<string>, endpoint: string) returns (pass: bool)
    ensures pass == EndpointPasses(allow, deny, endpoint)
  {
    for d := 0 to |deny|
      invariant forall k | 0 <= k < d :: !MatchesPrefix(endpoint, deny[k])
    {
      if MatchesPrefix(endpoint, deny[d]) {
        return false;
      }
    }
    if allow == [] {
      return true;
    }
    for a := 0 to |allow|
      invariant forall k | 0 <= k < a :: !MatchesPrefix(endpoint, allow[k])
    {
      if MatchesPrefix(endpoint, allow[a]) {
        return true;
      }
    }
    return false;
  }

  method PassesAll(filters: seq<Filter>, e: Event) returns (pass: bool)
    ensures pass == AllPass(filters, e)
  {
    for k := 0 to |filters|
      invariant forall j | 0 <= j < k :: Passes(filters[j], e)
    {
      if !Passes(filters[k], e) {
        return false;
      }
    }
    return true;
  }

  class Pipeline {
    var routes: seq<Route>
    var globalFilters: seq<Filter>
    var cfg: Config
    var accepting: bool
    var cache: map<string, CacheEntry>
    var dirty: bool
    var writes: seq<Write>          // every ISink::write made on a caller's thread
    var handed: seq<Handed>         // every event given to the crossbar
    var fallback: seq<Event>        // every event written to stderr

    /** Cache coherence: while the dirty flag is false, every cached entry is the one that the
        current routes give. */
    ghost predicate Valid()
      reads this
    {
      !dirty ==> forall endpoint | endpoint in cache :: cache[endpoint] == Entry(routes, endpoint)
    }

    constructor ()
      ensures Valid() && routes == [] && globalFilters == [] && accepting && cfg == Config(true, true)
      ensures writes == [] && handed == [] && fallback == []
    {
      routes, globalFilters := [], [];
      cfg, accepting := Config(true, true), true;
      cache, dirty := map[], true;
      writes, handed, fallback := [], [], [];
    }

    method AddRoute(r: Route)
      requires Valid()
      modifies this`routes, this`dirty
      ensures Valid() && routes == old(routes) + [r]
    {
      routes := routes + [r];
      dirty := true;
    }

    method ClearRoutes()
      requires Valid()
      modifies this`routes, this`dirty
      ensures Valid() && routes == []
    {
      routes := [];
      dirty := true;
    }

    method AddGlobalFilter(f: Filter)
      requires Valid()
      modifies this`globalFilters
      ensures Valid() && globalFilters == old(globalFilters) + [f]
    {
      globalFilters := globalFilters + [f];
    }

    /** One route's part of compute_cache_entry_: the last filter of each built-in kind wins. */
    method SummariseRoute(filters: seq<Filter>, endpoint: string) returns (endpointOk: bool, minimum: nat)
      ensures endpointOk == LastEndpointPasses(filters, endpoint)
      ensures minimum == LastMinimum(filters)
    {
      endpointOk, minimum := true, TRACE;
      for k := 0 to |filters|
        invariant endpointOk == LastEndpointPasses(filters[..k], endpoint)
        invariant minimum == LastMinimum(filters[..k])
      {
        assert filters[..k + 1][..k] == filters[..k];
        match filters[k] {
          case SeverityFilter(m) => minimum := m;
          case EndpointFilter(allow, deny) => endpointOk := MatchEndpoint(allow, deny, endpoint);
          case _ =>
        }
      }
      assert filters[..|filters|] == filters;
    }

    method ComputeCacheEntry(endpoint: string) returns (entry: CacheEntry)
      ensures entry == Entry(routes, endpoint)
    {
      var mask: set<nat>, minPriority := {}, MAX_PRIORITY;
      var i := 0;
      while i < |routes| && i < ROUTE_LIMIT
        invariant 0 <= i <= Covered(routes)
        invariant CacheEntry(minPriority, mask) == Summary(routes, endpoint, i)
      {
        var endpointOk, minimum := SummariseRoute(routes[i].filters, endpoint);
        if endpointOk {
          mask := mask + {i};
          if minimum < minPriority {
            minPriority := minimum;
          }
        }
        i := i + 1;
      }
      entry := CacheEntry(minPriority, mask);
    }

    /** Whatever the cache holds, the answer is the entry of the current routes. */
    method CachedRouteMask(endpoint: string) returns (entry: CacheEntry)
      requires Valid()
      modifies this`cache, this`dirty
      ensures Valid() && !dirty
      ensures entry == Entry(routes, endpoint)
      ensures endpoint in cache && cache[endpoint] == entry
    {
      if dirty {
        dirty := false;
        cache := map[];
      }
      if endpoint in cache {
        return cache[endpoint];
      }
      entry := ComputeCacheEntry(endpoint);
      if endpoint !in cache {
        cache := cache[endpoint := entry];
      }
    }

    method CachedMinPriority(endpoint: string) returns (minimum: nat)
      requires Valid()
      modifies this`cache, this`dirty
      ensures Valid() && minimum == MinPriorityOf(Entry(routes, endpoint))
    {
      var entry := CachedRouteMask(endpoint);
      minimum := if entry.mask == {} then MAX_PRIORITY else entry.minPriority;
    }

    /** dispatch_sync_ with an entry's mask writes exactly what the routes would write if there
        were no mask at all. */
    method DispatchSync(e: Event, mask: set<nat>)
      modifies this`writes
      ensures writes == old(writes) + SyncWrites(routes, e, mask, Covered(routes))
    {
      var i := 0;
      while i < |routes| && i < ROUTE_LIMIT
        invariant 0 <= i <= Covered(routes)
        invariant writes == old(writes) + SyncWrites(routes, e, mask, i)
      {
        if i in mask {
          var ok := PassesAll(routes[i].filters, e);
          if ok {
            var buffer := "";
            match routes[i].renderer {
              case Some(render) => buffer := render(e);
              case None =>
                buffer := e.message;
                if buffer != "" && buffer[|buffer| - 1] != '\n' {
                  buffer := buffer + "\n";
                }
            }
            if routes[i].sink.Some? {
              writes := writes + [Write(routes[i].sink.value, buffer)];
            }
          }
        }
        i := i + 1;
      }
    }

    /** What submit does with an event, in terms of the routes alone: the cache shows in no
        clause.  Nothing is done for an event that no covered route's endpoint lets in, except
        the fallback from ERROR (500) up; a global filter may stop it.  Otherwise it is written
        on the caller's thread, exactly as without a mask, if the call asks for it, if it is
        FATAL (600) or more and the configuration writes those synchronously, or if nothing is
        asynchronous at present; and else it is handed to the crossbar, once, with the mask of
        the current routes, which contains every covered route that passes it. */
    method Submit(e: Event, forceSync: bool)
      requires Valid()
      modifies this`cache, this`dirty, this`writes, this`handed, this`fallback
      ensures Valid()
      ensures Entry(routes, e.endpoint).mask == {} ==>
                writes == old(writes) && handed == old(handed)
                && fallback == old(fallback) + if e.priority >= 500 then [e] else []
      ensures Entry(routes, e.endpoint).mask != {} ==> fallback == old(fallback)
      ensures Entry(routes, e.endpoint).mask != {} && !AllPass(globalFilters, e) ==>
                writes == old(writes) && handed == old(handed)
      ensures Entry(routes, e.endpoint).mask != {} && AllPass(globalFilters, e)
              && (forceSync || (cfg.fatalSync && e.priority >= 600) || !cfg.asyncByDefault || !accepting) ==>
                writes == old(writes) + UnmaskedWrites(routes, e, Covered(routes)) && handed == old(handed)
      ensures Entry(routes, e.endpoint).mask != {} && AllPass(globalFilters, e)
              && !forceSync && !(cfg.fatalSync && e.priority >= 600) && cfg.asyncByDefault && accepting ==>
                && writes == old(writes)
                && handed == old(handed) + [Handed(e, Entry(routes, e.endpoint).mask)]
                && (forall i | 0 <= i < |routes| && i < 64 && AllPass(routes[i].filters, e) ::
                      i in Entry(routes, e.endpoint).mask)
    {
      var entry := CachedRouteMask(e.endpoint);
      if entry.mask == {} {
        if e.priority >= ERROR {
          fallback := fallback + [e];
        }
        return;
      }
      var pass := PassesAll(globalFilters, e);
      if !pass {
        return;
      }
      var asyncMode := cfg.asyncByDefault && !forceSync && !(cfg.fatalSync && e.priority >= FATAL);
      if !asyncMode || !accepting {
        DispatchSync(e, entry.mask);
        MaskLosesNothing(routes, e);
        return;
      }
      handed := handed + [Handed(e, entry.mask)];
      forall i | 0 <= i < |routes| && i < 64 && AllPass(routes[i].filters, e) ensures i in entry.mask {
        MaskSound(routes, e, i);
      }
    }

    /** Logger::log_at: the gate, then submit.  From TRACE up the gate changes nothing: an event
        that some covered route passes (and no global filter stops) is written or handed
        over.  The stderr fallback is reached exactly when the gate opens on an empty mask,
        which `FallbackExactly` narrows down to the greatest priority, although the routing
        notes promise it for every ERROR event without a route. */
    method LogAt(e: Event, forceSync: bool)
      requires Valid()
      modifies this`cache, this`dirty, this`writes, this`handed, this`fallback
      ensures Valid()
      ensures 100 <= e.priority && Wanted(routes, e) && AllPass(globalFilters, e)
              && (forceSync || (cfg.fatalSync && e.priority >= 600) || !cfg.asyncByDefault || !accepting) ==>
                writes == old(writes) + UnmaskedWrites(routes, e, Covered(routes)) && handed == old(handed)
      ensures 100 <= e.priority && Wanted(routes, e) && AllPass(globalFilters, e)
              && !forceSync && !(cfg.fatalSync && e.priority >= 600) && cfg.asyncByDefault && accepting ==>
                && writes == old(writes)
                && handed == old(handed) + [Handed(e, Entry(routes, e.endpoint).mask)]
                && (forall i | 0 <= i < |routes| && i < 64 && AllPass(routes[i].filters, e) ::
                      i in Entry(routes, e.endpoint).mask)
      ensures !GateOpens(routes, e.endpoint, e.priority) ==>
                writes == old(writes) && handed == old(handed) && fallback == old(fallback)
      ensures fallback == old(fallback) + if FallsBack(routes, e) then [e] else []
    {
      var minimum := CachedMinPriority(e.endpoint);
      if e.priority < minimum {
        if 100 <= e.priority && Wanted(routes, e) {
          GateSound(routes, e);
        }
        return;
      }
      if Wanted(routes, e) {
        var i :| 0 <= i < Covered(routes) && AllPass(routes[i].filters, e);
        MaskSound(routes, e, i);
      }
      Submit(e, forceSync);
    }
  }
}
