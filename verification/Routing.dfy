/**
Filters, routes, and the summary of a route list that the endpoint cache keeps: which of
the first 64 routes may match an endpoint, and the least severity any of them lets through.
*/
module Routing {
  import opened Events
  import opened LaneProtocol

  const TRACE: nat := 100        // severity::trace::priority()
  const ERROR: nat := 500        // severity::error::priority()
  const FATAL: nat := 600        // severity::fatal::priority()
  const MAX_PRIORITY: nat := 65535

  datatype Filter =
    | NullFilter
    | SeverityFilter(minimum: nat)
    | EndpointFilter(allow: seq<string>, deny: seq<string>)
    | CustomFilter(test: Event -> bool)

  datatype Route = Route(
    sink: Option<nat>,                       // a sink object, by identity
    renderer: Option<Event -> string>,
    filters: seq<Filter>,
    delivery: Policy)

  datatype CacheEntry = CacheEntry(minPriority: nat, mask: set<nat>)

  /** One call of `ISink::write`. */
  datatype Write = Write(sink: nat, bytes: string)

  // ---------------------------------------------------------------- filters

  /** `starts with`, the meaning of an endpoint prefix; the empty prefix matches everything. */
  predicate MatchesPrefix(endpoint: string, prefix: string) {
    prefix <= endpoint
  }

  predicate EndpointPasses(allow: seq<string>, deny: seq<string>, endpoint: string) {
    && (forall d | d in deny :: !MatchesPrefix(endpoint, d))
    && (allow == [] || exists a | a in allow :: MatchesPrefix(endpoint, a))
  }

  predicate Passes(f: Filter, e: Event) {
    match f
    case NullFilter => true
    case SeverityFilter(minimum) => e.priority >= minimum
    case EndpointFilter(allow, deny) => EndpointPasses(allow, deny, e.endpoint)
    case CustomFilter(test) => test(e)
  }

  predicate AllPass(filters: seq<Filter>, e: Event) {
    forall k | 0 <= k < |filters| :: Passes(filters[k], e)
  }

  // ---------------------------------------------------------------- what a route writes

  function Rendered(r: Route, e: Event): string {
    match r.renderer
    case Some(render) => render(e)
    case None =>
      if e.message != "" && e.message[|e.message| - 1] != '\n' then e.message + "\n" else e.message
  }

  /** The writes one route makes for one event: none or one. */
  function RouteOutput(r: Route, e: Event): seq<Write> {
    if r.sink.Some? && AllPass(r.filters, e) then [Write(r.sink.value, Rendered(r, e))] else []
  }

  /** Dispatch considers all routes, but at most the first 64. */
  function Covered(routes: seq<Route>): (n: nat)
    ensures n <= |routes| && n <= 64 && (n == |routes| || n == 64)
  {
    if |routes| < ROUTE_LIMIT then |routes| else ROUTE_LIMIT
  }

  /** Synchronous dispatch of one event to routes 0..n, restricted to a mask. */
  function SyncWrites(routes: seq<Route>, e: Event, mask: set<nat>, n: nat): seq<Write>
    requires n <= |routes|
  {
    if n == 0 then []
    else SyncWrites(routes, e, mask, n - 1) + if n - 1 in mask then RouteOutput(routes[n - 1], e) else []
  }

  /** The reference: every one of the routes 0..n writes what its own filters let through. */
  function UnmaskedWrites(routes: seq<Route>, e: Event, n: nat): seq<Write>
    requires n <= |routes|
  {
    if n == 0 then [] else UnmaskedWrites(routes, e, n - 1) + RouteOutput(routes[n - 1], e)
  }

  // ---------------------------------------------------------------- the summary of a route list

  /** Endpoint filters: the last one alone decides. */
  predicate LastEndpointPasses(filters: seq<Filter>, endpoint: string) {
    if filters == [] then true
    else match filters[|filters| - 1]
         case EndpointFilter(allow, deny) => EndpointPasses(allow, deny, endpoint)
         case _ => LastEndpointPasses(filters[..|filters| - 1], endpoint)
  }

  /** Severity filters: the last one alone decides; without one the minimum is TRACE. */
  function LastMinimum(filters: seq<Filter>): nat {
    if filters == [] then TRACE
    else match filters[|filters| - 1]
         case SeverityFilter(minimum) => minimum
         case _ => LastMinimum(filters[..|filters| - 1])
  }

  /** The cache entry over the first n routes. */
  function Summary(routes: seq<Route>, endpoint: string, n: nat): CacheEntry
    requires n <= |routes|
  {
    if n == 0 then CacheEntry(MAX_PRIORITY, {})
    else
      var before, filters := Summary(routes, endpoint, n - 1), routes[n - 1].filters;
      if !LastEndpointPasses(filters, endpoint) then before
      else CacheEntry(if LastMinimum(filters) < before.minPriority then LastMinimum(filters) else before.minPriority,
                      before.mask + {n - 1})
  }

  function Entry(routes: seq<Route>, endpoint: string): CacheEntry {
    Summary(routes, endpoint, Covered(routes))
  }

  function MinPriorityOf(entry: CacheEntry): nat {
    if entry.mask == {} then MAX_PRIORITY else entry.minPriority
  }

  // ---------------------------------------------------------------- what filters, routes and masks mean

  /** The endpoint passes exactly if it begins with no denied prefix and, unless nothing at all is
      allowed explicitly, with an allowed one. */
  lemma EndpointDecides(allow: seq<string>, deny: seq<string>, endpoint: string)
    ensures EndpointPasses(allow, deny, endpoint) <==>
            && (forall d, x | d in deny :: endpoint != d + x)
            && (allow == [] || exists a, x :: a in allow && endpoint == a + x)
  {
    forall p: string ensures MatchesPrefix(endpoint, p) <==> exists x :: endpoint == p + x {
      if MatchesPrefix(endpoint, p) {
        assert endpoint == p + endpoint[|p|..];
      }
    }
  }

  /** Allowing p lets in every p + x, unless it is denied; denying p stops every p + x. */
  lemma PrefixDecides(p: string, x: string, allow: seq<string>, deny: seq<string>)
    ensures EndpointPasses([p], [], p + x) && EndpointPasses([], [], x)
    ensures p in deny ==> !EndpointPasses(allow, deny, p + x)
  {
    EndpointDecides([p], [], p + x);
    assert p in [p];
    EndpointDecides(allow, deny, p + x);
  }

  /** The reasons for which a filter stops an event. */
  ghost predicate Stops(f: Filter, e: Event) {
    || (f.SeverityFilter? && e.priority < f.minimum)
    || (f.EndpointFilter? && exists d, x :: d in f.deny && e.endpoint == d + x)
    || (f.EndpointFilter? && f.allow != [] && forall a, x | a in f.allow :: e.endpoint != a + x)
    || (f.CustomFilter? && !f.test(e))
  }

  /** What one route writes for one event: nothing without a sink or if some filter stops the
      event; otherwise one call of the sink, with what the renderer makes of the event, or
      without one with the message, ended by a newline unless it is empty or has one. */
  lemma RouteWrites(r: Route, e: Event)
    ensures r.sink.None? || (exists f | f in r.filters :: Stops(f, e)) ==> RouteOutput(r, e) == []
    ensures r.sink.Some? && (forall f | f in r.filters :: !Stops(f, e)) ==>
              && |RouteOutput(r, e)| == 1
              && var w := RouteOutput(r, e)[0];
              && w.sink == r.sink.value
              && (r.renderer.Some? ==> w.bytes == r.renderer.value(e))
              && (r.renderer.None? && e.message == "" ==> w.bytes == "")
              && (r.renderer.None? && e.message != "" && e.message[|e.message| - 1] == '\n' ==> w.bytes == e.message)
              && (r.renderer.None? && e.message != "" && e.message[|e.message| - 1] != '\n' ==>
                    w.bytes == e.message + "\n")
  {
    forall f | f in r.filters ensures Passes(f, e) <==> !Stops(f, e) {
      FilterDecides(f, e);
    }
    if f :| f in r.filters && Stops(f, e) {
      var k :| 0 <= k < |r.filters| && r.filters[k] == f;
      assert !AllPass(r.filters, e);
    }
  }

  lemma FilterDecides(f: Filter, e: Event)
    ensures Passes(f, e) <==> !Stops(f, e)
  {
    if f.EndpointFilter? {
      EndpointDecides(f.allow, f.deny, e.endpoint);
    }
  }

  lemma {:induction false} PrefixWrites(a: seq<Route>, b: seq<Route>, e: Event, n: nat)
    requires n <= |a|
    ensures UnmaskedWrites(a + b, e, n) == UnmaskedWrites(a, e, n)
  {
    if n > 0 {
      PrefixWrites(a, b, e, n - 1);
    }
  }

  /** Dispatch goes through the routes in their order. */
  lemma {:induction false} DispatchInOrder(a: seq<Route>, b: seq<Route>, e: Event, n: nat)
    requires n <= |b|
    ensures UnmaskedWrites(a + b, e, |a| + n) == UnmaskedWrites(a, e, |a|) + UnmaskedWrites(b, e, n)
    ensures b != [] ==> UnmaskedWrites(b, e, 1) == RouteOutput(b[0], e)
  {
    if n == 0 {
      PrefixWrites(a, b, e, |a|);
    } else {
      DispatchInOrder(a, b, e, n - 1);
    }
    assert b != [] ==> UnmaskedWrites(b, e, 0) == [];
  }

  /** Without a sink. */
  function Silenced(r: Route): Route {
    r.(sink := None)
  }

  /** A mask silences the routes outside it and changes nothing else. */
  lemma {:induction false} MaskSilences(routes: seq<Route>, e: Event, mask: set<nat>, n: nat)
    requires n <= |routes|
    ensures SyncWrites(routes, e, mask, n) ==
            UnmaskedWrites(seq(|routes|, i requires 0 <= i < |routes| =>
                                 if i in mask then routes[i] else Silenced(routes[i])), e, n)
  {
    if n > 0 {
      MaskSilences(routes, e, mask, n - 1);
    }
  }

  /** Of several severity filters the last one alone decides; without one the minimum is 100. */
  lemma {:induction false} LastMinimumDecides(filters: seq<Filter>, k: nat)
    requires k <= |filters| && forall j | k < j < |filters| :: !filters[j].SeverityFilter?
    ensures k < |filters| && filters[k].SeverityFilter? ==> LastMinimum(filters) == filters[k].minimum
    ensures (forall j | 0 <= j < |filters| :: !filters[j].SeverityFilter?) ==> LastMinimum(filters) == 100
  {
    if filters != [] && !filters[|filters| - 1].SeverityFilter? {
      LastMinimumDecides(filters[..|filters| - 1], if k < |filters| then k else k - 1);
    }
  }

  /** Of several endpoint filters the last one alone decides; without one every endpoint passes. */
  lemma {:induction false} LastEndpointDecides(filters: seq<Filter>, endpoint: string, k: nat)
    requires k <= |filters| && forall j | k < j < |filters| :: !filters[j].EndpointFilter?
    ensures k < |filters| && filters[k].EndpointFilter? ==>
              LastEndpointPasses(filters, endpoint) == EndpointPasses(filters[k].allow, filters[k].deny, endpoint)
    ensures (forall j | 0 <= j < |filters| :: !filters[j].EndpointFilter?) ==> LastEndpointPasses(filters, endpoint)
  {
    if filters != [] && !filters[|filters| - 1].EndpointFilter? {
      LastEndpointDecides(filters[..|filters| - 1], endpoint, if k < |filters| then k else k - 1);
    }
  }

  // ---------------------------------------------------------------- soundness of the summary

  lemma {:induction false} LastOnesPass(filters: seq<Filter>, e: Event)
    requires AllPass(filters, e) && e.priority >= TRACE
    ensures LastMinimum(filters) <= e.priority
  {
    if filters != [] {
      var last, rest := filters[|filters| - 1], filters[..|filters| - 1];
      assert Passes(last, e);
      LastOnesPass(rest, e);
    }
  }

  lemma {:induction false} LastEndpointSound(filters: seq<Filter>, e: Event)
    requires AllPass(filters, e)
    ensures LastEndpointPasses(filters, e.endpoint)
  {
    if filters != [] {
      assert Passes(filters[|filters| - 1], e);
      LastEndpointSound(filters[..|filters| - 1], e);
    }
  }

  /** The summary keeps exactly the routes whose last endpoint filter passes, and the least of
      their last severity minima. */
  lemma {:induction false} SummaryMeaning(routes: seq<Route>, endpoint: string, n: nat)
    requires n <= |routes|
    ensures var r := Summary(routes, endpoint, n);
            && (forall i :: i in r.mask <==> 0 <= i < n && LastEndpointPasses(routes[i].filters, endpoint))
            && r.minPriority <= MAX_PRIORITY
            && (forall i | i in r.mask :: r.minPriority <= LastMinimum(routes[i].filters))
            && (r.minPriority < MAX_PRIORITY ==>
                  exists i :: i in r.mask && LastMinimum(routes[i].filters) == r.minPriority)
  {
    if n > 0 {
      SummaryMeaning(routes, endpoint, n - 1);
      var before, r := Summary(routes, endpoint, n - 1), Summary(routes, endpoint, n);
      if r.minPriority < MAX_PRIORITY && r.minPriority == before.minPriority {
        var i :| i in before.mask && LastMinimum(routes[i].filters) == before.minPriority;
        assert i in r.mask;
      } else if r.minPriority < MAX_PRIORITY {
        assert n - 1 in r.mask;
      }
    }
  }

  /** Mask soundness: whatever custom filters a route carries and however many endpoint
      filters overwrite one another, a route below 64 that passes all its filters is in the
      mask. */
  lemma MaskSound(routes: seq<Route>, e: Event, i: nat)
    requires i < |routes| && i < 64 && AllPass(routes[i].filters, e)
    ensures i in Entry(routes, e.endpoint).mask
  {
    LastEndpointSound(routes[i].filters, e);
    SummaryMeaning(routes, e.endpoint, Covered(routes));
  }

  lemma {:induction false} MaskedIsUnmasked(routes: seq<Route>, e: Event, n: nat)
    requires n <= Covered(routes)
    ensures SyncWrites(routes, e, Entry(routes, e.endpoint).mask, n) == UnmaskedWrites(routes, e, n)
  {
    if n > 0 {
      MaskedIsUnmasked(routes, e, n - 1);
      if AllPass(routes[n - 1].filters, e) {
        MaskSound(routes, e, n - 1);
      }
    }
  }

  /** Masked dispatch writes exactly what dispatch without any mask would write to the first
      64 routes. */
  lemma MaskLosesNothing(routes: seq<Route>, e: Event)
    ensures SyncWrites(routes, e, Entry(routes, e.endpoint).mask, Covered(routes)) ==
            UnmaskedWrites(routes, e, Covered(routes))
  {
    MaskedIsUnmasked(routes, e, Covered(routes));
  }

  // ---------------------------------------------------------------- the early gate

  /** `Logger::enabled` against an entry that is up to date. */
  predicate GateOpens(routes: seq<Route>, endpoint: string, priority: nat) {
    priority >= MinPriorityOf(Entry(routes, endpoint))
  }

  /** Some route that dispatch considers passes the event. */
  ghost predicate Wanted(routes: seq<Route>, e: Event) {
    exists i | 0 <= i < Covered(routes) :: AllPass(routes[i].filters, e)
  }

  lemma GateSound(routes: seq<Route>, e: Event)
    requires e.priority >= 100 && Wanted(routes, e)
    ensures GateOpens(routes, e.endpoint, e.priority)
  {
    var i :| 0 <= i < Covered(routes) && AllPass(routes[i].filters, e);
    MaskSound(routes, e, i);
    LastOnesPass(routes[i].filters, e);
    SummaryMeaning(routes, e.endpoint, Covered(routes));
  }

  function OpenRoute(): Route {
    Route(Some(0), None, [], DropWhenFull)
  }

  function SomeEvent(priority: nat): Event {
    Event("", "CUSTOM", priority, "", "m", 0, "", 0, "", [])
  }

  /** The gate is safe for a severity exactly when its priority is at least 100, that of TRACE.  A route
      without a severity filter is summarised as minimum 100, while a custom severity keeps
      the default priority 0 unless it overrides it: such an event passes every filter of
      an unfiltered route and is still rejected by the gate. */
  lemma GateSafeFromTraceUp(priority: nat)
    ensures (forall routes: seq<Route>, e: Event | e.priority == priority && Wanted(routes, e) ::
               GateOpens(routes, e.endpoint, priority))
            <==> priority >= 100
  {
    if priority >= TRACE {
      forall routes: seq<Route>, e: Event | e.priority == priority && Wanted(routes, e)
        ensures GateOpens(routes, e.endpoint, priority)
      {
        GateSound(routes, e);
      }
    } else {
      var routes, e := [OpenRoute()], SomeEvent(priority);
      assert AllPass(routes[0].filters, e);
      assert Wanted(routes, e);
      SummaryMeaning(routes, "", 1);
      assert 0 in Entry(routes, "").mask;
      assert !GateOpens(routes, e.endpoint, priority);
    }
  }

  /** At most one severity filter, at most one endpoint filter, no filter of the user's own. */
  ghost predicate Plain(filters: seq<Filter>) {
    && (forall k | 0 <= k < |filters| :: !filters[k].CustomFilter?)
    && (forall j, k | 0 <= j < k < |filters| :: !(filters[j].SeverityFilter? && filters[k].SeverityFilter?))
    && (forall j, k | 0 <= j < k < |filters| :: !(filters[j].EndpointFilter? && filters[k].EndpointFilter?))
  }

  lemma PlainPasses(filters: seq<Filter>, e: Event)
    requires Plain(filters) && e.priority >= LastMinimum(filters) && LastEndpointPasses(filters, e.endpoint)
    ensures AllPass(filters, e)
  {
    forall k | 0 <= k < |filters| ensures Passes(filters[k], e) {
      if filters[k].SeverityFilter? {
        LastMinimumDecides(filters, k);
      } else if filters[k].EndpointFilter? {
        LastEndpointDecides(filters, e.endpoint, k);
      }
    }
  }

  /** For plain routes and every priority in [100, 65535) the gate is exact: it opens if and
      only if some route below 64 passes the event. */
  lemma GateExact(routes: seq<Route>, e: Event)
    requires 100 <= e.priority < 65535
    requires forall k | 0 <= k < |routes| :: Plain(routes[k].filters)
    ensures GateOpens(routes, e.endpoint, e.priority) <==> Wanted(routes, e)
  {
    if Wanted(routes, e) {
      GateSound(routes, e);
    }
    if GateOpens(routes, e.endpoint, e.priority) {
      var entry := Entry(routes, e.endpoint);
      SummaryMeaning(routes, e.endpoint, Covered(routes));
      var i :| i in entry.mask && LastMinimum(routes[i].filters) == entry.minPriority;
      PlainPasses(routes[i].filters, e);
    }
  }

  // ---------------------------------------------------------------- the emergency fallback

  /** A logger's event reaches the stderr fallback: the gate lets it in, no covered route's
      mask bit is set, and it is at least an ERROR. */
  predicate FallsBack(routes: seq<Route>, e: Event) {
    GateOpens(routes, e.endpoint, e.priority) && Entry(routes, e.endpoint).mask == {} && e.priority >= ERROR
  }

  /** The routing notes promise the fallback for every event from ERROR up that no route
      matches.  Through a logger it happens exactly if, besides, the last endpoint filter of
      every covered route rejects the endpoint and the priority is the greatest there is. */
  lemma FallbackExactly(routes: seq<Route>, e: Event)
    requires e.priority >= 500 && !Wanted(routes, e)
    ensures FallsBack(routes, e) <==>
            e.priority >= 65535
            && forall i | 0 <= i < Covered(routes) :: !LastEndpointPasses(routes[i].filters, e.endpoint)
  {
    SummaryMeaning(routes, e.endpoint, Covered(routes));
    var mask := Entry(routes, e.endpoint).mask;
    if forall i | 0 <= i < Covered(routes) :: !LastEndpointPasses(routes[i].filters, e.endpoint) {
      assert forall i :: i !in mask;
    } else {
      var i :| 0 <= i < Covered(routes) && LastEndpointPasses(routes[i].filters, e.endpoint);
      assert i in mask;
    }
  }

  /** Without any route an ERROR event is dropped at the gate; only priority 65535 gets out. */
  lemma ErrorIsDropped()
    ensures !Wanted([], SomeEvent(500)) && !FallsBack([], SomeEvent(500))
    ensures FallsBack([], SomeEvent(65535))
  {
    FallbackExactly([], SomeEvent(ERROR));
    FallbackExactly([], SomeEvent(MAX_PRIORITY));
  }
}
