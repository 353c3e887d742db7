/**
The endpoint cache under interleaving.  A lookup tests the dirty flag, refreshes, searches,
copies the routes to compute an entry, and inserts it later without looking at the flag
again; a route change can fall between any two of these.
*/
module CacheRace {
  import opened Events
  import opened LaneProtocol
  import opened Routing

  /** Where a thread is inside `cached_route_mask_`. */
  datatype Lookup =
    | Testing(endpoint: string)                      // about to load the dirty flag
    | Refreshing(endpoint: string)                   // saw it set, about to lock and exchange
    | Finding(endpoint: string)                      // about to search under the shared lock
    | Computing(endpoint: string)                    // missed, about to copy the routes
    | Inserting(endpoint: string, entry: CacheEntry) // computed, about to insert

  datatype State = State(
    routes: seq<Route>,
    dirty: bool,
    cache: map<string, CacheEntry>,
    lookups: map<Tid, Lookup>,
    past: seq<seq<Route>>)           // history: every route list so far, the current one last

  datatype Step =
    | ChangeRoutes(routes: seq<Route>)     // add_route or clear_routes, under state_m
    | Look(t: Tid, endpoint: string)
    | Test(t: Tid)
    | Refresh(t: Tid)
    | Find(t: Tid)
    | Compute(t: Tid)
    | Insert(t: Tid)

  function Initial(): State {
    State([], true, map[], map[], [[]])
  }

  predicate Can(s: State, a: Step) {
    match a
    case ChangeRoutes(_) => true
    case Look(t, _) => t !in s.lookups
    case Test(t) => t in s.lookups && s.lookups[t].Testing?
    case Refresh(t) => t in s.lookups && s.lookups[t].Refreshing?
    case Find(t) => t in s.lookups && s.lookups[t].Finding?
    case Compute(t) => t in s.lookups && s.lookups[t].Computing?
    case Insert(t) => t in s.lookups && s.lookups[t].Inserting?
  }

  function Do(s: State, a: Step): State
    requires Can(s, a)
  {
    match a
    case ChangeRoutes(routes) => s.(routes := routes, dirty := true, past := s.past + [routes])
    case Look(t, endpoint) => s.(lookups := s.lookups[t := Testing(endpoint)])
    case Test(t) =>
      var endpoint := s.lookups[t].endpoint;
      s.(lookups := s.lookups[t := if s.dirty then Refreshing(endpoint) else Finding(endpoint)])
    case Refresh(t) =>
      s.(lookups := s.lookups[t := Finding(s.lookups[t].endpoint)],
         dirty := false, cache := if s.dirty then map[] else s.cache)
    case Find(t) =>
      var endpoint := s.lookups[t].endpoint;
      if endpoint in s.cache then s.(lookups := s.lookups - {t})
      else s.(lookups := s.lookups[t := Computing(endpoint)])
    case Compute(t) =>
      var endpoint := s.lookups[t].endpoint;
      s.(lookups := s.lookups[t := Inserting(endpoint, Entry(s.routes, endpoint))])
    case Insert(t) =>
      // emplace keeps an entry that is already there
      var endpoint, entry := s.lookups[t].endpoint, s.lookups[t].entry;
      s.(lookups := s.lookups - {t},
         cache := if endpoint in s.cache then s.cache else s.cache[endpoint := entry])
  }

  ghost predicate ValidRun(s: State, run: seq<Step>)
    decreases run
  {
    run == [] || (Can(s, run[0]) && ValidRun(Do(s, run[0]), run[1..]))
  }

  ghost function Run(s: State, run: seq<Step>): State
    requires ValidRun(s, run)
    decreases run
  {
    if run == [] then s else Run(Do(s, run[0]), run[1..])
  }

  // ---------------------------------------------------------------- what always holds

  ghost predicate FromThePast(s: State, endpoint: string, entry: CacheEntry) {
    exists k :: 0 <= k < |s.past| && entry == Entry(s.past[k], endpoint)
  }

  ghost predicate Dated(s: State) {
    && s.past != [] && s.past[|s.past| - 1] == s.routes
    && (forall endpoint | endpoint in s.cache :: FromThePast(s, endpoint, s.cache[endpoint]))
    && (forall t | t in s.lookups && s.lookups[t].Inserting? ::
          FromThePast(s, s.lookups[t].endpoint, s.lookups[t].entry))
  }

  lemma PastGrows(s: State, a: Step, endpoint: string, entry: CacheEntry)
    requires Can(s, a) && FromThePast(s, endpoint, entry)
    ensures FromThePast(Do(s, a), endpoint, entry)
  {
    var k :| 0 <= k < |s.past| && entry == Entry(s.past[k], endpoint);
    assert Do(s, a).past[k] == s.past[k];
  }

  lemma StepKeepsDated(s: State, a: Step)
    requires Can(s, a) && Dated(s)
    ensures Dated(Do(s, a))
  {
    var s' := Do(s, a);
    if a.Compute? {
      assert s'.past[|s'.past| - 1] == s'.routes;
      assert FromThePast(s', s.lookups[a.t].endpoint, Entry(s.routes, s.lookups[a.t].endpoint));
    }
    forall endpoint | endpoint in s.cache ensures FromThePast(s', endpoint, s.cache[endpoint]) {
      PastGrows(s, a, endpoint, s.cache[endpoint]);
    }
    forall t | t in s.lookups && s.lookups[t].Inserting?
      ensures FromThePast(s', s.lookups[t].endpoint, s.lookups[t].entry)
    {
      PastGrows(s, a, s.lookups[t].endpoint, s.lookups[t].entry);
    }
  }

  lemma {:induction false} RunKeepsDated(s: State, run: seq<Step>)
    requires Dated(s) && ValidRun(s, run)
    ensures Dated(Run(s, run))
    decreases run
  {
    if run != [] {
      StepKeepsDated(s, run[0]);
      RunKeepsDated(Do(s, run[0]), run[1..]);
    }
  }

  /** Over every interleaving of lookups and route changes, each cached entry is the right one
      for some route list that was current at or before the entry's insertion. */
  lemma EntriesComeFromThePast(run: seq<Step>, endpoint: string)
    requires ValidRun(Initial(), run) && endpoint in Run(Initial(), run).cache
    ensures FromThePast(Run(Initial(), run), endpoint, Run(Initial(), run).cache[endpoint])
  {
    RunKeepsDated(Initial(), run);
  }

  // ---------------------------------------------------------------- when the cache is coherent

  /** While the dirty flag is false, every entry is the one that the current routes give. */
  ghost predicate Coherent(s: State) {
    !s.dirty ==> forall endpoint | endpoint in s.cache :: s.cache[endpoint] == Entry(s.routes, endpoint)
  }

  /** Every computed but not yet inserted entry is right for this route list. */
  ghost predicate HeldFits(s: State, routes: seq<Route>) {
    forall t | t in s.lookups && s.lookups[t].Inserting? ::
      s.lookups[t].entry == Entry(routes, s.lookups[t].endpoint)
  }

  ghost predicate NoChange(run: seq<Step>) {
    forall k | 0 <= k < |run| :: !run[k].ChangeRoutes?
  }

  lemma StepKeepsCoherent(s: State, a: Step)
    requires Can(s, a) && Coherent(s) && HeldFits(s, s.routes) && !a.ChangeRoutes?
    ensures Coherent(Do(s, a)) && HeldFits(Do(s, a), Do(s, a).routes) && Do(s, a).routes == s.routes
  {
  }

  lemma {:induction false} RunKeepsCoherent(s: State, run: seq<Step>)
    requires ValidRun(s, run) && Coherent(s) && HeldFits(s, s.routes) && NoChange(run)
    ensures Coherent(Run(s, run))
    decreases run
  {
    if run != [] {
      StepKeepsCoherent(s, run[0]);
      assert forall k | 0 <= k < |run[1..]| :: run[1..][k] == run[k + 1];
      RunKeepsCoherent(Do(s, run[0]), run[1..]);
    }
  }

  /** A held entry that does not fit: another lookup clears the dirty flag, then it goes in. */
  lemma StaleInsert(s: State, t: Tid, u: Tid) returns (run: seq<Step>)
    requires s.dirty && t in s.lookups && s.lookups[t].Inserting? && u !in s.lookups
    requires s.lookups[t].entry != Entry(s.routes, s.lookups[t].endpoint)
    ensures NoChange(run) && ValidRun(s, run) && !Coherent(Run(s, run))
    ensures var s' := Run(s, run);
            !s'.dirty && s'.routes == s.routes && s'.cache == map[s.lookups[t].endpoint := s.lookups[t].entry]
  {
    var endpoint := s.lookups[t].endpoint;
    run := [Look(u, endpoint), Test(u), Refresh(u), Insert(t)];
    var s1 := Do(s, run[0]);
    var s2 := Do(s1, run[1]);
    var s3 := Do(s2, run[2]);
    var s4 := Do(s3, run[3]);
    assert run[1..] == [Test(u), Refresh(u), Insert(t)];
    assert run[1..][1..] == [Refresh(u), Insert(t)];
    assert run[1..][1..][1..] == [Insert(t)];
    assert run[1..][1..][1..][1..] == [];
    assert s4.cache == map[endpoint := s.lookups[t].entry] && !s4.dirty;
    assert Run(s3, [Insert(t)]) == s4 by {
      assert [Insert(t)][1..] == [];
    }
    assert Run(s2, run[1..][1..]) == s4;
    assert Run(s1, run[1..]) == s4;
  }

  /** Exactly when a route change is safe.  Take a coherent state and change the routes: every
      continuation leaves the cache coherent if and only if each entry that some lookup has
      computed and not yet inserted is also right for the new routes.  Otherwise the stale
      entry can go in after the flag has been cleared, and stay until the next change; so
      under concurrent route changes the cache is more than an optimization. */
  lemma ChangeIsSafeExactly(s: State, routes: seq<Route>)
    requires Coherent(s) && HeldFits(s, s.routes)
    ensures (forall run | ValidRun(Do(s, ChangeRoutes(routes)), run) && NoChange(run) ::
               Coherent(Run(Do(s, ChangeRoutes(routes)), run)))
            <==> HeldFits(s, routes)
  {
    var s' := Do(s, ChangeRoutes(routes));
    if HeldFits(s, routes) {
      forall run | ValidRun(s', run) && NoChange(run) ensures Coherent(Run(s', run)) {
        RunKeepsCoherent(s', run);
      }
    } else {
      var t :| t in s.lookups && s.lookups[t].Inserting? && s.lookups[t].entry != Entry(routes, s.lookups[t].endpoint);
      var u := UnusedTid(s'.lookups.Keys);
      var run := StaleInsert(s', t, u);
    }
  }

  /** The loss that follows: with no routes yet, a lookup computes the empty mask; the first
      route is added; the lookup inserts.  The cache now says, with the flag clear, that no
      route wants the endpoint, while the route passes every event. */
  lemma StaleEntryHidesRoute(e: Event)
    ensures exists run ::
              && ValidRun(Initial(), run) && !Run(Initial(), run).dirty
              && var s := Run(Initial(), run);
                 e.endpoint in s.cache && s.cache[e.endpoint].mask == {} && Wanted(s.routes, e)
  {
    var route, p := OpenRoute(), e.endpoint;
    var first := FirstLookup(p);
    var s1 := Do(Run(Initial(), first), ChangeRoutes([route]));
    WantsEverything(e);
    assert Entry([route], p) != Entry([], p) by {
      MaskSound([route], e, 0);
    }
    var second := StaleInsert(s1, 0, 1);
    Prepend(Run(Initial(), first), ChangeRoutes([route]), second);
    Concat(Initial(), first, [ChangeRoutes([route])] + second);
  }

  lemma WantsEverything(e: Event)
    ensures AllPass(OpenRoute().filters, e) && Wanted([OpenRoute()], e)
  {
    assert 0 < Covered([OpenRoute()]) && AllPass([OpenRoute()][0].filters, e);
  }

  /** A first lookup, up to the point where it has computed its entry from no routes at all. */
  lemma FirstLookup(p: string) returns (run: seq<Step>)
    ensures ValidRun(Initial(), run)
    ensures Run(Initial(), run) == State([], false, map[], map[0 := Inserting(p, Entry([], p))], [[]])
  {
    run := [Look(0, p), Test(0), Refresh(0), Find(0), Compute(0)];
    var s1 := Do(Initial(), Look(0, p));
    var s2 := Do(s1, Test(0));
    var s3 := Do(s2, Refresh(0));
    var s4 := Do(s3, Find(0));
    var s5 := Do(s4, Compute(0));
    Prepend(s4, Compute(0), []);
    Prepend(s3, Find(0), [Compute(0)]);
    Prepend(s2, Refresh(0), [Find(0), Compute(0)]);
    Prepend(s1, Test(0), [Refresh(0), Find(0), Compute(0)]);
    Prepend(Initial(), Look(0, p), [Test(0), Refresh(0), Find(0), Compute(0)]);
  }

  lemma Prepend(s: State, a: Step, rest: seq<Step>)
    requires Can(s, a) && ValidRun(Do(s, a), rest)
    ensures ValidRun(s, [a] + rest) && Run(s, [a] + rest) == Run(Do(s, a), rest)
  {
    assert ([a] + rest)[1..] == rest;
  }

  lemma {:induction false} Concat(s: State, a: seq<Step>, b: seq<Step>)
    requires ValidRun(s, a) && ValidRun(Run(s, a), b)
    ensures ValidRun(s, a + b) && Run(s, a + b) == Run(Run(s, a), b)
    decreases a
  {
    if a == [] {
      assert a + b == b;
    } else {
      Concat(Do(s, a[0]), a[1..], b);
      assert (a + b)[1..] == a[1..] + b;
    }
  }
}
