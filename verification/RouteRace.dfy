/**
Overlapping route changes.  A call of add_route, clear_routes, close, request_stop or
configure takes its copy of the route list under one lock and gives it to the crossbar later
under another; a second call can do both in between, and then the older list wins.
*/
module RouteRace {
  import opened Events
  import opened LaneProtocol
  import opened Routing

  /** What a call does to the pipeline's list when it takes its copy. */
  datatype Change =
    | Add(route: Route)     // add_route
    | Clear                 // clear_routes
    | Keep                  // close, request_stop, configure

  datatype State = State(
    routes: seq<Route>,                  // Pipeline::Impl::routes
    carried: seq<Route>,                 // the routes of the crossbar's lanes
    copies: map<Tid, seq<Route>>)        // calls between the two locks, with their copies

  datatype Step =
    | Copy(t: Tid, change: Change)       // under state_m
    | Configure(t: Tid)                  // under worker_m

  function Changed(routes: seq<Route>, change: Change): seq<Route> {
    match change
    case Add(route) => routes + [route]
    case Clear => []
    case Keep => routes
  }

  function Initial(): State {
    State([], [], map[])
  }

  predicate Can(s: State, a: Step) {
    match a
    case Copy(t, _) => t !in s.copies
    case Configure(t) => t in s.copies
  }

  function Do(s: State, a: Step): State
    requires Can(s, a)
  {
    match a
    case Copy(t, change) =>
      var routes := Changed(s.routes, change);
      s.(routes := routes, copies := s.copies[t := routes])
    case Configure(t) => s.(carried := s.copies[t], copies := s.copies - {t})
  }

  ghost predicate ValidRun(s: State, run: seq<Step>)
    decreases |run|
  {
    run == [] || (Can(s, run[0]) && ValidRun(Do(s, run[0]), run[1..]))
  }

  ghost function Run(s: State, run: seq<Step>): State
    requires ValidRun(s, run)
    decreases |run|
  {
    if run == [] then s else Run(Do(s, run[0]), run[1..])
  }

  /** Lane i carries route i. */
  ghost predicate Agrees(s: State) {
    |s.carried| == |s.routes| && forall i | 0 <= i < |s.routes| :: s.carried[i] == s.routes[i]
  }

  ghost predicate Finished(s: State) {
    forall t :: t !in s.copies
  }

  // ---------------------------------------------------------------- one call at a time

  /** No call takes its copy while another is between the locks. */
  ghost predicate Serial(s: State, run: seq<Step>)
    requires ValidRun(s, run)
    decreases |run|
  {
    run == [] || ((run[0].Copy? ==> Finished(s)) && Serial(Do(s, run[0]), run[1..]))
  }

  ghost predicate CopiesAreCurrent(s: State) {
    forall t | t in s.copies :: s.copies[t] == s.routes
  }

  /** At most one call is between the locks, with the current list; without any the crossbar
      has the current list. */
  ghost predicate InOrder(s: State) {
    && CopiesAreCurrent(s)
    && (forall t, u | t in s.copies && u in s.copies :: t == u)
    && (Finished(s) ==> Agrees(s))
  }

  lemma {:induction false} SerialKeepsOrder(s: State, run: seq<Step>)
    requires ValidRun(s, run) && Serial(s, run) && InOrder(s)
    ensures InOrder(Run(s, run))
    decreases |run|
  {
    if run != [] {
      SerialKeepsOrder(Do(s, run[0]), run[1..]);
    }
  }

  /** Calls that do not overlap leave lane i with route i whenever none is in progress. */
  lemma SerialCallsAgree(run: seq<Step>)
    requires ValidRun(Initial(), run) && Serial(Initial(), run) && Finished(Run(Initial(), run))
    ensures Agrees(Run(Initial(), run))
  {
    SerialKeepsOrder(Initial(), run);
  }

  // ---------------------------------------------------------------- overlapping calls

  /** The calls in progress finish, and no new one begins. */
  ghost predicate Finishes(s: State, run: seq<Step>) {
    ValidRun(s, run) && (forall k | 0 <= k < |run| :: run[k].Configure?) && Finished(Run(s, run))
  }

  lemma {:induction false} CurrentCopiesAgree(s: State, run: seq<Step>)
    requires Finishes(s, run) && CopiesAreCurrent(s) && (Agrees(s) || !Finished(s))
    ensures Agrees(Run(s, run))
    decreases |run|
  {
    if run != [] {
      assert forall k | 0 <= k < |run[1..]| :: run[1..][k] == run[k + 1];
      CurrentCopiesAgree(Do(s, run[0]), run[1..]);
    }
  }

  /** The calls can finish in such an order that thread t's copy is the one that stays. */
  lemma {:induction false} FinishesLast(s: State, t: Tid) returns (run: seq<Step>)
    requires t in s.copies
    ensures Finishes(s, run) && Run(s, run).carried == s.copies[t] && Run(s, run).routes == s.routes
    decreases s.copies.Keys
  {
    var u := if others: Tid :| others in s.copies && others != t then others else t;
    var rest := [];
    if u != t {
      rest := FinishesLast(Do(s, Configure(u)), t);
    }
    run := [Configure(u)] + rest;
    assert run[1..] == rest;
  }

  lemma SameListsAgree(s: State)
    ensures Agrees(s) <==> s.carried == s.routes
  {
  }

  /** Exactly which overlaps are harmless: with calls in progress, every order in which they can
      finish leaves lane i with route i if and only if each of their copies is the current
      list. */
  lemma OverlapIsSafeExactly(s: State)
    requires !Finished(s)
    ensures (forall run | Finishes(s, run) :: Agrees(Run(s, run))) <==> CopiesAreCurrent(s)
  {
    if CopiesAreCurrent(s) {
      forall run | Finishes(s, run) ensures Agrees(Run(s, run)) {
        CurrentCopiesAgree(s, run);
      }
    } else {
      var t :| t in s.copies && s.copies[t] != s.routes;
      var run := FinishesLast(s, t);
      SameListsAgree(Run(s, run));
    }
  }

  /** What a caller can check before the call: it is safe to begin a change if and only if each
      call in progress has already copied the list that the change makes; in particular when
      none is in progress. */
  lemma BeginIsSafeExactly(s: State, t: Tid, change: Change)
    requires t !in s.copies
    ensures (forall run | Finishes(Do(s, Copy(t, change)), run) :: Agrees(Run(Do(s, Copy(t, change)), run)))
            <==> (forall u | u in s.copies :: s.copies[u] == Changed(s.routes, change))
  {
    var s' := Do(s, Copy(t, change));
    assert t in s'.copies;
    OverlapIsSafeExactly(s');
    assert forall u | u in s.copies :: s'.copies[u] == s.copies[u];
  }

  /** Once the calls have finished in disagreement nothing but a further call changes it, and a
      further call that overlaps with none repairs it: the lanes then carry the pipeline's
      list, with a new route at the end, emptied, or as it was. */
  lemma OnlyANewCallRepairs(s: State, t: Tid, change: Change)
    requires Finished(s)
    ensures forall a: Step | Can(s, a) :: a.Copy?
    ensures Can(s, Copy(t, change)) && Can(Do(s, Copy(t, change)), Configure(t))
    ensures var s' := Do(Do(s, Copy(t, change)), Configure(t));
            && Finished(s') && Agrees(s')
            && match change
               case Add(route) => s'.carried == s.routes + [route]
               case Clear => s'.carried == []
               case Keep => s'.carried == s.routes
  {
  }

  /** The smallest case: two calls of add_route, and the first one's shorter list stays.  The
      second route's bit is in the mask of every event it passes, but no lane carries it. */
  lemma OlderListWins(first: Route, second: Route) returns (run: seq<Step>)
    ensures ValidRun(Initial(), run) && Finished(Run(Initial(), run))
    ensures var s := Run(Initial(), run);
            && s.routes == [first, second] && s.carried == [first]
            && forall e: Event | AllPass(second.filters, e) :: 1 in Entry(s.routes, e.endpoint).mask
  {
    var s1 := Do(Initial(), Copy(0, Add(first)));
    var s2 := Do(s1, Copy(1, Add(second)));
    var s3 := Do(s2, Configure(1));
    run := [Copy(0, Add(first)), Copy(1, Add(second)), Configure(1), Configure(0)];
    assert run[1..] == [Copy(1, Add(second)), Configure(1), Configure(0)];
    assert run[1..][1..] == [Configure(1), Configure(0)];
    assert run[1..][1..][1..] == [Configure(0)] && [Configure(0)][1..] == [];
    assert Run(s3, [Configure(0)]) == Do(s3, Configure(0));
    assert Run(s2, [Configure(1), Configure(0)]) == Do(s3, Configure(0));
    assert Run(Initial(), run) == Do(s3, Configure(0));
    forall e: Event | AllPass(second.filters, e) ensures 1 in Entry([first, second], e.endpoint).mask {
      MaskSound([first, second], e, 1);
    }
  }
}
