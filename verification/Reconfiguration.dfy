/**
What the lifecycle calls leave behind: which routes the lanes carry, in which order, and how
many events each queue holds.  A call that stops the lanes ends with the section that has
joined their workers; whatever producers and workers do until then is part of the statements.
*/
module Reconfiguration {
  import opened Events
  import opened LaneProtocol
  import opened Routing
  import opened Crossbar
  import opened CrossbarInvariant
  import opened CrossbarTheorems

  /** The current lanes carry just these routes, lane k route k, and each queue has room for
      `capacity` events, but at least for one. */
  ghost predicate Carries(s: State, routes: seq<Route>, capacity: nat) {
    && s.gens != [] && |s.gens[Last(s)].routes| == |s.gens[Last(s)].lanes| == |routes|
    && forall k: nat | HasLane(s, Last(s), k) ::
         && s.gens[Last(s)].routes[k] == routes[k]
         && LaneAt(s, Last(s), k).policy == routes[k].delivery
         && LaneAt(s, Last(s), k).capacity == if capacity >= 1 then capacity else 1
  }

  lemma RebuildCarries(s: State, a: LifecycleAction)
    requires CanCall(s, a) && Rebuilds(s, a)
    ensures var s' := DoCall(s, a); Carries(s', s'.life.routes, s'.life.capacity)
  {
    var s' := DoCall(s, a);
    CallGrows(s, a);
    var made := MakeGeneration(s'.life, s'.gens[Last(s')].gate);
    assert s'.gens[Last(s')] == made;
    forall k: nat | HasLane(s', Last(s'), k)
      ensures LaneAt(s', Last(s'), k).policy == s'.life.routes[k].delivery
      ensures LaneAt(s', Last(s'), k).capacity == if s'.life.capacity >= 1 then s'.life.capacity else 1
    {
      MadeShape(s'.life, s'.life.routes[k].delivery);
    }
  }

  lemma MadeShape(f: Lifecycle, policy: Policy)
    ensures MakeLane(f, policy).policy == policy
    ensures MakeLane(f, policy).capacity == if f.capacity >= 1 then f.capacity else 1
  {
    StepKeepsShape(NewLane(f.capacity, policy), WorkerStarts);
  }

  /** A rebuild that makes a new crossbar begins a new session: its lanes are open to producers as
      soon as `accepting` is true, whatever it was before.  add_route, clear_routes and the
      restart after them put their lanes into the crossbar that was there. */
  lemma SessionOfRebuild(s: State, a: LifecycleAction)
    requires CanCall(s, a) && Rebuilds(s, a)
    ensures var made, was := DoCall(s, a).gens[Last(DoCall(s, a))], s.gens[Last(s)];
            if a.ConfigureCall? || (a.FinishStop? && s.life.control.goal.Recreate?)
            then (made.gate.Open? <==> s.life.accepting) && (made.gate.Unopened? <==> !s.life.accepting)
            else made.gate == was.gate
  {
    CallGrows(s, a);
  }

  // ---------------------------------------------------------------- calls on an idle crossbar

  /** On an idle crossbar: add_route puts the new route behind all others, so that lane k keeps
      the route whose mask bit is k; clear_routes leaves no lane; configure makes lanes of the
      new capacity for the same routes.  No worker is started. */
  lemma IdleReconfiguration(s: State, route: Route, capacity: nat)
    requires Reachable(s) && s.life.control.Quiet? && !s.life.running
    ensures s.gens != [] && CanCall(s, AddRouteCall(route)) && CanCall(s, ClearRoutesCall)
    ensures CanCall(s, ConfigureCall(capacity))
    ensures Carries(DoCall(s, AddRouteCall(route)), s.gens[Last(s)].routes + [route], s.life.capacity)
    ensures Carries(DoCall(s, ClearRoutesCall), [], s.life.capacity)
    ensures Carries(DoCall(s, ConfigureCall(capacity)), s.gens[Last(s)].routes, capacity)
    ensures forall a | a in [AddRouteCall(route), ClearRoutesCall, ConfigureCall(capacity)] ::
              DoCall(s, a).life.control.Quiet? && !DoCall(s, a).life.running
  {
    ReachableInv(s);
    RebuildCarries(s, AddRouteCall(route));
    RebuildCarries(s, ClearRoutesCall);
    RebuildCarries(s, ConfigureCall(capacity));
  }

  // ---------------------------------------------------------------- calls that stop the lanes

  /** The stop in progress has not ended. */
  ghost predicate Unfinished(run: seq<Action>) {
    forall k | 0 <= k < |run| :: run[k] != Manage(FinishStop)
  }

  /** The same stop, further on: it has lost nothing of what it was asked to do. */
  ghost predicate SameStop(s: State, s': State) {
    && s.life.control.Stopping? && s'.life.control.Stopping?
    && s'.life.control.drain == s.life.control.drain && s'.life.control.goal == s.life.control.goal
    && s'.life.routes == s.life.routes && s'.life.capacity == s.life.capacity
  }

  lemma StopSection(s: State, a: Action)
    requires s.gens != [] && Can(s, a) && s.life.control.Stopping? && a != Manage(FinishStop)
    ensures SameStop(s, Do(s, a))
  {
  }

  lemma {:induction false} StopGoesOn(s: State, run: seq<Action>)
    requires ValidActions(s, run) && s.life.control.Stopping? && Unfinished(run)
    ensures SameStop(s, After(s, run))
    decreases run
  {
    if run != [] {
      StopSection(s, run[0]);
      assert forall k | 0 <= k < |run[1..]| :: run[1..][k] == run[k + 1];
      StopGoesOn(Do(s, run[0]), run[1..]);
    }
  }

  /** Each lane that had a worker has processed all it ever accepted. */
  ghost predicate AllProcessed(s: State)
    requires s.gens != []
  {
    forall i: nat | HasLane(s, Last(s), i) && LaneAt(s, Last(s), i).worker.Exited? ::
      LaneAt(s, Last(s), i).processed == AcceptedOf(LaneAt(s, Last(s), i).resolved)
  }

  /** A call that stops the lanes, from its first section to its last, whatever happens in
      between.  On a running crossbar add_route ends with the new route behind all others and
      clear_routes without any, and the crossbar runs again; close and request_stop end with an
      idle crossbar for the same routes.  Only request_stop is a forced stop; after any other
      each lane that had a worker has processed all it ever accepted. */
  lemma StoppingReconfiguration(s: State, a: LifecycleAction, run: seq<Action>)
    requires Reachable(s) && CanCall(s, a) && s.life.control.Quiet?
    requires a.StopCall? || (s.life.running && (a.AddRouteCall? || a.ClearRoutesCall?))
    requires ValidActions(DoCall(s, a), run) && Unfinished(run) && CanCall(After(DoCall(s, a), run), FinishStop)
    ensures var stopped, routes := After(DoCall(s, a), run), s.gens[Last(s)].routes;
            var s' := DoCall(stopped, FinishStop);
            && s'.life.control.Quiet? && (s'.life.running <==> !a.StopCall?)
            && (a.AddRouteCall? ==> Carries(s', routes + [a.route], s.life.capacity))
            && (a.ClearRoutesCall? ==> Carries(s', [], s.life.capacity))
            && (a.StopCall? ==> Carries(s', routes, s.life.capacity))
            && (HasSpare(s', Last(stopped)) <==> a == StopCall(false))
            && (a != StopCall(false) ==> AllProcessed(stopped))
  {
    ReachableInv(s);
    var begun := DoCall(s, a);
    var stopped := After(begun, run);
    StopGoesOn(begun, run);
    ReachesOne(s, Manage(a));
    StaysReachable(begun, run);
    RebuildCarries(stopped, FinishStop);
    ReachableInv(stopped);
    StopEnds(stopped);
    SpareExactly(stopped);
    forall i: nat | HasLane(stopped, Last(stopped), i)
      ensures LaneAt(stopped, Last(stopped), i).worker.Exited? && stopped.life.control.drain ==>
                LaneAt(stopped, Last(stopped), i).processed == AcceptedOf(LaneAt(stopped, Last(stopped), i).resolved)
    {
      StopOutcome(stopped, i);
    }
  }

  lemma SpareExactly(s: State)
    requires CanCall(s, FinishStop)
    ensures HasSpare(DoCall(s, FinishStop), Last(s)) <==> !s.life.control.drain
  {
  }

  // ---------------------------------------------------------------- capacities

  ghost predicate NoConfigure(run: seq<Action>) {
    forall k | 0 <= k < |run| :: run[k].Manage? ==> !run[k].call.ConfigureCall?
  }

  lemma CapacityStep(s: State, a: Action)
    requires s.gens != [] && Can(s, a) && (a.Manage? ==> !a.call.ConfigureCall?)
    ensures Do(s, a).life.capacity == s.life.capacity
  {
  }

  lemma {:induction false} CapacityStays(s: State, run: seq<Action>)
    requires ValidActions(s, run) && NoConfigure(run)
    ensures After(s, run).life.capacity == s.life.capacity
    decreases run
  {
    if run != [] {
      CapacityStep(s, run[0]);
      assert forall k | 0 <= k < |run[1..]| :: run[1..][k] == run[k + 1];
      CapacityStays(Do(s, run[0]), run[1..]);
    }
  }

  /** The lanes of a rebuild have room for as many events as the configuration said at that
      moment, but at least for one, and keep it in every continuation. */
  lemma RebuiltLanesHold(s: State, a: LifecycleAction, later: seq<Action>, i: nat)
    requires CanCall(s, a) && Rebuilds(s, a) && ValidActions(DoCall(s, a), later)
    requires HasLane(DoCall(s, a), Last(DoCall(s, a)), i)
    ensures var g, c := Last(DoCall(s, a)), if a.ConfigureCall? then a.newCapacity else s.life.capacity;
            && HasLane(After(DoCall(s, a), later), g, i)
            && LaneAt(After(DoCall(s, a), later), g, i).capacity == if c >= 1 then c else 1
  {
    var s' := DoCall(s, a);
    RebuildCarries(s, a);
    LaneIsolation(s', later, Last(s'), i);
    RunKeepsShape(LaneAt(s', Last(s'), i), LaneRun(s', later, Last(s'), i));
  }

  /** The capacity that configure is given, on an idle or a running crossbar, is the capacity of
      all lanes that are made before the next configure. */
  lemma ConfiguredCapacity(s: State, capacity: nat, run: seq<Action>, a: LifecycleAction, later: seq<Action>, i: nat)
    requires CanCall(s, ConfigureCall(capacity))
    requires ValidActions(DoCall(s, ConfigureCall(capacity)), run) && NoConfigure(run) && !a.ConfigureCall?
    requires var now := After(DoCall(s, ConfigureCall(capacity)), run);
             && CanCall(now, a) && Rebuilds(now, a) && ValidActions(DoCall(now, a), later)
             && HasLane(DoCall(now, a), Last(DoCall(now, a)), i)
    ensures var now := After(DoCall(s, ConfigureCall(capacity)), run);
            var g := Last(DoCall(now, a));
            && HasLane(After(DoCall(now, a), later), g, i)
            && LaneAt(After(DoCall(now, a), later), g, i).capacity == if capacity >= 1 then capacity else 1
  {
    var now := After(DoCall(s, ConfigureCall(capacity)), run);
    CapacityStays(DoCall(s, ConfigureCall(capacity)), run);
    RebuiltLanesHold(now, a, later, i);
  }
}
