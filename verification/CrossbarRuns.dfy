/**
Two runs of the crossbar, from the beginning: a producer that a live reconfiguration refuses,
and a producer under which a forced stop replaces the queue.
*/
module CrossbarRuns {
  import opened Events
  import opened LaneProtocol
  import opened Routing
  import opened Crossbar
  import opened CrossbarInvariant
  import opened CrossbarTheorems

  /** Some run leads from s to s' that never sets `accepting` to false. */
  ghost predicate LeadsOn(s: State, s': State) {
    exists run: seq<Action> :: ValidActions(s, run) && After(s, run) == s' && NeverUnaccepting(run)
  }

  lemma LeadsOnSelf(s: State)
    ensures LeadsOn(s, s)
  {
    assert ValidActions(s, []) && After(s, []) == s && NeverUnaccepting([]);
  }

  lemma LeadsOnMore(s: State, s': State, a: Action)
    requires LeadsOn(s, s') && s'.gens != [] && Can(s', a) && a != Manage(SetAccepting(false))
    ensures LeadsOn(s, Do(s', a))
  {
    var run: seq<Action> :| ValidActions(s, run) && After(s, run) == s' && NeverUnaccepting(run);
    AfterAppends(s, run, a);
    assert NeverUnaccepting(run + [a]);
  }

  lemma LeadsOnLeads(s: State, s': State)
    requires LeadsOn(s, s')
    ensures Leads(s, s')
  {
  }

  // ---------------------------------------------------------------- one route, one producer

  /** A pipeline after its first add_route: lane l, and thread t somewhere in its submission. */
  function WithOne(r: Route, l: Lane, life: Lifecycle, th: map<Tid, Submission>, calls: seq<Call>): State {
    State([Generation([], [], Open, false), Generation([r], [l], Open, false)], life, Traffic(th, calls, []))
  }

  function Running(routes: seq<Route>, capacity: nat): Lifecycle {
    Lifecycle(routes, capacity, true, true, true, Quiet)
  }

  function Going(e: Event, inside: bool): Submission {
    Submission(e, {0}, 1, 0, inside, 1)
  }

  /** A pipeline with one route is started. */
  lemma Started(capacity: nat, r: Route) returns (s: State)
    ensures s == WithOne(r, Apply(NewLane(capacity, r.delivery), WorkerStarts), Running([r], capacity), map[], [])
    ensures LeadsOn(Initial(capacity), s)
  {
    var s0 := Initial(capacity);
    var s1, idle := Do(s0, Manage(AddRouteCall(r))), Lifecycle([r], capacity, false, false, true, Quiet);
    LeadsOnSelf(s0);
    LeadsOnMore(s0, s0, Manage(AddRouteCall(r)));
    FirstRoute(capacity, r);
    LeadsOnMore(s0, s1, Manage(StartCall));
    var l := NewLane(capacity, r.delivery);
    Calls(s1, r, l, idle, map[], [], StartCall, Apply(l, WorkerStarts));
    s := Do(s1, Manage(StartCall));
  }

  lemma FirstRoute(capacity: nat, r: Route)
    ensures Do(Initial(capacity), Manage(AddRouteCall(r))) ==
            WithOne(r, NewLane(capacity, r.delivery), Lifecycle([r], capacity, false, false, true, Quiet), map[], [])
  {
    var s := Do(Initial(capacity), Manage(AddRouteCall(r)));
    assert |s.gens| == 2 && s.gens[0] == Generation([], [], Open, false);
    assert s.gens[1].lanes == [NewLane(capacity, r.delivery)];
    assert s.life.routes == [r];
  }

  /** A producer enters the lane. */
  lemma Entered(s0: State, s: State, r: Route, l: Lane, life: Lifecycle, t: Tid, e: Event) returns (s': State)
    requires LeadsOn(s0, s) && s == WithOne(r, l, life, map[], []) && t !in l.producers
    ensures LeadsOn(s0, s')
    ensures s' == WithOne(r, Apply(l, Begin(t, e)), life, map[t := Going(e, true)], [Call(Offer(t, e), {0}, 1)])
  {
    LeadsOnMore(s0, s, Producer(t, SubmitBegins(e, {0}, 1)));
    var s1 := Do(s, Producer(t, SubmitBegins(e, {0}, 1)));
    assert s1 == WithOne(r, l, life, map[t := Going(e, false)], [Call(Offer(t, e), {0}, 1)]);
    LeadsOnMore(s0, s1, Producer(t, LaneEntered));
    s' := Do(s1, Producer(t, LaneEntered));
    assert s'.gens[1].lanes == [Apply(l, Begin(t, e))];
  }

  /** A step inside the lane that does not end the call, or does. */
  lemma Steps(s0: State, s: State, r: Route, l: Lane, life: Lifecycle, t: Tid, e: Event, calls: seq<Call>, step: Step)
    returns (s': State)
    requires LeadsOn(s0, s) && s == WithOne(r, l, life, map[t := Going(e, true)], calls)
    requires ProducerStep(s, t, step) && Enabled(l, step)
    ensures LeadsOn(s0, s')
    ensures HasLane(s', 1, 0) && LaneAt(s', 1, 0) == Apply(l, step) && s'.life == life
    ensures t in Apply(l, step).producers ==>
              s' == WithOne(r, Apply(l, step), life, map[t := Going(e, true)], calls)
  {
    LeadsOnMore(s0, s, Producer(t, InsideLane(step)));
    s' := Do(s, Producer(t, InsideLane(step)));
    assert s'.gens[1].lanes == [Apply(l, step)];
  }

  /** A section of a lifecycle call that makes at most one step in the lane. */
  lemma Calls(s: State, r: Route, l: Lane, life: Lifecycle, th: map<Tid, Submission>, calls: seq<Call>,
              a: LifecycleAction, l': Lane)
    requires s == WithOne(r, l, life, th, calls) && CanCall(s, a) && !Rebuilds(s, a) && !a.SetAccepting?
    requires l' == Stepped(l, CallStep(s, a, 1, 0))
    ensures DoCall(s, a) == WithOne(r, l', CallEffect(s, a), th, calls)
  {
    var s' := DoCall(s, a);
    assert s'.gens[0] == Generation([], [], Open, false);
    assert s'.gens[1].lanes == [l'];
  }

  // ---------------------------------------------------------------- refused by a live reconfiguration

  /** The producer holds a slot in a running blocking lane and is about to push. */
  lemma AboutToPush(capacity: nat, r: Route, t: Tid, e: Event) returns (s: State, l: Lane)
    requires r.delivery.BlockWhenFull?
    ensures LeadsOn(Initial(capacity), s)
    ensures s == WithOne(r, l, Running([r], capacity), map[t := Going(e, true)], [Call(Offer(t, e), {0}, 1)])
    ensures t in l.producers && l.producers[t] == Pushing(Offer(t, e))
    ensures !l.closed && l.resolved == [] && l.worker.Popping?
  {
    var s0, calls := Initial(capacity), [Call(Offer(t, e), {0}, 1)];
    var life := Running([r], capacity);
    var s1 := Started(capacity, r);
    var l1 := Apply(NewLane(capacity, r.delivery), WorkerStarts);
    var s2 := Entered(s0, s1, r, l1, life, t, e);
    var l2 := Apply(l1, Begin(t, e));
    var s3 := Steps(s0, s2, r, l2, life, t, e, calls, ReadAccepting(t, true));
    var l3 := Apply(l2, ReadAccepting(t, true));
    var s4 := Steps(s0, s3, r, l3, life, t, e, calls, LoadSize(t));
    var l4 := Apply(l3, LoadSize(t));
    s := Steps(s0, s4, r, l4, life, t, e, calls, CasSucceeds(t));
    l := Apply(l4, CasSucceeds(t));
  }

  /** add_route begins to stop the lanes and closes the queue. */
  lemma ClosedUnderneath(s0: State, s: State, r: Route, l: Lane, capacity: nat, th: map<Tid, Submission>,
                         calls: seq<Call>, other: Route)
    returns (s': State, life: Lifecycle)
    requires LeadsOn(s0, s) && s == WithOne(r, l, Running([r], capacity), th, calls) && !l.closed
    ensures LeadsOn(s0, s') && life.accepting
    ensures s' == WithOne(r, l.(drainOnStop := true, closed := true), life, th, calls)
  {
    var l1 := l.(drainOnStop := true);
    var s1 := DoCall(s, AddRouteCall(other));
    RouteAdded(s, r, l, capacity, th, calls, other);
    LeadsOnMore(s0, s, Manage(AddRouteCall(other)));
    QueueClosed(s1, r, l1, s1.life, th, calls);
    LeadsOnMore(s0, s1, Manage(CloseLane));
    s' := DoCall(s1, CloseLane);
    life := s'.life;
  }

  lemma RouteAdded(s: State, r: Route, l: Lane, capacity: nat, th: map<Tid, Submission>, calls: seq<Call>, other: Route)
    requires s == WithOne(r, l, Running([r], capacity), th, calls) && !l.closed
    ensures CanCall(s, AddRouteCall(other))
    ensures var s' := DoCall(s, AddRouteCall(other));
            && s' == WithOne(r, l.(drainOnStop := true), s'.life, th, calls)
            && s'.life.accepting && s'.life.control == Stopping(0, ClosingQueue, true, Restart)
  {
    Calls(s, r, l, s.life, th, calls, AddRouteCall(other), l.(drainOnStop := true));
  }

  lemma QueueClosed(s: State, r: Route, l: Lane, life: Lifecycle, th: map<Tid, Submission>, calls: seq<Call>)
    requires s == WithOne(r, l, life, th, calls) && life.control.Stopping?
    requires life.control.phase.ClosingQueue? && life.control.next == 0
    ensures CanCall(s, CloseLane)
    ensures DoCall(s, CloseLane) ==
            WithOne(r, l.(closed := true), life.(control := life.control.(phase := RequestingStop)), th, calls)
  {
    Calls(s, r, l, life, th, calls, CloseLane, l.(closed := true));
  }

  /** A live reconfiguration can refuse a call on a blocking route, although no shutdown has
      begun: a producer between its reservation and its push when add_route closes the queue
      has the push refused, and the event is gone, while `accepting` is true throughout. */
  lemma LiveRebuildRefuses(capacity: nat, r: Route, other: Route, t: Tid, e: Event) returns (run: seq<Action>)
    requires r.delivery.BlockWhenFull?
    ensures ValidActions(Initial(capacity), run) && NeverUnaccepting(run)
    ensures var s := After(Initial(capacity), run);
            && s.life.accepting && HasLane(s, 1, 0)
            && LaneAt(s, 1, 0).resolved == [Resolution(Offer(t, e), RejectedClosed)]
  {
    var s0, calls := Initial(capacity), [Call(Offer(t, e), {0}, 1)];
    var s1, l1 := AboutToPush(capacity, r, t, e);
    var s2, life := ClosedUnderneath(s0, s1, r, l1, capacity, map[t := Going(e, true)], calls, other);
    var l2 := l1.(drainOnStop := true, closed := true);
    var s3 := Steps(s0, s2, r, l2, life, t, e, calls, Push(t));
    var l3 := Apply(l2, Push(t));
    var s4 := Steps(s0, s3, r, l3, life, t, e, calls, ReleaseFailed(t));
    run :| ValidActions(s0, run) && After(s0, run) == s4 && NeverUnaccepting(run);
  }

  // ---------------------------------------------------------------- a queue replaced under a producer

  lemma WorkerMoves(s: State, r: Route, l: Lane, life: Lifecycle, th: map<Tid, Submission>, calls: seq<Call>,
                    step: Step)
    requires s == WithOne(r, l, life, th, calls) && Enabled(l, step) && (step.WorkerPopEnds? || step.WorkerReadsDrain?)
    ensures CanWork(s, 1, 0, step) && Work(s, 1, 0, step) == WithOne(r, Apply(l, step), life, th, calls)
  {
    assert Work(s, 1, 0, step).gens[1].lanes == [Apply(l, step)];
  }

  /** A forced stop of one lane, up to the joined worker. */
  lemma StoppedByForce(s0: State, s: State, r: Route, l: Lane, capacity: nat, th: map<Tid, Submission>,
                       calls: seq<Call>)
    returns (s': State)
    requires Leads(s0, s) && s == WithOne(r, l, Running([r], capacity), th, calls) && !l.closed && l.worker.Popping?
    ensures Leads(s0, s') && CanCall(s', FinishStop) && !s'.life.control.drain
    ensures Last(s') == 1 && HasLane(s', 1, 0) && LaneAt(s', 1, 0).producers == l.producers
  {
    var s1, life := ForceBegins(s0, s, r, l, capacity, th, calls);
    var l1 := l.(drainOnStop := false, closed := true, stopRequested := true);
    var l2 := Apply(l1, WorkerPopEnds);
    WorkerMoves(s1, r, l1, life, th, calls, WorkerPopEnds);
    LeadsMore(s0, s1, Worker(1, 0, WorkerPopEnds));
    var s2 := WithOne(r, l2, life, th, calls);
    WorkerMoves(s2, r, l2, life, th, calls, WorkerReadsDrain);
    LeadsMore(s0, s2, Worker(1, 0, WorkerReadsDrain));
    var l3 := Apply(l2, WorkerReadsDrain);
    s' := Joined(s0, WithOne(r, l3, life, th, calls), r, l3, life, th, calls);
  }

  lemma Joined(s0: State, s: State, r: Route, l: Lane, life: Lifecycle, th: map<Tid, Submission>, calls: seq<Call>)
    returns (s': State)
    requires Leads(s0, s) && s == WithOne(r, l, life, th, calls) && l.worker.Exited?
    requires life.control == Stopping(0, Joining, false, Recreate)
    ensures Leads(s0, s') && CanCall(s', FinishStop) && !s'.life.control.drain
    ensures Last(s') == 1 && HasLane(s', 1, 0) && LaneAt(s', 1, 0).producers == l.producers
  {
    Calls(s, r, l, life, th, calls, JoinLane, l);
    LeadsMore(s0, s, Manage(JoinLane));
    s' := DoCall(s, JoinLane);
  }

  /** The first sections of a forced stop. */
  lemma ForceBegins(s0: State, s: State, r: Route, l: Lane, capacity: nat, th: map<Tid, Submission>, calls: seq<Call>)
    returns (s': State, life: Lifecycle)
    requires Leads(s0, s) && s == WithOne(r, l, Running([r], capacity), th, calls) && !l.closed && l.worker.Popping?
    ensures Leads(s0, s') && life.control == Stopping(0, Joining, false, Recreate)
    ensures s' == WithOne(r, l.(drainOnStop := false, closed := true, stopRequested := true), life, th, calls)
  {
    var l1 := l.(drainOnStop := false);
    var s1 := DoCall(s, StopCall(false));
    StopBegun(s, r, l, capacity, th, calls);
    LeadsMore(s0, s, Manage(StopCall(false)));
    QueueClosed(s1, r, l1, s1.life, th, calls);
    LeadsMore(s0, s1, Manage(CloseLane));
    var s2 := DoCall(s1, CloseLane);
    StopRequested(s2, r, l1.(closed := true), s2.life, th, calls);
    LeadsMore(s0, s2, Manage(RequestStopLane));
    s' := DoCall(s2, RequestStopLane);
    life := s'.life;
  }

  lemma StopBegun(s: State, r: Route, l: Lane, capacity: nat, th: map<Tid, Submission>, calls: seq<Call>)
    requires s == WithOne(r, l, Running([r], capacity), th, calls) && !l.closed
    ensures CanCall(s, StopCall(false))
    ensures var s' := DoCall(s, StopCall(false));
            && s' == WithOne(r, l.(drainOnStop := false), s'.life, th, calls)
            && s'.life.control == Stopping(0, ClosingQueue, false, Recreate)
  {
    Calls(s, r, l, s.life, th, calls, StopCall(false), l.(drainOnStop := false));
  }

  lemma StopRequested(s: State, r: Route, l: Lane, life: Lifecycle, th: map<Tid, Submission>, calls: seq<Call>)
    requires s == WithOne(r, l, life, th, calls) && l.closed && !l.worker.NotStarted? && life.control.Stopping?
    requires life.control.phase.RequestingStop? && life.control.next == 0
    ensures CanCall(s, RequestStopLane)
    ensures DoCall(s, RequestStopLane) ==
            var joining := life.(control := life.control.(phase := Joining, next := 0));
            WithOne(r, l.(stopRequested := true), joining, th, calls)
  {
    Calls(s, r, l, life, th, calls, RequestStopLane, l.(stopRequested := true));
  }

  /** A forced stop can replace a queue while a producer is inside it. */
  lemma ForcedStopOverProducer(capacity: nat, r: Route, t: Tid, e: Event) returns (s: State)
    ensures Leads(Initial(capacity), s) && CanCall(s, FinishStop)
    ensures var s', g := DoCall(s, FinishStop), Last(s);
            HasSpare(s', g) && HasLane(s', g, 0) && t in LaneAt(s', g, 0).producers
  {
    var s0 := Initial(capacity);
    var s1 := Started(capacity, r);
    var l1 := Apply(NewLane(capacity, r.delivery), WorkerStarts);
    var s2 := Entered(s0, s1, r, l1, Running([r], capacity), t, e);
    var l2 := Apply(l1, Begin(t, e));
    LeadsOnLeads(s0, s2);
    s := StoppedByForce(s0, s2, r, l2, capacity, map[t := Going(e, true)], [Call(Offer(t, e), {0}, 1)]);
    ReplacedUnderProducer(s, 0, t);
  }
}
