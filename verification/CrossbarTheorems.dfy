/**
What every run of the crossbar guarantees: lanes are isolated and fed exactly what the
masks select, lifecycle calls always find open lanes, live reconfiguration keeps the order
of each route position, and a graceful stop loses nothing it accepted.
*/
module CrossbarTheorems {
  import opened Events
  import opened LaneProtocol
  import opened Routing
  import opened Crossbar
  import opened CrossbarInvariant

  /** A state that some run of the pipeline reaches. */
  ghost predicate Reachable(s: State) {
    exists capacity: nat, run: seq<Action> ::
      ValidActions(Initial(capacity), run) && s == After(Initial(capacity), run)
  }

  lemma ReachableInv(s: State)
    requires Reachable(s)
    ensures CrossbarInv(s)
  {
    var capacity: nat, run: seq<Action> :|
      ValidActions(Initial(capacity), run) && s == After(Initial(capacity), run);
    InitialInv(capacity);
    RunsKeepInv(Initial(capacity), run);
  }

  // ---------------------------------------------------------------- isolation

  /** The steps that a run of the crossbar makes in one lane. */
  ghost function LaneRun(s: State, run: seq<Action>, g: nat, i: nat): seq<Step>
    requires HasLane(s, g, i) && ValidActions(s, run)
    decreases run
  {
    if run == [] then []
    else
      Projects(s, run[0], g, i);
      (match LaneStep(s, run[0], g, i) case None => [] case Some(step) => [step])
      + LaneRun(Do(s, run[0]), run[1..], g, i)
  }

  /** Lane isolation: every run of the crossbar, seen from one lane, is a run of the
      single-lane protocol, whatever the other lanes' capacities, policies and speeds. */
  lemma {:induction false} LaneIsolation(s: State, run: seq<Action>, g: nat, i: nat)
    requires HasLane(s, g, i) && ValidActions(s, run)
    ensures HasLane(After(s, run), g, i)
    ensures ValidRun(LaneAt(s, g, i), LaneRun(s, run, g, i))
    ensures LaneAt(After(s, run), g, i) == Run(LaneAt(s, g, i), LaneRun(s, run, g, i))
    decreases run
  {
    if run != [] {
      Projects(s, run[0], g, i);
      LaneIsolation(Do(s, run[0]), run[1..], g, i);
      var rest := LaneRun(Do(s, run[0]), run[1..], g, i);
      match LaneStep(s, run[0], g, i)
      case None =>
        assert LaneRun(s, run, g, i) == [] + rest == rest;
      case Some(step) =>
        assert LaneRun(s, run, g, i) == [step] + rest;
        assert ([step] + rest)[1..] == rest;
    }
  }

  /** Each lane below 64 is offered, by each thread and in that thread's order, exactly the
      events whose mask has the lane's bit, the queue that a forced stop puts in included;
      lanes from 64 on are offered nothing. */
  lemma FedExactlyTheMask(s: State, t: Tid, g: nat, i: nat)
    requires Reachable(s) && HasLane(s, g, i) && !s.gens[g].spare && t !in s.traffic.threads
    ensures OffersTo(s, t, g, i) == Selected(s.traffic.submitted, t, g, i)
    ensures i >= 64 ==> OffersTo(s, t, g, i) == []
  {
    ReachableInv(s);
    assert LaneFed(s, t, g, i);
    if i >= ROUTE_LIMIT {
      NothingBeyondLimit(s.traffic.submitted, t, g, i);
    }
  }

  lemma {:induction false} NothingBeyondLimit(calls: seq<Call>, t: Tid, g: nat, i: nat)
    requires i >= 64
    ensures Selected(calls, t, g, i) == []
  {
    if calls != [] {
      NothingBeyondLimit(calls[..|calls| - 1], t, g, i);
    }
  }

  // ---------------------------------------------------------------- lifecycle

  /** Between lifecycle calls the pipeline and its crossbar agree on whether they run, lane i
      carries route i, every current lane is open with room for at least one event, and the
      workers are exactly as `running` says. */
  lemma LifecycleAgrees(s: State)
    requires Reachable(s) && s.life.control.Quiet?
    ensures s.life.running == s.life.pipelineRunning
    ensures s.gens != [] && s.gens[Last(s)].routes == s.life.routes && |s.gens[Last(s)].lanes| == |s.life.routes|
    ensures forall i: nat | i < |s.life.routes| ::
              var l := LaneAt(s, Last(s), i);
              && l.policy == s.life.routes[i].delivery
              && !l.closed && 1 <= l.capacity
              && if s.life.running then WorkerActive(l.worker) else l.worker.NotStarted?
  {
    ReachableInv(s);
    forall i: nat | i < |s.life.routes|
      ensures LaneAt(s, Last(s), i).policy == s.life.routes[i].delivery && 1 <= LaneAt(s, Last(s), i).capacity
    {
      assert HasLane(s, Last(s), i);
      assert Inv(LaneAt(s, Last(s), i));
    }
  }

  /** Every lifecycle call can go ahead whenever no other is in progress: its first section
      meets only lanes that it may touch, and start never starts a worker on a closed queue. */
  lemma LifecycleCallsGoAhead(s: State, a: LifecycleAction)
    requires Reachable(s) && s.life.control.Quiet?
    requires a.StartCall? || a.StopCall? || a.AddRouteCall? || a.ClearRoutesCall? || a.ConfigureCall?
    ensures CanCall(s, a)
    ensures forall i: nat | HasLane(s, Last(s), i) && CallStep(s, a, Last(s), i) == Some(WorkerStarts) ::
              !LaneAt(s, Last(s), i).closed
  {
    ReachableInv(s);
    QuietLanesAllow(s);
  }

  lemma QuietLanesAllow(s: State)
    requires s.gens != [] && QuietSound(s)
    ensures AllCan(s, SetDrain(true)) && AllCan(s, SetDrain(false))
    ensures !s.life.running ==> AllCan(s, WorkerStarts)
    ensures forall i: nat | HasLane(s, Last(s), i) :: !LaneAt(s, Last(s), i).closed
  {
  }

  /** A stop never gets stuck between its sections: it waits for workers and for nothing else. */
  lemma StopOnlyWaitsForWorkers(s: State)
    requires Reachable(s) && s.life.control.Stopping?
    ensures s.gens != []
    ensures CanCall(s, CloseLane) || CanCall(s, RequestStopLane) || CanCall(s, JoinLane) || CanCall(s, FinishStop)
            || (s.life.control.phase.Joining? && HasLane(s, Last(s), s.life.control.next)
                && WorkerActive(LaneAt(s, Last(s), s.life.control.next).worker)
                && LaneAt(s, Last(s), s.life.control.next).closed)
  {
    ReachableInv(s);
    StopProgress(s);
  }

  lemma StopProgress(s: State)
    requires s.gens != [] && s.life.control.Stopping? && StoppingSound(s)
    ensures var c := s.life.control;
            CanCall(s, CloseLane) || CanCall(s, RequestStopLane) || CanCall(s, JoinLane) || CanCall(s, FinishStop)
            || (c.phase.Joining? && HasLane(s, Last(s), c.next)
                && WorkerActive(LaneAt(s, Last(s), c.next).worker) && LaneAt(s, Last(s), c.next).closed)
  {
    var c := s.life.control;
    if HasLane(s, Last(s), c.next) {
      assert LaneAt(s, Last(s), c.next).closed <==> ClosedSoFar(c, c.next);
    }
  }

  /** When a stop has joined its workers: after a drain stop a lane whose worker had been
      started has processed everything it accepted, in order, and a lane whose worker never
      ran has processed nothing; after a forced stop the rest of the queue is discarded, and
      the lane is left with a fresh queue that is open and that nobody will ever pop. */
  lemma StopOutcome(s: State, i: nat)
    requires Reachable(s) && CanCall(s, FinishStop) && HasLane(s, Last(s), i)
    ensures var l := LaneAt(s, Last(s), i);
            && l.closed && !WorkerActive(l.worker)
            && AcceptedOf(l.resolved) == l.processed + l.queue
            && (l.worker.Exited? ==> (l.worker.drained <==> s.life.control.drain))
            && (l.worker.Exited? && s.life.control.drain ==> l.processed == AcceptedOf(l.resolved))
            && (l.worker.NotStarted? ==> l.processed == [])
    ensures var s', g := DoCall(s, FinishStop), Last(s);
            && LaneAt(s', g, i) == LaneAt(s, g, i)
            && (HasSpare(s', g) <==> !s.life.control.drain)
            && (!s.life.control.drain ==>
                  && HasLane(s', g + 1, i)
                  && LaneAt(s', g + 1, i) == NewLane(LaneAt(s, g, i).capacity, LaneAt(s, g, i).policy))
  {
    ReachableInv(s);
    StoppedAt(s, i);
    StopSplits(s, i);
  }

  lemma StopSplits(s: State, i: nat)
    requires CanCall(s, FinishStop) && HasLane(s, Last(s), i)
    ensures var s', g := DoCall(s, FinishStop), Last(s);
            && LaneAt(s', g, i) == LaneAt(s, g, i)
            && (HasSpare(s', g) <==> !s.life.control.drain)
            && (!s.life.control.drain ==>
                  && HasLane(s', g + 1, i)
                  && LaneAt(s', g + 1, i) == NewLane(LaneAt(s, g, i).capacity, LaneAt(s, g, i).policy))
  {
  }

  /** The end of a stop replaces a queue under a producer that is still inside it exactly if the
      stop was forced and the producer was inside.  `ForcedStopOverProducer` shows that this
      happens. */
  lemma ReplacedUnderProducer(s: State, i: nat, t: Tid)
    requires CanCall(s, FinishStop) && HasLane(s, Last(s), i)
    ensures var s', g := DoCall(s, FinishStop), Last(s);
            && HasLane(s', g, i)
            && (HasSpare(s', g) && t in LaneAt(s', g, i).producers <==>
                !s.life.control.drain && t in LaneAt(s, g, i).producers)
  {
    StopSplits(s, i);
  }

  lemma StoppedAt(s: State, i: nat)
    requires LanesSound(s) && LifecycleSound(s) && CanCall(s, FinishStop) && HasLane(s, Last(s), i)
    ensures var l := LaneAt(s, Last(s), i);
            && l.closed && !WorkerActive(l.worker)
            && AcceptedOf(l.resolved) == l.processed + l.queue
            && (l.worker.Exited? ==> (l.worker.drained <==> s.life.control.drain))
            && (l.worker.Exited? && s.life.control.drain ==> l.processed == AcceptedOf(l.resolved))
            && (l.worker.NotStarted? ==> l.processed == [])
  {
    assert Inv(LaneAt(s, Last(s), i));
    assert StoppingSound(s);
  }

  /** Live reconfiguration.  add_route or clear_routes on a running pipeline: when the rebuild
      starts the new workers, every old lane has processed, in order, everything it ever
      accepted, and no new lane has accepted anything yet.  Events that are refused because
      the old queue is closed already are another matter, see `LiveRebuildRefuses`. */
  lemma LiveRebuildKeepsAccepted(s: State)
    requires Reachable(s) && CanCall(s, FinishStop) && s.life.control.goal.Restart?
    ensures forall i: nat | HasLane(s, Last(s), i) ::
              LaneAt(s, Last(s), i).closed
              && LaneAt(s, Last(s), i).processed == AcceptedOf(LaneAt(s, Last(s), i).resolved)
    ensures var s' := DoCall(s, FinishStop);
            && Last(s') == Last(s) + 1
            && s'.gens[Last(s')].routes == s.life.routes
            && (forall i: nat | HasLane(s', Last(s'), i) ::
                  var l := LaneAt(s', Last(s'), i);
                  WorkerActive(l.worker) && l.processed == [] && AcceptedOf(l.resolved) == [])
  {
    forall i: nat | HasLane(s, Last(s), i)
      ensures LaneAt(s, Last(s), i).closed
              && LaneAt(s, Last(s), i).processed == AcceptedOf(LaneAt(s, Last(s), i).resolved)
    {
      StopOutcome(s, i);
      RestartedWereStarted(s, i);
    }
    var s' := DoCall(s, FinishStop);
    RestartDrains(s);
    forall i: nat | HasLane(s', Last(s'), i)
      ensures var l := LaneAt(s', Last(s'), i);
              WorkerActive(l.worker) && l.processed == [] && AcceptedOf(l.resolved) == []
    {
      MadeLane(s'.life, s'.life.routes[i].delivery);
    }
  }

  lemma RestartDrains(s: State)
    requires Reachable(s) && s.life.control.Stopping? && s.life.control.goal.Restart?
    ensures s.life.control.drain
  {
    ReachableInv(s);
  }

  lemma RestartedWereStarted(s: State, i: nat)
    requires Reachable(s) && s.life.control.Stopping? && s.life.control.goal.Restart? && s.gens != []
    requires HasLane(s, Last(s), i)
    ensures !LaneAt(s, Last(s), i).worker.NotStarted? && s.life.control.drain
  {
    ReachableInv(s);
  }

  // ---------------------------------------------------------------- old generations

  /** Once a rebuild has replaced a lane whose worker had run, nothing can change what went
      through its queue: no push to it succeeds any more, and nothing more is processed. */
  lemma ReplacedQueueIsFrozen(s: State, run: seq<Action>, g: nat, i: nat)
    requires Reachable(s) && ValidActions(s, run)
    requires HasLane(s, g, i) && g < Last(s) && !LaneAt(s, g, i).worker.NotStarted?
    ensures HasLane(After(s, run), g, i)
    ensures var l, l' := LaneAt(s, g, i), LaneAt(After(s, run), g, i);
            && l.closed && l.worker.Exited?
            && l'.processed == l.processed
            && AcceptedOf(l'.resolved) == AcceptedOf(l.resolved)
            && (l.worker.drained ==> l'.processed == AcceptedOf(l'.resolved))
  {
    ReachableInv(s);
    var l := LaneAt(s, g, i);
    assert Inv(l);
    LaneIsolation(s, run, g, i);
    ClosedAcceptsNothing(l, LaneRun(s, run, g, i));
    ExitedForGood(l, LaneRun(s, run, g, i));
  }

  /** What lane i of generation g has accepted: in its queue, then in the fresh queue of a
      forced stop. */
  function AcceptedAt(s: State, g: nat, i: nat): seq<Offer>
    requires HasLane(s, g, i)
  {
    AcceptedOf(LaneAt(s, g, i).resolved)
    + if HasSpare(s, g) && HasLane(s, g + 1, i) then AcceptedOf(LaneAt(s, g + 1, i).resolved) else []
  }

  lemma {:induction false} SparesStay(s: State, run: seq<Action>, g: nat)
    requires ValidActions(s, run) && g < |s.gens|
    ensures g < |After(s, run).gens| && After(s, run).gens[g].spare == s.gens[g].spare
    decreases run
  {
    if run != [] {
      DoGrows(s, run[0]);
      SparesStay(Do(s, run[0]), run[1..], g);
    }
  }

  lemma ClosedStaysFrozen(s: State, run: seq<Action>, g: nat, i: nat)
    requires ValidActions(s, run) && HasLane(s, g, i) && LaneAt(s, g, i).closed
    requires g < Last(s) && !HasSpare(s, g)
    ensures HasLane(After(s, run), g, i) && AcceptedAt(After(s, run), g, i) == AcceptedAt(s, g, i)
  {
    LaneIsolation(s, run, g, i);
    ClosedAcceptsNothing(LaneAt(s, g, i), LaneRun(s, run, g, i));
    SparesStay(s, run, g + 1);
  }

  /** A lane that was drained and replaced stays exactly as it is in every continuation, even
      for producers still holding its lane list: it has processed, in order, everything it
      ever accepted. */
  lemma DrainedLaneIsFrozen(s: State, run: seq<Action>, g: nat, i: nat)
    requires Reachable(s) && ValidActions(s, run)
    requires HasLane(s, g, i) && g < Last(s) && LaneAt(s, g, i).worker == Exited(true)
    ensures HasLane(After(s, run), g, i)
    ensures AcceptedAt(After(s, run), g, i) == AcceptedAt(s, g, i) == LaneAt(s, g, i).processed
    ensures LaneAt(After(s, run), g, i).processed == LaneAt(s, g, i).processed
  {
    ReachableInv(s);
    ReplacedQueueIsFrozen(s, run, g, i);
    DrainedHasNoSpare(s, g, i);
    ClosedStaysFrozen(s, run, g, i);
    ReplacedQueueIsFrozen(s, [], g, i);
    assert AcceptedOf(LaneAt(s, g, i).resolved) + [] == AcceptedOf(LaneAt(s, g, i).resolved);
  }

  lemma DrainedHasNoSpare(s: State, g: nat, i: nat)
    requires SparesSound(s) && HasLane(s, g, i) && LaneAt(s, g, i).worker == Exited(true)
    ensures !HasSpare(s, g)
  {
    assert g + 1 < |s.gens| && s.gens[g + 1].spare ==> SpareFits(s.gens[g], s.gens[g + 1]);
  }

  /** Events that get into the fresh queue of a forced stop are never processed, in no
      reachable state. */
  lemma SpareIsNeverProcessed(s: State, g: nat, i: nat)
    requires Reachable(s) && HasLane(s, g, i) && s.gens[g].spare
    ensures LaneAt(s, g, i).processed == [] && AcceptedOf(LaneAt(s, g, i).resolved) == LaneAt(s, g, i).queue
    ensures LaneLog(s.traffic.log, g, i) == []
  {
    ReachableInv(s);
    SpareWaits(s, g, i);
  }

  lemma SpareWaits(s: State, g: nat, i: nat)
    requires LanesSound(s) && SparesSound(s) && HasLane(s, g, i) && s.gens[g].spare
    ensures LaneAt(s, g, i).processed == [] && AcceptedOf(LaneAt(s, g, i).resolved) == LaneAt(s, g, i).queue
  {
    assert SpareFits(s.gens[g - 1], s.gens[g]);
    assert Inv(LaneAt(s, g, i));
  }

  /** `accepting` is never set to false. */
  ghost predicate NeverUnaccepting(run: seq<Action>) {
    forall k | 0 <= k < |run| :: run[k] != Manage(SetAccepting(false))
  }

  // ---------------------------------------------------------------- exactly when a stopped lane is frozen

  /** Some run leads from s to s'. */
  ghost predicate Leads(s: State, s': State) {
    exists run: seq<Action> :: ValidActions(s, run) && After(s, run) == s'
  }

  lemma LeadsSelf(s: State)
    ensures Leads(s, s)
  {
    assert ValidActions(s, []) && After(s, []) == s;
  }

  lemma {:induction false} AfterAppends(s: State, run: seq<Action>, a: Action)
    requires ValidActions(s, run) && After(s, run).gens != [] && Can(After(s, run), a)
    ensures ValidActions(s, run + [a]) && After(s, run + [a]) == Do(After(s, run), a)
    decreases run
  {
    if run == [] {
      assert [] + [a] == [a] && [a][1..] == [];
    } else {
      AfterAppends(Do(s, run[0]), run[1..], a);
      assert (run + [a])[1..] == run[1..] + [a];
    }
  }

  lemma ReachesOne(s: State, a: Action)
    requires Reachable(s) && s.gens != [] && Can(s, a)
    ensures Reachable(Do(s, a))
  {
    var capacity: nat, first: seq<Action> :|
      ValidActions(Initial(capacity), first) && s == After(Initial(capacity), first);
    AfterAppends(Initial(capacity), first, a);
  }

  lemma {:induction false} StaysReachable(s: State, run: seq<Action>)
    requires Reachable(s) && ValidActions(s, run)
    ensures Reachable(After(s, run))
    decreases run
  {
    if run != [] {
      ReachesOne(s, run[0]);
      StaysReachable(Do(s, run[0]), run[1..]);
    }
  }

  lemma LeadsMore(s: State, s': State, a: Action)
    requires Leads(s, s') && s'.gens != [] && Can(s', a)
    ensures Leads(s, Do(s', a))
  {
    var run: seq<Action> :| ValidActions(s, run) && After(s, run) == s';
    AfterAppends(s, run, a);
  }

  /** Thread t is in its fan-out loop over generation g, before index `next`, outside any lane,
      for event e, which only lane i selects. */
  ghost predicate Outside(s: State, t: Tid, e: Event, g: nat, next: nat, i: nat) {
    && g < |s.gens| && !s.gens[g].spare && s.life.accepting
    && t in s.traffic.threads
    && var th := s.traffic.threads[t];
       th.gen == g && th.next == next && !th.inside && th.mask == {i} && th.event == e
  }

  lemma {:induction false} WalksTo(s0: State, s: State, t: Tid, e: Event, g: nat, next: nat, i: nat) returns (s': State)
    requires Leads(s0, s) && Outside(s, t, e, g, next, i) && next <= i < LoopEnd(s, g)
    ensures Leads(s0, s') && s'.gens == s.gens && Outside(s', t, e, g, i, i)
    decreases i - next
  {
    if next == i {
      s' := s;
    } else {
      LeadsMore(s0, s, Producer(t, LaneSkipped));
      s' := WalksTo(s0, Do(s, Producer(t, LaneSkipped)), t, e, g, next + 1, i);
    }
  }

  /** Thread t is inside the spare queue of lane i. */
  ghost predicate InSpare(s: State, t: Tid, g: nat, i: nat) {
    && g < |s.gens| && s.life.accepting && HasSpare(s, g) && HasLane(s, g + 1, i) && i < LoopEnd(s, g)
    && t in s.traffic.threads
    && var th := s.traffic.threads[t];
       th.gen == g && th.next == i && th.inside && th.at == g + 1
  }

  lemma StepsInSpare(s0: State, s: State, t: Tid, g: nat, i: nat, step: Step) returns (s': State)
    requires Leads(s0, s) && InSpare(s, t, g, i)
    requires ProducerStep(s, t, step) && Enabled(LaneAt(s, g + 1, i), step)
    ensures Leads(s0, s') && HasLane(s', g + 1, i) && LaneAt(s', g + 1, i) == Apply(LaneAt(s, g + 1, i), step)
    ensures HasLane(s, g, i) ==> HasLane(s', g, i) && LaneAt(s', g, i) == LaneAt(s, g, i)
    ensures HasSpare(s', g)
    ensures t in Apply(LaneAt(s, g + 1, i), step).producers ==> InSpare(s', t, g, i)
  {
    s' := Do(s, Producer(t, InsideLane(step)));
    LeadsMore(s0, s, Producer(t, InsideLane(step)));
  }

  /** From inside an empty spare queue, undisturbed, the push succeeds. */
  lemma PushesIntoSpare(s0: State, s: State, t: Tid, g: nat, i: nat, empty: Lane, e: Event) returns (s': State)
    requires Leads(s0, s) && InSpare(s, t, g, i) && HasLane(s, g, i)
    requires empty.producers == map[] && empty.size == 0 && empty.capacity >= 1 && !empty.closed && empty.resolved == []
    requires LaneAt(s, g + 1, i) == Apply(empty, Begin(t, e))
    ensures Leads(s0, s') && HasLane(s', g, i) && LaneAt(s', g, i) == LaneAt(s, g, i)
    ensures HasSpare(s', g) && HasLane(s', g + 1, i)
    ensures AcceptedOf(LaneAt(s', g + 1, i).resolved) == [Offer(t, e)]
  {
    var s1 := s;
    if empty.policy.BlockWhenFull? {
      s1 := StepsInSpare(s0, s, t, g, i, ReadAccepting(t, true));
    }
    TriesUndisturbed(LaneAt(s1, g + 1, i), t, e);
    var s2 := StepsInSpare(s0, s1, t, g, i, LoadSize(t));
    var s3 := StepsInSpare(s0, s2, t, g, i, CasSucceeds(t));
    s' := StepsInSpare(s0, s3, t, g, i, Push(t));
  }

  /** With room and an open queue, an undisturbed call that has decided to try is accepted. */
  lemma TriesUndisturbed(l: Lane, t: Tid, e: Event)
    requires t in l.producers && l.producers[t] == LoadingSize(Offer(t, e))
    requires l.size < l.capacity && !l.closed && l.resolved == []
    ensures Enabled(l, LoadSize(t))
    ensures var l1 := Apply(l, LoadSize(t));
            && t in l1.producers && Enabled(l1, CasSucceeds(t))
            && var l2 := Apply(l1, CasSucceeds(t));
            && t in l2.producers && Enabled(l2, Push(t))
            && AcceptedOf(Apply(l2, Push(t)).resolved) == [Offer(t, e)]
  {
    AppendViews([], Resolution(Offer(t, e), Accepted));
    assert [] + [Resolution(Offer(t, e), Accepted)] == [Resolution(Offer(t, e), Accepted)];
  }

  lemma EntersSpare(s0: State, s: State, t: Tid, e: Event, g: nat, i: nat) returns (s': State)
    requires Leads(s0, s) && Outside(s, t, e, g, i, i) && i < LoopEnd(s, g)
    requires HasSpare(s, g) && HasLane(s, g, i) && HasLane(s, g + 1, i) && t !in LaneAt(s, g + 1, i).producers
    ensures Leads(s0, s') && InSpare(s', t, g, i) && HasLane(s', g, i) && LaneAt(s', g, i) == LaneAt(s, g, i)
    ensures LaneAt(s', g + 1, i) == Apply(LaneAt(s, g + 1, i), Begin(t, e))
  {
    s' := Do(s, Producer(t, LaneEntered));
    LeadsMore(s0, s, Producer(t, LaneEntered));
  }

  /** The losing run.  After a forced stop has left a fresh queue in lane i, a producer that
      still holds the crossbar and reads `accepting` as true gets its event accepted there. */
  lemma ForcedStopLoses(s: State, g: nat, i: nat, t: Tid, e: Event) returns (run: seq<Action>)
    requires HasSpare(s, g) && !s.gens[g].spare && HasLane(s, g, i) && HasLane(s, g + 1, i) && i < 64
    requires exists capacity: nat, policy :: LaneAt(s, g + 1, i) == NewLane(capacity, policy)
    requires t !in s.traffic.threads
    ensures ValidActions(s, run) && HasLane(After(s, run), g, i)
    ensures HasSpare(After(s, run), g) && HasLane(After(s, run), g + 1, i)
    ensures AcceptedAt(After(s, run), g, i) == AcceptedAt(s, g, i) + [Offer(t, e)]
  {
    var s1 := StartsOutside(s, g, i, t, e);
    var empty := LaneAt(s, g + 1, i);
    var s2 := EntersSpare(s, s1, t, e, g, i);
    var s3 := PushesIntoSpare(s, s2, t, g, i, empty, e);
    run :| ValidActions(s, run) && After(s, run) == s3;
    assert AcceptedOf(empty.resolved) == [];
  }

  /** The producer reads `accepting` as true and walks its loop up to lane i. */
  lemma StartsOutside(s: State, g: nat, i: nat, t: Tid, e: Event) returns (s': State)
    requires HasSpare(s, g) && !s.gens[g].spare && HasLane(s, g, i) && HasLane(s, g + 1, i) && i < 64
    requires t !in s.traffic.threads
    ensures Leads(s, s') && Outside(s', t, e, g, i, i) && i < LoopEnd(s', g) && HasSpare(s', g)
    ensures HasLane(s', g, i) && LaneAt(s', g, i) == LaneAt(s, g, i)
    ensures HasLane(s', g + 1, i) && LaneAt(s', g + 1, i) == LaneAt(s, g + 1, i)
  {
    LeadsSelf(s);
    LeadsMore(s, s, Manage(SetAccepting(true)));
    var s1 := Do(s, Manage(SetAccepting(true)));
    SetAcceptingKeeps(s, g, i);
    SetAcceptingKeeps(s, g + 1, i);
    var s2 := Do(s1, Producer(t, SubmitBegins(e, {i}, g)));
    LeadsMore(s, s1, Producer(t, SubmitBegins(e, {i}, g)));
    s' := WalksTo(s, s2, t, e, g, 0, i);
  }

  lemma SetAcceptingKeeps(s: State, g: nat, i: nat)
    requires HasLane(s, g, i)
    ensures var s' := Do(s, Manage(SetAccepting(true)));
            && s'.life.accepting && s'.traffic == s.traffic && |s'.gens| == |s.gens|
            && HasLane(s', g, i) && LaneAt(s', g, i) == LaneAt(s, g, i)
            && s'.gens[g].spare == s.gens[g].spare && !s'.gens[g].gate.Unopened?
            && |s'.gens[g].lanes| == |s.gens[g].lanes|
  {
  }

  /** Exactly which stops freeze a lane: from the end of a stop on, no continuation changes what
      lane i has accepted if and only if it was a drain stop. */
  lemma StopFreezesExactly(s: State, i: nat)
    requires Reachable(s) && CanCall(s, FinishStop) && HasLane(s, Last(s), i) && i < 64
    ensures var s', g := DoCall(s, FinishStop), Last(s);
            && HasLane(s', g, i)
            && ((forall run | ValidActions(s', run) ::
                   HasLane(After(s', run), g, i) && AcceptedAt(After(s', run), g, i) == AcceptedAt(s', g, i))
                <==> s.life.control.drain)
  {
    var s', g := DoCall(s, FinishStop), Last(s);
    StopOutcome(s, i);
    StopEnds(s);
    if s.life.control.drain {
      forall run | ValidActions(s', run)
        ensures HasLane(After(s', run), g, i) && AcceptedAt(After(s', run), g, i) == AcceptedAt(s', g, i)
      {
        ClosedStaysFrozen(s', run, g, i);
      }
    } else {
      var t := UnusedTid(s'.traffic.threads.Keys);
      var run := ForcedStopLoses(s', g, i, t, SomeEvent(ERROR));
    }
  }

  lemma StopEnds(s: State)
    requires Reachable(s) && CanCall(s, FinishStop)
    ensures var s', g := DoCall(s, FinishStop), Last(s);
            g < Last(s') && !s'.gens[g].spare && s'.traffic == s.traffic
  {
    ReachableInv(s);
    DoGrows(s, Manage(FinishStop));
  }

  lemma {:induction false} ReplacedBeforeStart(s: State, run: seq<Action>, g: nat, i: nat)
    requires CrossbarInv(s) && ValidActions(s, run)
    requires HasLane(s, g, i) && g < Last(s) && LaneAt(s, g, i).worker.NotStarted?
    ensures HasLane(After(s, run), g, i) && LaneAt(After(s, run), g, i).worker.NotStarted?
    decreases run
  {
    if run != [] {
      var s' := Do(s, run[0]);
      Projects(s, run[0], g, i);
      DoGrows(s, run[0]);
      NotStartedStays(s, run[0], g, i);
      ActionKeepsInv(s, run[0]);
      ReplacedBeforeStart(s', run[1..], g, i);
    }
  }

  lemma NotStartedStays(s: State, a: Action, g: nat, i: nat)
    requires Can(s, a) && HasLane(s, g, i) && g < Last(s) && LaneAt(s, g, i).worker.NotStarted?
    ensures HasLane(Do(s, a), g, i) && LaneAt(Do(s, a), g, i).worker.NotStarted?
  {
    Projects(s, a, g, i);
  }

  /** Events queued before start() are lost if the lanes are rebuilt first: a lane replaced
      before its worker was started (by add_route, clear_routes, configure or close on an idle
      pipeline) never processes anything, although the lifecycle notes say that a call made
      before start() is queued until the crossbar starts. */
  lemma RebuiltBeforeStartDiscards(s: State, run: seq<Action>, g: nat, i: nat)
    requires Reachable(s) && ValidActions(s, run)
    requires HasLane(s, g, i) && g < Last(s) && LaneAt(s, g, i).worker.NotStarted?
    ensures HasLane(After(s, run), g, i) && LaneAt(After(s, run), g, i).processed == []
  {
    ReachableInv(s);
    ReplacedBeforeStart(s, run, g, i);
    RunsKeepInv(s, run);
    assert Inv(LaneAt(After(s, run), g, i));
  }

  // ---------------------------------------------------------------- order across rebuilds

  /** Everything the workers of lane position i wrote, in the order of the global log. */
  function PositionLog(log: seq<LogEntry>, i: nat): seq<Offer> {
    if log == [] then []
    else
      var x := log[|log| - 1];
      PositionLog(log[..|log| - 1], i) + if x.LaneWrote? && x.lane == i then [x.offer] else []
  }

  /** The processed events of lane position i, generation after generation. */
  function ByGeneration(log: seq<LogEntry>, i: nat, n: nat): seq<Offer> {
    if n == 0 then [] else ByGeneration(log, i, n - 1) + LaneLog(log, n - 1, i)
  }

  ghost predicate SortedByGeneration(log: seq<LogEntry>, n: nat) {
    && (forall k | 0 <= k < |log| && log[k].LaneWrote? :: log[k].gen < n)
    && (forall j, k | 0 <= j < k < |log| && log[j].LaneWrote? && log[k].LaneWrote? :: log[j].gen <= log[k].gen)
  }

  lemma {:induction false} ByGenerationAppends(log: seq<LogEntry>, x: LogEntry, i: nat, n: nat)
    requires x.LaneWrote? ==> forall k | 0 <= k < |log| && log[k].LaneWrote? :: log[k].gen <= x.gen
    ensures ByGeneration(log + [x], i, n) ==
            ByGeneration(log, i, n) + if x.LaneWrote? && x.lane == i && x.gen < n then [x.offer] else []
  {
    if n > 0 {
      ByGenerationAppends(log, x, i, n - 1);
      AppendLaneLog(log, x, n - 1, i);
      if x.LaneWrote? && x.gen < n - 1 {
        NoEntriesNoLog(log, n - 1, i);
      }
    }
  }

  lemma {:induction false} ByGenerationOfEmpty(i: nat, n: nat)
    ensures ByGeneration([], i, n) == []
  {
    if n > 0 {
      ByGenerationOfEmpty(i, n - 1);
    }
  }

  lemma {:induction false} SortedLogSplits(log: seq<LogEntry>, i: nat, n: nat)
    requires SortedByGeneration(log, n)
    ensures PositionLog(log, i) == ByGeneration(log, i, n)
  {
    if log == [] {
      ByGenerationOfEmpty(i, n);
    } else {
      var init, x := log[..|log| - 1], log[|log| - 1];
      SortedLogSplits(init, i, n);
      assert log == init + [x];
      ByGenerationAppends(init, x, i, n);
    }
  }

  /** Live reconfiguration keeps the order of each route position: in every reachable state,
      all that the workers of position i have written, over every rebuild so far, is the
      processed list of its first lane, then of its second, and so on. */
  lemma ReconfigurationKeepsOrder(s: State, i: nat)
    requires Reachable(s)
    ensures PositionLog(s.traffic.log, i) == ByGeneration(s.traffic.log, i, |s.gens|)
    ensures forall g: nat | HasLane(s, g, i) :: LaneLog(s.traffic.log, g, i) == LaneAt(s, g, i).processed
  {
    ReachableInv(s);
    SortedLogSplits(s.traffic.log, i, |s.gens|);
  }
}
