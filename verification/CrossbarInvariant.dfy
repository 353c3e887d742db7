/**
Every action of the crossbar model keeps its invariant: one lemma per part of the
invariant and kind of action.
*/
module CrossbarInvariant {
  import opened Events
  import opened LaneProtocol
  import opened Routing
  import opened Crossbar

  // ---------------------------------------------------------------- lanes: what one move keeps

  lemma MovesKeepInv(l: Lane, step: Option<Step>, l': Lane)
    requires LaneMoves(l, step, l') && Inv(l)
    ensures Inv(l') && l'.policy == l.policy
  {
    if step.Some? {
      StepKeepsInv(l, step.value);
    }
  }

  lemma OthersLeaveTheWorker(l: Lane, step: Step)
    requires Enabled(l, step) && !WorkerStep(step) && !step.WorkerStarts?
    ensures Apply(l, step).worker == l.worker && Apply(l, step).processed == l.processed
  {
  }

  lemma IdleWorkersRest(l: Lane, step: Step)
    requires Enabled(l, step) && WorkerStep(step)
    ensures WorkerActive(l.worker)
  {
  }

  lemma MovesKeepIdle(l: Lane, step: Option<Step>, l': Lane)
    requires LaneMoves(l, step, l') && !WorkerActive(l.worker) && step != Some(WorkerStarts)
    ensures l'.worker == l.worker && l'.processed == l.processed
  {
    if step.Some? {
      if WorkerStep(step.value) {
        IdleWorkersRest(l, step.value);
      } else {
        OthersLeaveTheWorker(l, step.value);
      }
    }
  }

  lemma MovesKeepClosed(l: Lane, step: Option<Step>, l': Lane)
    requires LaneMoves(l, step, l') && l.closed
    ensures l'.closed
  {
  }

  lemma MovesKeepRefused(l: Lane, step: Option<Step>, l': Lane)
    requires LaneMoves(l, step, l') && NeverRefused(l)
    requires step.Some? && step.value.ReadAccepting? ==> step.value.accepting
    ensures NeverRefused(l')
  {
    if step.Some? {
      ResolveAppends(l, step.value);
    }
  }

  lemma MadeLane(f: Lifecycle, policy: Policy)
    ensures var l := MakeLane(f, policy);
            && Inv(l) && NeverRefused(l) && l.policy == policy && !l.closed && l.drainOnStop
            && l.producers == map[] && l.offers == [] && l.processed == [] && l.resolved == []
            && if f.running then WorkerActive(l.worker) else l.worker.NotStarted?
  {
    NewLaneInv(f.capacity, policy);
    StepKeepsInv(NewLane(f.capacity, policy), WorkerStarts);
  }

  /** A lane of a generation that has just been added. */
  ghost predicate FreshAt(s: State, g: nat, i: nat)
    requires HasLane(s, g, i) && i < |s.gens[g].routes|
  {
    var l := LaneAt(s, g, i);
    && Inv(l) && NeverRefused(l) && l.policy == s.gens[g].routes[i].delivery && !l.closed
    && l.producers == map[] && l.offers == [] && l.processed == [] && l.resolved == []
    && if s.life.running && g == Last(s) then WorkerActive(l.worker) else l.worker.NotStarted?
  }

  lemma NewLanes(s: State, s': State, g: nat, i: nat)
    requires LanesSound(s) && Grows(s, s') && HasLane(s', g, i) && g >= |s.gens|
    ensures |s'.gens[g].lanes| == |s'.gens[g].routes| && FreshAt(s', g, i)
    ensures s'.traffic == s.traffic
  {
    if g == Last(s') {
      MadeLane(s'.life, s'.life.routes[i].delivery);
    } else {
      var l := LaneAt(s, Last(s), i);
      NewLaneInv(l.capacity, l.policy);
    }
  }

  // ---------------------------------------------------------------- LanesSound

  lemma KeepsInv(s: State, s': State, step: Option<Step>, g: nat, i: nat)
    requires LanesSound(s) && Grows(s, s') && HasLane(s, g, i) && HasLane(s', g, i)
    requires LaneMoves(LaneAt(s, g, i), step, LaneAt(s', g, i))
    requires !s'.gens[g].gate.Shut? ==>
               !s.gens[g].gate.Shut? && (step.Some? && step.value.ReadAccepting? ==> step.value.accepting)
    ensures |s'.gens[g].lanes| == |s'.gens[g].routes|
    ensures Inv(LaneAt(s', g, i)) && LaneAt(s', g, i).policy == s'.gens[g].routes[i].delivery
    ensures !s'.gens[g].gate.Shut? ==> NeverRefused(LaneAt(s', g, i))
  {
    var l, l' := LaneAt(s, g, i), LaneAt(s', g, i);
    MovesKeepInv(l, step, l');
    if !s'.gens[g].gate.Shut? {
      MovesKeepRefused(l, step, l');
    }
  }

  /** While a generation's gate is not shut, its producers read `accepting` as true. */
  lemma LaneStepReads(s: State, a: Action, g: nat, i: nat)
    requires Can(s, a) && LanesSound(s) && SparesSound(s) && ThreadsSound(s) && HasLane(s, g, i)
    requires !s.gens[g].gate.Shut?
    ensures var step := LaneStep(s, a, g, i);
            step.Some? && step.value.ReadAccepting? ==> step.value.accepting
  {
    var step := LaneStep(s, a, g, i);
    assert g > 0 && s.gens[g].spare ==> SpareFits(s.gens[g - 1], s.gens[g]);
    if step.Some? && step.value.ReadAccepting? {
      var th := s.traffic.threads[a.t];
      assert ThreadSound(s, th) && GateFits(s, g) && th.at == g;
    }
  }

  lemma KeepsOldIdle(s: State, a: Action, g: nat, i: nat)
    requires Can(s, a) && LanesSound(s) && LifecycleSound(s)
    requires HasLane(s, g, i) && g < Last(Do(s, a))
    ensures HasLane(Do(s, a), g, i)
    ensures !WorkerActive(LaneAt(s, g, i).worker) && LaneAt(Do(s, a), g, i).worker == LaneAt(s, g, i).worker
  {
    DoGrows(s, a);
    Projects(s, a, g, i);
    assert g == Last(s) ==> a.Manage? && Rebuilds(s, a.call);
    assert !WorkerActive(LaneAt(s, g, i).worker);
    MovesKeepIdle(LaneAt(s, g, i), LaneStep(s, a, g, i), LaneAt(Do(s, a), g, i));
  }

  lemma KeepsGates(s: State, a: Action)
    requires Can(s, a) && LanesSound(s)
    ensures forall g | 0 <= g < |Do(s, a).gens| :: GateFits(Do(s, a), g)
  {
    DoGrows(s, a);
    var s' := Do(s, a);
    forall g | 0 <= g < |s'.gens| ensures GateFits(s', g) {
      if g < |s.gens| {
        assert GateFits(s, g);
      } else {
        assert GateFits(s, Last(s));
      }
    }
  }

  lemma KeepsLaneSound(s: State, a: Action, g: nat, i: nat)
    requires Can(s, a) && LanesSound(s) && SparesSound(s) && ThreadsSound(s) && LifecycleSound(s)
    requires HasLane(Do(s, a), g, i)
    ensures var s' := Do(s, a);
            && |s'.gens[g].lanes| == |s'.gens[g].routes|
            && Inv(LaneAt(s', g, i)) && LaneAt(s', g, i).policy == s'.gens[g].routes[i].delivery
            && (!s'.gens[g].gate.Shut? ==> NeverRefused(LaneAt(s', g, i)))
            && (g < Last(s') ==> !WorkerActive(LaneAt(s', g, i).worker))
  {
    var s' := Do(s, a);
    DoGrows(s, a);
    if HasLane(s, g, i) {
      Projects(s, a, g, i);
      if !s'.gens[g].gate.Shut? {
        LaneStepReads(s, a, g, i);
      }
      KeepsInv(s, s', LaneStep(s, a, g, i), g, i);
      if g < Last(s') {
        KeepsOldIdle(s, a, g, i);
      }
    } else {
      NewLanes(s, s', g, i);
    }
  }

  lemma KeepsRoutes(s: State, a: Action)
    requires Can(s, a) && LanesSound(s)
    ensures forall g | 0 <= g < |Do(s, a).gens| :: |Do(s, a).gens[g].lanes| == |Do(s, a).gens[g].routes|
  {
    DoGrows(s, a);
  }

  lemma KeepsLanesSound(s: State, a: Action)
    requires Can(s, a) && LanesSound(s) && SparesSound(s) && ThreadsSound(s) && LifecycleSound(s)
    ensures LanesSound(Do(s, a))
  {
    var s' := Do(s, a);
    DoGrows(s, a);
    KeepsGates(s, a);
    KeepsRoutes(s, a);
    forall g: nat, i: nat | HasLane(s', g, i)
      ensures Inv(LaneAt(s', g, i)) && LaneAt(s', g, i).policy == s'.gens[g].routes[i].delivery
              && (!s'.gens[g].gate.Shut? ==> NeverRefused(LaneAt(s', g, i)))
              && (g < Last(s') ==> !WorkerActive(LaneAt(s', g, i).worker))
    {
      KeepsLaneSound(s, a, g, i);
    }
  }

  // ---------------------------------------------------------------- SparesSound

  lemma OldSpareStays(s: State, a: Action, g: nat)
    requires Can(s, a) && LanesSound(s) && SparesSound(s) && LifecycleSound(s)
    requires 0 < g < |s.gens| && s.gens[g].spare
    ensures 0 < g < |Do(s, a).gens| && SpareFits(Do(s, a).gens[g - 1], Do(s, a).gens[g])
  {
    var s' := Do(s, a);
    DoGrows(s, a);
    assert SpareFits(s.gens[g - 1], s.gens[g]);
    forall i: nat | i < |s.gens[g].lanes|
      ensures s'.gens[g].lanes[i].worker == s.gens[g].lanes[i].worker
      ensures s'.gens[g - 1].lanes[i].worker == s.gens[g - 1].lanes[i].worker
      ensures s.gens[g - 1].lanes[i].closed ==> s'.gens[g - 1].lanes[i].closed
    {
      StoppedLaneStays(s, a, g, i);
      StoppedLaneStays(s, a, g - 1, i);
    }
    ShutStays(s, a, g);
    StillFits(s.gens[g - 1], s.gens[g], s'.gens[g - 1], s'.gens[g]);
  }

  lemma ShutStays(s: State, a: Action, g: nat)
    requires Can(s, a) && g < |s.gens| && s.gens[g].gate.Shut?
    ensures g < |Do(s, a).gens| && Do(s, a).gens[g].gate.Shut?
  {
    DoGrows(s, a);
  }

  lemma StillFits(stopped: Generation, spare: Generation, stopped': Generation, spare': Generation)
    requires SpareFits(stopped, spare)
    requires |stopped'.lanes| == |stopped.lanes| && |spare'.lanes| == |spare.lanes|
    requires stopped'.routes == stopped.routes && spare'.routes == spare.routes && spare'.gate.Shut?
    requires forall i: nat | i < |spare.lanes| ::
               && spare'.lanes[i].worker == spare.lanes[i].worker
               && stopped'.lanes[i].worker == stopped.lanes[i].worker
               && (stopped.lanes[i].closed ==> stopped'.lanes[i].closed)
    ensures SpareFits(stopped', spare')
  {
  }

  lemma StoppedLaneStays(s: State, a: Action, g: nat, i: nat)
    requires Can(s, a) && LanesSound(s) && LifecycleSound(s) && HasLane(s, g, i) && g <= Last(s)
    requires g < Last(Do(s, a))
    ensures HasLane(Do(s, a), g, i)
    ensures LaneAt(Do(s, a), g, i).worker == LaneAt(s, g, i).worker
    ensures LaneAt(s, g, i).closed ==> LaneAt(Do(s, a), g, i).closed
  {
    KeepsOldIdle(s, a, g, i);
    Projects(s, a, g, i);
    if LaneAt(s, g, i).closed {
      MovesKeepClosed(LaneAt(s, g, i), LaneStep(s, a, g, i), LaneAt(Do(s, a), g, i));
    }
  }

  lemma NewSpareFits(s: State, a: LifecycleAction)
    requires CanCall(s, a) && LanesSound(s) && LifecycleSound(s) && LeavesSpare(s, a)
    ensures |DoCall(s, a).gens| == |s.gens| + 2 && SpareFits(DoCall(s, a).gens[Last(s)], DoCall(s, a).gens[|s.gens|])
  {
    DoGrows(s, Manage(a));
    assert StoppingSound(s);
    forall i: nat | HasLane(s, Last(s), i)
      ensures LaneAt(s, Last(s), i).closed && LaneAt(s, Last(s), i).worker != Exited(true)
    {
      assert LaneAt(s, Last(s), i).closed <==> ClosedSoFar(s.life.control, i);
    }
    var spare := DoCall(s, a).gens[|s.gens|];
    forall i: nat | i < |spare.lanes|
      ensures LaneAt(s, Last(s), i).closed && LaneAt(s, Last(s), i).worker != Exited(true)
    {
      assert HasLane(s, Last(s), i);
    }
  }

  /** A generation replaced without spare queues has no worker that was told to discard. */
  lemma DiscardedHasSpare(s: State, a: Action, g: nat, i: nat)
    requires Can(s, a) && LanesSound(s) && SparesSound(s) && LifecycleSound(s)
    requires HasLane(s, g, i) && g < Last(Do(s, a)) && LaneAt(s, g, i).worker == Exited(false)
    ensures HasSpare(Do(s, a), g)
  {
    DoGrows(s, a);
    if g == Last(s) {
      assert a.Manage? && Rebuilds(s, a.call);
      assert s.life.control.Stopping? ==> StoppingSound(s);
    }
  }

  lemma KeepsSparesSound(s: State, a: Action)
    requires Can(s, a) && LanesSound(s) && SparesSound(s) && LifecycleSound(s)
    ensures SparesSound(Do(s, a))
  {
    var s' := Do(s, a);
    DoGrows(s, a);
    forall g | 0 < g < |s'.gens| && s'.gens[g].spare
      ensures !s'.gens[g - 1].spare && SpareFits(s'.gens[g - 1], s'.gens[g])
    {
      if g < |s.gens| {
        OldSpareStays(s, a, g);
      } else {
        NewSpareFits(s, a.call);
      }
    }
    forall g: nat, i: nat | HasLane(s', g, i) && g < Last(s') && LaneAt(s', g, i).worker == Exited(false)
      ensures HasSpare(s', g)
    {
      if HasLane(s, g, i) {
        KeepsOldIdle(s, a, g, i);
        DiscardedHasSpare(s, a, g, i);
      } else {
        NewLanes(s, s', g, i);
      }
    }
  }

  // ---------------------------------------------------------------- ThreadsSound and Fed

  /** Steps of the worker and of lifecycle calls leave the producers' side of a lane alone. */
  lemma OtherStepsKeepTraffic(l: Lane, step: Step)
    requires Enabled(l, step)
    requires WorkerStep(step) || step.WorkerStarts? || step.SetDrain? || step.CloseQueue? || step.RequestStop?
    ensures Apply(l, step).producers == l.producers && Apply(l, step).offers == l.offers
    ensures Apply(l, step).resolved == l.resolved
  {
  }

  lemma OtherActionsKeepTraffic(s: State, a: Action, g: nat, i: nat)
    requires Can(s, a) && !a.Producer? && HasLane(s, g, i) && s.gens != []
    ensures HasLane(Do(s, a), g, i)
    ensures LaneAt(Do(s, a), g, i).producers == LaneAt(s, g, i).producers
    ensures LaneAt(Do(s, a), g, i).offers == LaneAt(s, g, i).offers
    ensures LaneAt(Do(s, a), g, i).resolved == LaneAt(s, g, i).resolved
    ensures Do(s, a).traffic.threads == s.traffic.threads && Do(s, a).traffic.submitted == s.traffic.submitted
  {
    Projects(s, a, g, i);
    var step := LaneStep(s, a, g, i);
    if step.Some? {
      assert WorkerStep(step.value) || step.value.WorkerStarts? || step.value.SetDrain?
             || step.value.CloseQueue? || step.value.RequestStop?;
      OtherStepsKeepTraffic(LaneAt(s, g, i), step.value);
    }
  }

  lemma {:induction false} NoCallsNoSelection(calls: seq<Call>, t: Tid, g: nat, i: nat)
    requires forall k | 0 <= k < |calls| :: calls[k].gen != g
    ensures Selected(calls, t, g, i) == []
  {
    if calls != [] {
      NoCallsNoSelection(calls[..|calls| - 1], t, g, i);
    }
  }

  lemma ThreadStays(s: State, s': State, th: Submission)
    requires ThreadSound(s, th) && Grows(s, s')
    requires forall g | 0 <= g < |s.gens| :: s'.gens[g].gate.Unopened? ==> s.gens[g].gate.Unopened?
    ensures ThreadSound(s', th)
  {
  }

  lemma OtherActionsKeepThreads(s: State, a: Action)
    requires Can(s, a) && !a.Producer? && CrossbarInv(s)
    ensures ThreadsSound(Do(s, a)) && CallsSound(Do(s, a)) && Fed(Do(s, a))
  {
    var s' := Do(s, a);
    OtherActionsKeepPcs(s, a);
    forall t: Tid, g: nat, i: nat | HasLane(s', g, i)
      ensures LaneFed(s', t, g, i)
    {
      OtherActionKeepsFeed(s, a, t, g, i);
    }
  }

  lemma OtherActionsKeepPcs(s: State, a: Action)
    requires Can(s, a) && !a.Producer? && s.gens != [] && ThreadsSound(s) && CallsSound(s)
    ensures ThreadsSound(Do(s, a)) && CallsSound(Do(s, a))
  {
    var s' := Do(s, a);
    DoGrows(s, a);
    assert s'.traffic.threads == s.traffic.threads && s'.traffic.submitted == s.traffic.submitted;
    forall t | t in s'.traffic.threads ensures ThreadSound(s', s'.traffic.threads[t]) {
      ThreadStays(s, s', s.traffic.threads[t]);
    }
  }

  lemma OtherActionKeepsFeed(s: State, a: Action, t: Tid, g: nat, i: nat)
    requires Can(s, a) && !a.Producer? && CrossbarInv(s) && HasLane(Do(s, a), g, i)
    ensures LaneFed(Do(s, a), t, g, i)
  {
    var s' := Do(s, a);
    DoGrows(s, a);
    if HasLane(s, g, i) {
      assert LaneFed(s, t, g, i);
      OtherActionKeepsOffers(s, a, t, g, i);
    } else {
      NewLanes(s, s', g, i);
      NothingForNewLanes(s, s', t, g, i);
    }
  }

  lemma OtherActionKeepsOffers(s: State, a: Action, t: Tid, g: nat, i: nat)
    requires Can(s, a) && !a.Producer? && LanesSound(s) && SparesSound(s) && HasLane(s, g, i)
    ensures HasLane(Do(s, a), g, i) && OffersTo(Do(s, a), t, g, i) == OffersTo(s, t, g, i)
    ensures Pending(Do(s, a), t, g, i) == Pending(s, t, g, i)
    ensures Inside(Do(s, a), t, g, i) == Inside(s, t, g, i)
    ensures LaneAt(Do(s, a), g, i).producers == LaneAt(s, g, i).producers
    ensures Do(s, a).gens[g].spare == s.gens[g].spare && Do(s, a).traffic.submitted == s.traffic.submitted
  {
    DoGrows(s, a);
    OtherActionsKeepTraffic(s, a, g, i);
    SpareOffersStay(s, a, t, g, i);
  }

  lemma SpareOffersStay(s: State, a: Action, t: Tid, g: nat, i: nat)
    requires Can(s, a) && !a.Producer? && LanesSound(s) && g < |s.gens|
    ensures SpareOffers(Do(s, a), t, g, i) == SpareOffers(s, t, g, i)
  {
    DoGrows(s, a);
    if g + 1 < |s.gens| {
      OldSpareOffersStay(s, a, t, g, i);
    } else if HasLane(Do(s, a), g + 1, i) {
      NewLanes(s, Do(s, a), g + 1, i);
    }
  }

  lemma OldSpareOffersStay(s: State, a: Action, t: Tid, g: nat, i: nat)
    requires Can(s, a) && !a.Producer? && s.gens != [] && g + 1 < |s.gens| && Grows(s, Do(s, a))
    ensures SpareOffers(Do(s, a), t, g, i) == SpareOffers(s, t, g, i)
  {
    if HasLane(s, g + 1, i) {
      OtherActionsKeepTraffic(s, a, g + 1, i);
    }
  }

  lemma NothingForNewLanes(s: State, s': State, t: Tid, g: nat, i: nat)
    requires CrossbarInv(s) && Grows(s, s') && s'.traffic == s.traffic && g >= |s.gens|
    ensures Pending(s', t, g, i) == [] && Selected(s'.traffic.submitted, t, g, i) == [] && !Inside(s', t, g, i)
    ensures HasSpare(s', g) ==> false
  {
    NoCallsNoSelection(s'.traffic.submitted, t, g, i);
    if t in s.traffic.threads {
      assert ThreadSound(s, s.traffic.threads[t]);
    }
  }

  lemma AppendSelected(calls: seq<Call>, c: Call, t: Tid, g: nat, i: nat)
    ensures Selected(calls + [c], t, g, i) ==
            Selected(calls, t, g, i)
            + if c.offer.producer == t && c.gen == g && i in c.mask && i < ROUTE_LIMIT then [c.offer] else []
  {
    assert (calls + [c])[..|calls|] == calls;
  }

  /** A producer step concerns its own thread: it enters the lane with Begin, may leave it
      with any other step, and only Begin records an offer. */
  lemma ProducerStepLocal(l: Lane, t: Tid, step: Step, u: Tid)
    requires Enabled(l, step)
    requires step.Begin? || step.ReadAccepting? || step.LoadSize? || step.GiveUpReserve? || step.CasSucceeds?
             || step.CasFails? || step.Push? || step.ReleaseFailed? || step.WakeForSpace?
    requires step.t == t
    ensures u != t ==> (u in Apply(l, step).producers <==> u in l.producers)
    ensures step.Begin? ==> t in Apply(l, step).producers
    ensures By(u, Apply(l, step).offers) ==
            By(u, l.offers) + if step.Begin? && u == t then [Offer(t, step.event)] else []
  {
    if step.Begin? {
      AppendBy(u, l.offers, Offer(t, step.event));
    }
  }

  lemma OutsideKeepsFed(s: State, t: Tid, a: ProducerAction, u: Tid, g: nat, i: nat)
    requires CanProduce(s, t, a) && !a.LaneEntered? && !a.InsideLane?
    requires HasLane(s, g, i) && LaneFed(s, u, g, i)
    ensures HasLane(Produce(s, t, a), g, i) && LaneFed(Produce(s, t, a), u, g, i)
  {
    if a.SubmitBegins? {
      BeginningKeepsFed(s, t, a, u, g, i);
    }
  }

  lemma BeginningKeepsFed(s: State, t: Tid, a: ProducerAction, u: Tid, g: nat, i: nat)
    requires CanProduce(s, t, a) && a.SubmitBegins? && HasLane(s, g, i) && LaneFed(s, u, g, i)
    ensures HasLane(Produce(s, t, a), g, i) && LaneFed(Produce(s, t, a), u, g, i)
  {
    var s', c := Produce(s, t, a), Call(Offer(t, a.event), a.mask, a.gen);
    var news := if u == t && a.gen == g && i in a.mask && i < ROUTE_LIMIT then [c.offer] else [];
    AppendSelected(s.traffic.submitted, c, u, g, i);
    assert s'.gens == s.gens;
    assert Pending(s', u, g, i) == Pending(s, u, g, i) + news;
    OffersAssoc(OffersTo(s, u, g, i), Pending(s, u, g, i), news);
  }

  lemma OffersAssoc(a: seq<Offer>, b: seq<Offer>, c: seq<Offer>)
    ensures a + (b + c) == a + b + c
  {
  }

  lemma EnteredOffers(s: State, t: Tid, u: Tid, h: nat, i: nat)
    requires CanProduce(s, t, LaneEntered) && HasLane(s, h, i)
    ensures var s', th := Produce(s, t, LaneEntered), s.traffic.threads[t];
            var entered := h == Target(s, th.gen) && i == th.next;
            && HasLane(s', h, i)
            && (u in LaneAt(s', h, i).producers <==> u in LaneAt(s, h, i).producers || (entered && u == t))
            && By(u, LaneAt(s', h, i).offers) ==
               By(u, LaneAt(s, h, i).offers) + if entered && u == t then [Offer(t, th.event)] else []
  {
    var th := s.traffic.threads[t];
    if h == Target(s, th.gen) && i == th.next {
      ProducerStepLocal(LaneAt(s, h, i), t, Begin(t, th.event), u);
    }
  }

  lemma EnteredSpareOffers(s: State, t: Tid, u: Tid, g: nat, i: nat)
    requires CanProduce(s, t, LaneEntered)
    ensures var s', th := Produce(s, t, LaneEntered), s.traffic.threads[t];
            var entered := HasSpare(s, g) && Target(s, th.gen) == g + 1 && i == th.next;
            SpareOffers(s', u, g, i) ==
            SpareOffers(s, u, g, i) + if entered && u == t then [Offer(t, th.event)] else []
  {
    if HasLane(s, g + 1, i) {
      EnteredOffers(s, t, u, g + 1, i);
    }
  }

  /** A lane list and the spare queues that replaced its own are entered through that list. */
  lemma TargetIsOwn(s: State, gen: nat, g: nat)
    requires g < |s.gens| && gen < |s.gens| && !s.gens[g].spare && !s.gens[gen].spare
    ensures Target(s, gen) == g <==> gen == g && !HasSpare(s, g)
    ensures Target(s, gen) == g + 1 && HasSpare(s, g) <==> gen == g && HasSpare(s, g)
  {
  }

  lemma EnteredOffersTo(s: State, t: Tid, u: Tid, g: nat, i: nat)
    requires CanProduce(s, t, LaneEntered) && ThreadsSound(s) && HasLane(s, g, i) && !s.gens[g].spare
    ensures var s', th := Produce(s, t, LaneEntered), s.traffic.threads[t];
            && HasLane(s', g, i)
            && OffersTo(s', u, g, i) ==
               OffersTo(s, u, g, i) + if u == t && g == th.gen && i == th.next then [Offer(t, th.event)] else []
  {
    var th := s.traffic.threads[t];
    assert ThreadSound(s, th);
    TargetIsOwn(s, th.gen, g);
    EnteredOffers(s, t, u, g, i);
    EnteredSpareOffers(s, t, u, g, i);
    SumGrows(By(u, LaneAt(s, g, i).offers), SpareOffers(s, u, g, i), Offer(t, th.event), !HasSpare(s, g));
  }

  lemma SumGrows(a: seq<Offer>, b: seq<Offer>, o: Offer, first: bool)
    requires first ==> b == []
    ensures first ==> (a + [o]) + (b + []) == (a + b) + [o]
    ensures !first ==> (a + []) + (b + [o]) == (a + b) + [o]
    ensures (a + []) + (b + []) == (a + b) + []
  {
  }

  lemma EnteringKeepsFed(s: State, t: Tid, u: Tid, g: nat, i: nat)
    requires CanProduce(s, t, LaneEntered) && ThreadsSound(s)
    requires HasLane(s, g, i) && LaneFed(s, u, g, i)
    ensures HasLane(Produce(s, t, LaneEntered), g, i) && LaneFed(Produce(s, t, LaneEntered), u, g, i)
  {
    var s', th := Produce(s, t, LaneEntered), s.traffic.threads[t];
    EnteredOffers(s, t, u, g, i);
    if !s.gens[g].spare {
      EnteredOffersTo(s, t, u, g, i);
      var news := if u == t && g == th.gen && i == th.next then [Offer(t, th.event)] else [];
      assert ThreadSound(s, th);
      assert Pending(s, u, g, i) == news + Pending(s', u, g, i);
      OffersAssoc(OffersTo(s, u, g, i), news, Pending(s', u, g, i));
    }
  }

  lemma InsideOffers(s: State, t: Tid, step: Step, u: Tid, h: nat, i: nat)
    requires CanProduce(s, t, InsideLane(step)) && HasLane(s, h, i)
    ensures var s', th := Produce(s, t, InsideLane(step)), s.traffic.threads[t];
            && HasLane(s', h, i) && By(u, LaneAt(s', h, i).offers) == By(u, LaneAt(s, h, i).offers)
            && (u != t || h != th.at || i != th.next ==>
                  (u in LaneAt(s', h, i).producers <==> u in LaneAt(s, h, i).producers))
            && (u == t && h == th.at && i == th.next ==>
                  (u in LaneAt(s', h, i).producers <==> s'.traffic.threads[t].inside))
  {
    var th, s' := s.traffic.threads[t], Produce(s, t, InsideLane(step));
    if h == th.at && i == th.next {
      ProducerStepLocal(LaneAt(s, h, i), t, step, u);
    } else {
      assert LaneAt(s', h, i) == LaneAt(s, h, i);
    }
  }

  lemma InsideKeepsFed(s: State, t: Tid, step: Step, u: Tid, g: nat, i: nat)
    requires CanProduce(s, t, InsideLane(step))
    requires HasLane(s, g, i) && LaneFed(s, u, g, i)
    ensures HasLane(Produce(s, t, InsideLane(step)), g, i) && LaneFed(Produce(s, t, InsideLane(step)), u, g, i)
  {
    var s' := Produce(s, t, InsideLane(step));
    InsideOffers(s, t, step, u, g, i);
    if HasSpare(s, g) && HasLane(s, g + 1, i) {
      InsideOffers(s, t, step, u, g + 1, i);
    }
    assert OffersTo(s', u, g, i) == OffersTo(s, u, g, i);
    assert Pending(s', u, g, i) == Pending(s, u, g, i);
  }

  lemma ProducerKeepsFed(s: State, t: Tid, a: ProducerAction, u: Tid, g: nat, i: nat)
    requires CanProduce(s, t, a) && ThreadsSound(s) && HasLane(s, g, i) && LaneFed(s, u, g, i)
    ensures HasLane(Produce(s, t, a), g, i) && LaneFed(Produce(s, t, a), u, g, i)
  {
    match a
    case LaneEntered => EnteringKeepsFed(s, t, u, g, i);
    case InsideLane(step) => InsideKeepsFed(s, t, step, u, g, i);
    case _ => OutsideKeepsFed(s, t, a, u, g, i);
  }

  lemma ProducerKeepsPcs(s: State, t: Tid, a: ProducerAction)
    requires CanProduce(s, t, a) && s.gens != [] && ThreadsSound(s) && CallsSound(s)
    ensures ThreadsSound(Produce(s, t, a)) && CallsSound(Produce(s, t, a))
  {
    var s' := Produce(s, t, a);
    DoGrows(s, Producer(t, a));
    forall u | u in s'.traffic.threads ensures ThreadSound(s', s'.traffic.threads[u]) {
      if u in s.traffic.threads {
        ThreadStays(s, s', s.traffic.threads[u]);
      }
    }
  }

  lemma ProducerKeepsThreads(s: State, t: Tid, a: ProducerAction)
    requires CanProduce(s, t, a) && s.gens != [] && ThreadsSound(s) && CallsSound(s) && Fed(s)
    ensures ThreadsSound(Produce(s, t, a)) && CallsSound(Produce(s, t, a)) && Fed(Produce(s, t, a))
  {
    var s' := Produce(s, t, a);
    ProducerKeepsPcs(s, t, a);
    DoGrows(s, Producer(t, a));
    forall u: Tid, g: nat, i: nat | HasLane(s', g, i) ensures LaneFed(s', u, g, i) {
      assert LaneFed(s, u, g, i);
      ProducerKeepsFed(s, t, a, u, g, i);
    }
  }

  // ---------------------------------------------------------------- LifecycleSound

  /** A step that a producer or a worker makes in a lane. */
  predicate TrafficStep(step: Step) {
    WorkerStep(step) || step.Begin? || step.ReadAccepting? || step.LoadSize? || step.GiveUpReserve?
    || step.CasSucceeds? || step.CasFails? || step.Push? || step.ReleaseFailed? || step.WakeForSpace?
  }

  /** How traffic can change the phase of a lane: a worker may leave, and only a closed lane. */
  ghost predicate SamePhase(l: Lane, l': Lane) {
    && l'.closed == l.closed && l'.drainOnStop == l.drainOnStop
    && (l.worker.NotStarted? <==> l'.worker.NotStarted?)
    && (!WorkerActive(l.worker) ==> l'.worker == l.worker)
    && (!l.closed && WorkerActive(l.worker) ==> WorkerActive(l'.worker))
    && (WorkerActive(l.worker) && l'.worker.Exited? ==> l'.worker.drained == l.drainOnStop)
  }

  lemma TrafficKeepsPhase(l: Lane, step: Step)
    requires Enabled(l, step) && TrafficStep(step) && Inv(l)
    ensures SamePhase(l, Apply(l, step))
  {
  }

  lemma TrafficProjects(s: State, a: Action, g: nat, i: nat)
    requires Can(s, a) && !a.Manage? && LanesSound(s) && HasLane(s, g, i)
    ensures HasLane(Do(s, a), g, i) && SamePhase(LaneAt(s, g, i), LaneAt(Do(s, a), g, i))
  {
    Projects(s, a, g, i);
    var step := LaneStep(s, a, g, i);
    if step.Some? {
      TrafficKeepsPhase(LaneAt(s, g, i), step.value);
    }
  }

  lemma LifecycleTransfers(s: State, s': State)
    requires LifecycleSound(s) && Grows(s, s') && s'.life == s.life && |s'.gens| == |s.gens|
    requires forall i: nat | HasLane(s, Last(s), i) :: SamePhase(LaneAt(s, Last(s), i), LaneAt(s', Last(s), i))
    ensures LifecycleSound(s')
  {
  }

  lemma TrafficKeepsLifecycle(s: State, a: Action)
    requires Can(s, a) && !a.Manage? && LanesSound(s) && LifecycleSound(s)
    ensures LifecycleSound(Do(s, a))
  {
    var s' := Do(s, a);
    DoGrows(s, a);
    forall i: nat | HasLane(s, Last(s), i) ensures SamePhase(LaneAt(s, Last(s), i), LaneAt(s', Last(s), i)) {
      TrafficProjects(s, a, Last(s), i);
    }
    LifecycleTransfers(s, s');
  }

  lemma RebuildKeepsLifecycle(s: State, a: LifecycleAction)
    requires CanCall(s, a) && LifecycleSound(s) && Rebuilds(s, a)
    ensures LifecycleSound(DoCall(s, a))
  {
    var s' := DoCall(s, a);
    DoGrows(s, Manage(a));
    forall i: nat | HasLane(s', Last(s'), i)
      ensures var l := LaneAt(s', Last(s'), i);
              !l.closed && if s'.life.running then WorkerActive(l.worker) else l.worker.NotStarted?
    {
      MadeLane(s'.life, s'.life.routes[i].delivery);
    }
  }

  /** The fields of a lane that a lifecycle section may set, all given. */
  ghost predicate PhaseIs(l: Lane, closed: bool, drainOnStop: bool, worker: WorkerPc) {
    l.closed == closed && l.drainOnStop == drainOnStop && l.worker == worker
  }

  lemma StartTransfers(s: State, s': State)
    requires LifecycleSound(s) && s.life.control.Quiet? && Grows(s, s') && |s'.gens| == |s.gens|
    requires s'.life == s.life.(pipelineRunning := true, running := true)
    requires forall i: nat | HasLane(s, Last(s), i) ::
               var l, l' := LaneAt(s, Last(s), i), LaneAt(s', Last(s), i);
               PhaseIs(l', l.closed, l'.drainOnStop, if s.life.running then l.worker else Popping)
    ensures LifecycleSound(s')
  {
  }

  lemma StopTransfers(s: State, s': State, drain: bool, goal: Goal)
    requires LifecycleSound(s) && s.life.control.Quiet? && Grows(s, s') && |s'.gens| == |s.gens|
    requires s'.life.control == StopFrom(s, drain, goal) && !s'.life.running
    requires match goal
             case Recreate => !s'.life.pipelineRunning && s'.life.routes == s.life.routes
             case Restart => s.life.running && s'.life.pipelineRunning && drain
    requires forall i: nat | HasLane(s, Last(s), i) ::
               var l, l' := LaneAt(s, Last(s), i), LaneAt(s', Last(s), i);
               PhaseIs(l', l.closed, drain, l.worker)
    ensures LifecycleSound(s')
  {
  }

  lemma StartKeepsLifecycle(s: State)
    requires CanCall(s, StartCall) && LifecycleSound(s)
    ensures LifecycleSound(DoCall(s, StartCall))
  {
    var s' := DoCall(s, StartCall);
    DoGrows(s, Manage(StartCall));
    forall i: nat | HasLane(s, Last(s), i)
      ensures var l, l' := LaneAt(s, Last(s), i), LaneAt(s', Last(s), i);
              PhaseIs(l', l.closed, l'.drainOnStop, if s.life.running then l.worker else Popping)
    {
      Projects(s, Manage(StartCall), Last(s), i);
    }
    StartTransfers(s, s');
  }

  lemma StopKeepsLifecycle(s: State, a: LifecycleAction)
    requires CanCall(s, a) && LifecycleSound(s) && !Rebuilds(s, a)
    requires a.StopCall? || a.AddRouteCall? || a.ClearRoutesCall?
    ensures LifecycleSound(DoCall(s, a))
  {
    var s' := DoCall(s, a);
    DoGrows(s, Manage(a));
    var drain := if a.StopCall? then a.drain else true;
    forall i: nat | HasLane(s, Last(s), i)
      ensures var l, l' := LaneAt(s, Last(s), i), LaneAt(s', Last(s), i);
              PhaseIs(l', l.closed, drain, l.worker)
    {
      Projects(s, Manage(a), Last(s), i);
    }
    StopTransfers(s, s', drain, if a.StopCall? then Recreate else Restart);
  }

  lemma ProgressTransfers(s: State, s': State)
    requires LifecycleSound(s) && s.life.control.Stopping? && Grows(s, s') && |s'.gens| == |s.gens|
    requires s'.life.control.Stopping? && s'.life == s.life.(control := s'.life.control)
    requires var c, c' := s.life.control, s'.life.control;
             && c'.drain == c.drain && c'.goal == c.goal
             && c'.next <= |s.gens[Last(s)].lanes|
             && (c'.phase.Joining? || c'.next < |s.gens[Last(s)].lanes|)
             && (c'.phase.Joining? ==> c'.next == 0 || c.phase.Joining?)
    requires forall i: nat | HasLane(s, Last(s), i) ::
               var l, l', c' := LaneAt(s, Last(s), i), LaneAt(s', Last(s), i), s'.life.control;
               && PhaseIs(l', l'.closed, l.drainOnStop, l.worker)
               && (l'.closed <==> ClosedSoFar(c', i))
               && (c'.phase.Joining? && i < c'.next ==> !WorkerActive(l.worker))
    ensures LifecycleSound(s')
  {
  }

  lemma ProgressAtLane(s: State, a: LifecycleAction, i: nat)
    requires CanCall(s, a) && LifecycleSound(s) && HasLane(s, Last(s), i)
    requires a.CloseLane? || a.RequestStopLane? || a.JoinLane?
    ensures HasLane(DoCall(s, a), Last(s), i) && DoCall(s, a).life.control.Stopping?
    ensures var l, l', c' := LaneAt(s, Last(s), i), LaneAt(DoCall(s, a), Last(s), i), DoCall(s, a).life.control;
            && PhaseIs(l', l'.closed, l.drainOnStop, l.worker)
            && (l'.closed <==> ClosedSoFar(c', i))
            && (c'.phase.Joining? && i < c'.next ==> !WorkerActive(l.worker))
  {
    Projects(s, Manage(a), Last(s), i);
    assert StoppingSound(s);
    assert LaneAt(s, Last(s), i).closed <==> ClosedSoFar(s.life.control, i);
  }

  lemma ProgressKeepsLifecycle(s: State, a: LifecycleAction)
    requires CanCall(s, a) && LifecycleSound(s)
    requires a.CloseLane? || a.RequestStopLane? || a.JoinLane?
    ensures LifecycleSound(DoCall(s, a))
  {
    DoGrows(s, Manage(a));
    forall i: nat | HasLane(s, Last(s), i)
      ensures var l, l', c' := LaneAt(s, Last(s), i), LaneAt(DoCall(s, a), Last(s), i), DoCall(s, a).life.control;
              && PhaseIs(l', l'.closed, l.drainOnStop, l.worker)
              && (l'.closed <==> ClosedSoFar(c', i))
              && (c'.phase.Joining? && i < c'.next ==> !WorkerActive(l.worker))
    {
      ProgressAtLane(s, a, i);
    }
    ProgressTransfers(s, DoCall(s, a));
  }

  lemma RestKeepsLifecycle(s: State, a: LifecycleAction)
    requires CanCall(s, a) && LifecycleSound(s) && LanesSound(s) && !Rebuilds(s, a)
    requires a.SetAccepting? || a.ConfigureCall? || a.DropQueue?
    ensures LifecycleSound(DoCall(s, a))
  {
    var s' := DoCall(s, a);
    DoGrows(s, Manage(a));
    forall i: nat | HasLane(s, Last(s), i) ensures LaneAt(s', Last(s), i) == LaneAt(s, Last(s), i) {
      Projects(s, Manage(a), Last(s), i);
    }
  }

  lemma KeepsLifecycleSound(s: State, a: Action)
    requires Can(s, a) && LanesSound(s) && LifecycleSound(s)
    ensures LifecycleSound(Do(s, a))
  {
    if !a.Manage? {
      TrafficKeepsLifecycle(s, a);
    } else if Rebuilds(s, a.call) {
      RebuildKeepsLifecycle(s, a.call);
    } else if a.call.StartCall? {
      StartKeepsLifecycle(s);
    } else if a.call.StopCall? || a.call.AddRouteCall? || a.call.ClearRoutesCall? {
      StopKeepsLifecycle(s, a.call);
    } else if a.call.CloseLane? || a.call.RequestStopLane? || a.call.JoinLane? {
      ProgressKeepsLifecycle(s, a.call);
    } else {
      RestKeepsLifecycle(s, a.call);
    }
  }

  // ---------------------------------------------------------------- LogSound

  lemma AppendLaneLog(log: seq<LogEntry>, x: LogEntry, g: nat, i: nat)
    ensures LaneLog(log + [x], g, i) ==
            LaneLog(log, g, i) + if x.LaneWrote? && x.gen == g && x.lane == i then [x.offer] else []
  {
    assert (log + [x])[..|log|] == log;
  }

  lemma {:induction false} NoEntriesNoLog(log: seq<LogEntry>, g: nat, i: nat)
    requires forall k | 0 <= k < |log| && log[k].LaneWrote? :: log[k].gen != g
    ensures LaneLog(log, g, i) == []
  {
    if log != [] {
      NoEntriesNoLog(log[..|log| - 1], g, i);
    }
  }

  lemma OnlyProcessingProcesses(l: Lane, step: Option<Step>, l': Lane)
    requires LaneMoves(l, step, l') && step != Some(WorkerProcesses)
    ensures l'.processed == l.processed
  {
  }

  /** An action adds to a lane's log exactly what its worker processes. */
  lemma LogMoves(s: State, a: Action, g: nat, i: nat)
    requires Can(s, a) && s.gens != [] && HasLane(s, g, i)
    ensures var step, l := LaneStep(s, a, g, i), LaneAt(s, g, i);
            && (step == Some(WorkerProcesses) ==> l.worker.Processing?)
            && LaneLog(Do(s, a).traffic.log, g, i) ==
               LaneLog(s.traffic.log, g, i) + if step == Some(WorkerProcesses) then [l.worker.offer] else []
  {
    var log, log' := s.traffic.log, Do(s, a).traffic.log;
    if log' != log {
      AppendLaneLog(log, log'[|log|], g, i);
    }
  }

  lemma KeepsLaneLog(s: State, a: Action, g: nat, i: nat)
    requires Can(s, a) && LanesSound(s) && LogSound(s) && HasLane(Do(s, a), g, i)
    ensures LaneLog(Do(s, a).traffic.log, g, i) == LaneAt(Do(s, a), g, i).processed
  {
    var s' := Do(s, a);
    DoGrows(s, a);
    if HasLane(s, g, i) {
      Projects(s, a, g, i);
      var l, step := LaneAt(s, g, i), LaneStep(s, a, g, i);
      if step != Some(WorkerProcesses) {
        OnlyProcessingProcesses(l, step, LaneAt(s', g, i));
      }
      LogMoves(s, a, g, i);
    } else {
      NewLanes(s, s', g, i);
      NoEntriesNoLog(s'.traffic.log, g, i);
    }
  }

  lemma KeepsLogOrder(s: State, a: Action)
    requires Can(s, a) && LanesSound(s) && LogSound(s)
    ensures var s' := Do(s, a);
            && (forall k | 0 <= k < |s'.traffic.log| && s'.traffic.log[k].LaneWrote? ::
                  HasLane(s', s'.traffic.log[k].gen, s'.traffic.log[k].lane))
            && (forall j, k | 0 <= j < k < |s'.traffic.log|
                              && s'.traffic.log[j].LaneWrote? && s'.traffic.log[k].LaneWrote? ::
                  s'.traffic.log[j].gen <= s'.traffic.log[k].gen)
  {
    var s' := Do(s, a);
    DoGrows(s, a);
    if s'.traffic.log != s.traffic.log && a.Worker? {
      assert WorkerActive(LaneAt(s, a.gen, a.lane).worker);
      assert a.gen == Last(s);
    }
  }

  lemma KeepsLogSound(s: State, a: Action)
    requires Can(s, a) && LanesSound(s) && LogSound(s)
    ensures LogSound(Do(s, a))
  {
    DoGrows(s, a);
    KeepsLogOrder(s, a);
    forall g: nat, i: nat | HasLane(Do(s, a), g, i)
      ensures LaneLog(Do(s, a).traffic.log, g, i) == LaneAt(Do(s, a), g, i).processed
    {
      KeepsLaneLog(s, a, g, i);
    }
  }

  // ---------------------------------------------------------------- runs

  lemma ActionKeepsInv(s: State, a: Action)
    requires Can(s, a) && CrossbarInv(s)
    ensures CrossbarInv(Do(s, a))
  {
    KeepsLanesSound(s, a);
    KeepsSparesSound(s, a);
    KeepsLifecycleSound(s, a);
    KeepsLogSound(s, a);
    if a.Producer? {
      ProducerKeepsThreads(s, a.t, a.act);
    } else {
      OtherActionsKeepThreads(s, a);
    }
  }

  lemma InitialInv(capacity: nat)
    ensures CrossbarInv(Initial(capacity))
  {
  }

  ghost predicate ValidActions(s: State, run: seq<Action>)
    decreases run
  {
    run == [] || (s.gens != [] && Can(s, run[0]) && ValidActions(Do(s, run[0]), run[1..]))
  }

  ghost function After(s: State, run: seq<Action>): State
    requires ValidActions(s, run)
    decreases run
  {
    if run == [] then s else After(Do(s, run[0]), run[1..])
  }

  lemma {:induction false} RunsKeepInv(s: State, run: seq<Action>)
    requires CrossbarInv(s) && ValidActions(s, run)
    ensures CrossbarInv(After(s, run))
    decreases run
  {
    if run != [] {
      ActionKeepsInv(s, run[0]);
      RunsKeepInv(Do(s, run[0]), run[1..]);
    }
  }
}
