/**
Asynchronous delivery refines synchronous dispatch: for a blocking route, what its lane has
written once close() has joined the worker is what dispatching the same calls directly
would have written, thread by thread and as a multiset overall.
*/
module Refinement {
  import opened Events
  import opened LaneProtocol
  import opened Routing
  import opened Crossbar
  import opened CrossbarInvariant
  import opened CrossbarTheorems

  // ---------------------------------------------------------------- what is compared

  /** What the lane of a route writes for the events it processes. */
  function Outputs(r: Route, offers: seq<Offer>): seq<Write> {
    if offers == [] then []
    else Outputs(r, offers[..|offers| - 1]) + RouteOutput(r, offers[|offers| - 1].event)
  }

  /** Every offer that the calls on generation g select for lane i, whoever made it. */
  function SelectedByAll(calls: seq<Call>, g: nat, i: nat): seq<Offer> {
    if calls == [] then []
    else
      var c := calls[|calls| - 1];
      SelectedByAll(calls[..|calls| - 1], g, i)
      + if c.gen == g && i in c.mask && i < ROUTE_LIMIT then [c.offer] else []
  }

  /** The reference: dispatch every call on generation g to the route directly, no mask, no
      queue, only the route's own filters. */
  function Direct(calls: seq<Call>, g: nat, r: Route): seq<Write> {
    if calls == [] then []
    else
      var c := calls[|calls| - 1];
      Direct(calls[..|calls| - 1], g, r) + if c.gen == g then RouteOutput(r, c.offer.event) else []
  }

  /** The calls of one thread. */
  function CallsBy(calls: seq<Call>, t: Tid): seq<Call> {
    if calls == [] then []
    else
      var c := calls[|calls| - 1];
      CallsBy(calls[..|calls| - 1], t) + if c.offer.producer == t then [c] else []
  }

  /** No call's mask hides lane i from an event that its route wants. */
  ghost predicate MasksSound(calls: seq<Call>, g: nat, i: nat, r: Route) {
    forall k | 0 <= k < |calls| && calls[k].gen == g && AllPass(r.filters, calls[k].offer.event) :: i in calls[k].mask
  }

  /** Masks taken from up-to-date cache entries are sound for every route they cover. */
  lemma EntryMasksSound(calls: seq<Call>, g: nat, i: nat, routes: seq<Route>)
    requires i < |routes| && i < 64
    requires forall k | 0 <= k < |calls| && calls[k].gen == g ::
               calls[k].mask == Entry(routes, calls[k].offer.event.endpoint).mask
    ensures MasksSound(calls, g, i, routes[i])
  {
    forall k | 0 <= k < |calls| && calls[k].gen == g && AllPass(routes[i].filters, calls[k].offer.event)
      ensures i in calls[k].mask
    {
      MaskSound(routes, calls[k].offer.event, i);
    }
  }

  // ---------------------------------------------------------------- sequences and multisets

  lemma OutputsAppend(r: Route, s: seq<Offer>, x: Offer)
    ensures Outputs(r, s + [x]) == Outputs(r, s) + RouteOutput(r, x.event)
  {
    assert (s + [x])[..|s|] == s;
  }

  lemma {:induction false} OutputsConcat(r: Route, a: seq<Offer>, b: seq<Offer>)
    ensures Outputs(r, a + b) == Outputs(r, a) + Outputs(r, b)
  {
    if b == [] {
      assert a + b == a;
    } else {
      var init, x := b[..|b| - 1], b[|b| - 1];
      OutputsConcat(r, a, init);
      assert (a + b)[..|a + b| - 1] == a + init && (a + b)[|a + b| - 1] == x;
      WritesAssoc(Outputs(r, a), Outputs(r, init), RouteOutput(r, x.event));
    }
  }

  lemma WritesAssoc(a: seq<Write>, b: seq<Write>, c: seq<Write>)
    ensures a + b + c == a + (b + c)
  {
  }

  lemma {:induction false} ByKeepsCounts(s: seq<Offer>, o: Offer)
    ensures multiset(s)[o] == multiset(By(o.producer, s))[o]
  {
    if s != [] {
      ByKeepsCounts(s[..|s| - 1], o);
      assert s == s[..|s| - 1] + [s[|s| - 1]];
    }
  }

  /** Two sequences that agree thread by thread hold the same offers. */
  lemma SameByThreadSameOffers(a: seq<Offer>, b: seq<Offer>)
    requires forall t :: By(t, a) == By(t, b)
    ensures multiset(a) == multiset(b)
  {
    forall o ensures multiset(a)[o] == multiset(b)[o] {
      ByKeepsCounts(a, o);
      ByKeepsCounts(b, o);
    }
  }

  lemma TakeOut(b: seq<Offer>, k: nat)
    requires k < |b|
    ensures multiset(b) == multiset(b[..k] + b[k + 1..]) + multiset{b[k]}
  {
    assert b == b[..k] + [b[k]] + b[k + 1..];
  }

  lemma WritesInTheMiddle(r: Route, b: seq<Offer>, k: nat)
    requires k < |b|
    ensures multiset(Outputs(r, b)) ==
            multiset(Outputs(r, b[..k] + b[k + 1..])) + multiset(RouteOutput(r, b[k].event))
  {
    var left, right := b[..k], b[k + 1..];
    assert b == left + [b[k]] + right;
    OutputsConcat(r, left, right);
    OutputsConcat(r, left + [b[k]], right);
    OutputsAppend(r, left, b[k]);
  }

  lemma {:induction false} SameOffersSameWrites(r: Route, a: seq<Offer>, b: seq<Offer>)
    requires multiset(a) == multiset(b)
    ensures multiset(Outputs(r, a)) == multiset(Outputs(r, b))
    decreases |a|
  {
    if a == [] {
      assert |multiset(b)| == |b| == 0;
    } else {
      var init, x := a[..|a| - 1], a[|a| - 1];
      TakeOut(a, |a| - 1);
      assert a[..|a| - 1] + a[|a| - 1 + 1..] == init;
      assert x in multiset(b);
      var k :| 0 <= k < |b| && b[k] == x;
      TakeOut(b, k);
      assert multiset(init) == multiset(a) - multiset{x};
      assert multiset(b[..k] + b[k + 1..]) == multiset(b) - multiset{x};
      SameOffersSameWrites(r, init, b[..k] + b[k + 1..]);
      WritesInTheMiddle(r, b, k);
    }
  }

  lemma {:induction false} SelectedOfAll(calls: seq<Call>, t: Tid, g: nat, i: nat)
    ensures By(t, SelectedByAll(calls, g, i)) == Selected(calls, t, g, i)
  {
    if calls != [] {
      var init, c := calls[..|calls| - 1], calls[|calls| - 1];
      SelectedOfAll(init, t, g, i);
      if c.gen == g && i in c.mask && i < ROUTE_LIMIT {
        AppendBy(t, SelectedByAll(init, g, i), c.offer);
      } else {
        assert SelectedByAll(calls, g, i) == SelectedByAll(init, g, i);
      }
    }
  }

  /** With sound masks, selecting by mask and filtering in the lane writes what filtering
      alone writes. */
  lemma {:induction false} SelectedWritesDirect(calls: seq<Call>, g: nat, i: nat, r: Route)
    requires i < 64 && MasksSound(calls, g, i, r)
    ensures Outputs(r, SelectedByAll(calls, g, i)) == Direct(calls, g, r)
  {
    if calls != [] {
      var init, c := calls[..|calls| - 1], calls[|calls| - 1];
      SelectedWritesDirect(init, g, i, r);
      if c.gen == g && i in c.mask {
        OutputsAppend(r, SelectedByAll(init, g, i), c.offer);
      } else {
        assert SelectedByAll(calls, g, i) == SelectedByAll(init, g, i);
        assert c.gen == g ==> RouteOutput(r, c.offer.event) == [];
      }
    }
  }

  lemma {:induction false} ThreadWritesDirect(calls: seq<Call>, t: Tid, g: nat, i: nat, r: Route)
    requires i < 64 && MasksSound(calls, g, i, r)
    ensures Outputs(r, Selected(calls, t, g, i)) == Direct(CallsBy(calls, t), g, r)
  {
    if calls != [] {
      var init, c := calls[..|calls| - 1], calls[|calls| - 1];
      ThreadWritesDirect(init, t, g, i, r);
      var mine := c.offer.producer == t;
      if mine {
        assert (CallsBy(init, t) + [c])[..|CallsBy(init, t)|] == CallsBy(init, t);
      }
      if mine && c.gen == g && i in c.mask {
        OutputsAppend(r, Selected(init, t, g, i), c.offer);
      } else {
        assert Selected(calls, t, g, i) == Selected(init, t, g, i);
        assert mine && c.gen == g ==> RouteOutput(r, c.offer.event) == [];
        assert !mine ==> CallsBy(calls, t) == CallsBy(init, t);
      }
    }
  }

  // ---------------------------------------------------------------- after the last call has returned

  /** No thread is inside a call that works on generation g. */
  ghost predicate NoneInside(s: State, g: nat) {
    forall t | t in s.traffic.threads :: s.traffic.threads[t].gen != g
  }

  ghost predicate NoNewCalls(run: seq<Action>, g: nat) {
    forall k | 0 <= k < |run| :: !(run[k].Producer? && run[k].act.SubmitBegins? && run[k].act.gen == g)
  }

  lemma QuietProducer(s: State, t: Tid, a: ProducerAction, g: nat, i: nat)
    requires CanProduce(s, t, a) && HasLane(s, g, i) && !s.gens[g].spare && NoneInside(s, g) && ThreadsSound(s)
    requires !(a.SubmitBegins? && a.gen == g)
    ensures HasLane(Produce(s, t, a), g, i) && LaneAt(Produce(s, t, a), g, i) == LaneAt(s, g, i)
    ensures NoneInside(Produce(s, t, a), g)
    ensures SelectedByAll(Produce(s, t, a).traffic.submitted, g, i) == SelectedByAll(s.traffic.submitted, g, i)
  {
    var calls := s.traffic.submitted;
    assert t in s.traffic.threads ==> ThreadSound(s, s.traffic.threads[t]);
    if a.SubmitBegins? {
      var c := Call(Offer(t, a.event), a.mask, a.gen);
      assert (calls + [c])[..|calls|] == calls;
    }
  }

  lemma OneQuietAction(s: State, a: Action, g: nat, i: nat)
    requires Can(s, a) && CrossbarInv(s) && HasLane(s, g, i) && !s.gens[g].spare && NoneInside(s, g)
    requires !(a.Producer? && a.act.SubmitBegins? && a.act.gen == g)
    ensures HasLane(Do(s, a), g, i) && !Do(s, a).gens[g].spare && NoneInside(Do(s, a), g)
    ensures LaneAt(Do(s, a), g, i).resolved == LaneAt(s, g, i).resolved
    ensures SelectedByAll(Do(s, a).traffic.submitted, g, i) == SelectedByAll(s.traffic.submitted, g, i)
  {
    DoGrows(s, a);
    if a.Producer? {
      QuietProducer(s, a.t, a.act, g, i);
    } else {
      OtherActionsKeepTraffic(s, a, g, i);
    }
  }

  lemma {:induction false} QuietRun(s: State, run: seq<Action>, g: nat, i: nat)
    requires CrossbarInv(s) && HasLane(s, g, i) && !s.gens[g].spare
    requires ValidActions(s, run) && NoneInside(s, g) && NoNewCalls(run, g)
    ensures HasLane(After(s, run), g, i) && NoneInside(After(s, run), g)
    ensures LaneAt(After(s, run), g, i).resolved == LaneAt(s, g, i).resolved
    ensures SelectedByAll(After(s, run).traffic.submitted, g, i) == SelectedByAll(s.traffic.submitted, g, i)
    decreases run
  {
    if run != [] {
      OneQuietAction(s, run[0], g, i);
      ActionKeepsInv(s, run[0]);
      assert forall k | 0 <= k < |run[1..]| :: run[1..][k] == run[k + 1];
      QuietRun(Do(s, run[0]), run[1..], g, i);
    }
  }

  /** An open blocking lane of the current session has accepted every completed call, per
      thread. */
  lemma BlockingLaneComplete(s: State, t: Tid, g: nat, i: nat)
    requires CrossbarInv(s) && HasLane(s, g, i) && !s.gens[g].spare && NoneInside(s, g)
    requires LaneAt(s, g, i).policy.BlockWhenFull? && !LaneAt(s, g, i).closed && NeverRefused(LaneAt(s, g, i))
    ensures By(t, AcceptedOf(LaneAt(s, g, i).resolved)) == Selected(s.traffic.submitted, t, g, i)
  {
    var l := LaneAt(s, g, i);
    assert LaneFed(s, t, g, i);
    OpenHasNoSpare(s, g, i);
    assert Inv(l);
    BlockingLaneAcceptsAll(l, t);
    NotInLane(s, t, g, i);
    assert By(t, l.offers) + [] == By(t, l.offers);
  }

  lemma OpenHasNoSpare(s: State, g: nat, i: nat)
    requires SparesSound(s) && HasLane(s, g, i) && !LaneAt(s, g, i).closed
    ensures !HasSpare(s, g)
  {
    assert g + 1 < |s.gens| && s.gens[g + 1].spare ==> SpareFits(s.gens[g], s.gens[g + 1]);
  }

  lemma NotInLane(s: State, t: Tid, g: nat, i: nat)
    requires ThreadsSound(s) && HasLane(s, g, i) && !s.gens[g].spare && NoneInside(s, g)
    requires LaneFed(s, t, g, i)
    ensures t !in LaneAt(s, g, i).producers && Pending(s, t, g, i) == []
  {
    assert t in s.traffic.threads ==> ThreadSound(s, s.traffic.threads[t]);
  }

  // ---------------------------------------------------------------- sessions

  /** Within a session, that is from any moment at which a generation's gate is not shut until
      `accepting` is next set to false, none of its lanes refuses a call for not accepting. */
  lemma {:induction false} SessionNeverRefuses(s: State, run: seq<Action>, g: nat)
    requires CrossbarInv(s) && g < |s.gens| && !s.gens[g].gate.Shut? && ValidActions(s, run) && NeverUnaccepting(run)
    ensures g < |After(s, run).gens| && !After(s, run).gens[g].gate.Shut?
    ensures forall i: nat | HasLane(After(s, run), g, i) :: NeverRefused(LaneAt(After(s, run), g, i))
    decreases run
  {
    if run == [] {
      OpenGateNeverRefused(s, g);
    } else {
      StaysInSession(s, run[0], g);
      ActionKeepsInv(s, run[0]);
      assert forall k | 0 <= k < |run[1..]| :: run[1..][k] == run[k + 1];
      SessionNeverRefuses(Do(s, run[0]), run[1..], g);
    }
  }

  /** Within a session a completed call on a blocking lane was accepted if and only if the queue
      was still open at its push; see `LiveRebuildRefuses` for a call that is not. */
  lemma SessionCallDecidedByPush(s: State, run: seq<Action>, g: nat, i: nat, t: Tid)
    requires CrossbarInv(s) && HasLane(s, g, i) && !s.gens[g].gate.Shut?
    requires ValidActions(s, run) && NeverUnaccepting(run) && HasLane(After(s, run), g, i)
    requires LaneAt(s, g, i).policy.BlockWhenFull? && BeforePush(LaneAt(s, g, i), t)
    requires |Mine(t, LaneAt(After(s, run), g, i).resolved)| > |Mine(t, LaneAt(s, g, i).resolved)|
    ensures ValidRun(LaneAt(s, g, i), LaneRun(s, run, g, i))
    ensures var l, l' := LaneAt(s, g, i), LaneAt(After(s, run), g, i);
            exists k: nat :: DecidedAt(l, LaneRun(s, run, g, i), t, k, Mine(t, l'.resolved)[|Mine(t, l.resolved)|])
  {
    SessionNeverRefuses(s, run, g);
    LaneIsolation(s, run, g, i);
    assert Inv(LaneAt(s, g, i));
    BlockingCallDecidedByPush(LaneAt(s, g, i), LaneRun(s, run, g, i), t);
  }

  lemma OpenGateNeverRefused(s: State, g: nat)
    requires LanesSound(s) && g < |s.gens| && !s.gens[g].gate.Shut?
    ensures forall i: nat | HasLane(s, g, i) :: NeverRefused(LaneAt(s, g, i))
  {
  }

  lemma StaysInSession(s: State, a: Action, g: nat)
    requires Can(s, a) && g < |s.gens| && !s.gens[g].gate.Shut? && a != Manage(SetAccepting(false))
    ensures g < |Do(s, a).gens| && !Do(s, a).gens[g].gate.Shut?
  {
    DoGrows(s, a);
  }

  /** Every rebuild begins a session or stays within one: the lanes that close(),
      request_stop() and configure() leave behind are in a new session, whatever came
      before, and those of add_route and clear_routes are in the session they were called
      in. */
  lemma RebuildsBeginSessions(s: State, a: LifecycleAction)
    requires Reachable(s) && CanCall(s, a) && Rebuilds(s, a)
    ensures var s' := DoCall(s, a);
            && |s'.gens| > |s.gens|
            && (a.ConfigureCall? || (a.FinishStop? && s.life.control.goal.Recreate?) ==> !s'.gens[Last(s')].gate.Shut?)
            && (a.AddRouteCall? || a.ClearRoutesCall? || (a.FinishStop? && s.life.control.goal.Restart?) ==>
                  s'.gens[Last(s')].gate == s.gens[Last(s)].gate)
  {
    ReachableInv(s);
    DoGrows(s, Manage(a));
  }

  // ---------------------------------------------------------------- the theorem

  /** Close after quiet, then compare.  `before` is any reachable state in which the lane is
      open and blocking and has refused no call for not accepting, and every call on its
      generation has returned; `run` is any continuation without new calls on that generation, by the end
      of which the lane's worker has left through its drain loop.  Then the lane has
      processed, per thread and in program order, exactly the calls that selected it; and
      if the masks were sound it has written, per thread, exactly the bytes of direct
      dispatch, and overall the same multiset of writes. */
  lemma AsyncRefinesSync(before: State, run: seq<Action>, g: nat, i: nat)
    requires Reachable(before) && HasLane(before, g, i) && i < 64
    requires LaneAt(before, g, i).policy.BlockWhenFull? && !LaneAt(before, g, i).closed
    requires NeverRefused(LaneAt(before, g, i))
    requires NoneInside(before, g)
    requires ValidActions(before, run) && NoNewCalls(run, g)
    requires HasLane(After(before, run), g, i) && LaneAt(After(before, run), g, i).worker == Exited(true)
    ensures var l, calls := LaneAt(After(before, run), g, i), before.traffic.submitted;
            && (forall t :: By(t, l.processed) == Selected(calls, t, g, i))
            && multiset(l.processed) == multiset(SelectedByAll(calls, g, i))
    ensures var l, calls := LaneAt(After(before, run), g, i), before.traffic.submitted;
            forall r: Route | MasksSound(calls, g, i, r) ::
              && (forall t :: Outputs(r, By(t, l.processed)) == Direct(CallsBy(calls, t), g, r))
              && multiset(Outputs(r, l.processed)) == multiset(Direct(calls, g, r))
  {
    ReachableInv(before);
    RunsKeepInv(before, run);
    DrainedIsNotSpare(before, run, g, i);
    QuietRun(before, run, g, i);
    var l, calls := LaneAt(After(before, run), g, i), before.traffic.submitted;
    assert Inv(l);
    assert l.processed == AcceptedOf(l.resolved);
    forall t ensures By(t, l.processed) == Selected(calls, t, g, i)
                     && By(t, l.processed) == By(t, SelectedByAll(calls, g, i)) {
      BlockingLaneComplete(before, t, g, i);
      SelectedOfAll(calls, t, g, i);
    }
    SameByThreadSameOffers(l.processed, SelectedByAll(calls, g, i));
    forall r: Route | MasksSound(calls, g, i, r)
      ensures forall t :: Outputs(r, By(t, l.processed)) == Direct(CallsBy(calls, t), g, r)
      ensures multiset(Outputs(r, l.processed)) == multiset(Direct(calls, g, r))
    {
      forall t ensures Outputs(r, By(t, l.processed)) == Direct(CallsBy(calls, t), g, r) {
        ThreadWritesDirect(calls, t, g, i, r);
      }
      SameOffersSameWrites(r, l.processed, SelectedByAll(calls, g, i));
      SelectedWritesDirect(calls, g, i, r);
    }
  }

  lemma DrainedIsNotSpare(s: State, run: seq<Action>, g: nat, i: nat)
    requires ValidActions(s, run) && HasLane(s, g, i) && SparesSound(After(s, run))
    requires HasLane(After(s, run), g, i) && LaneAt(After(s, run), g, i).worker == Exited(true)
    ensures !s.gens[g].spare
  {
    SparesStay(s, run, g);
    var s' := After(s, run);
    assert g > 0 && s'.gens[g].spare ==> SpareFits(s'.gens[g - 1], s'.gens[g]);
  }

  /** The refinement holds in every session, the first as well as any that follows a close, a
      forced stop or a reconfiguration: `begun` is any reachable state in which the
      generation's gate is not shut, and up to the moment at which all its calls have
      returned `accepting` has not been set to false. */
  lemma EverySessionRefinesSync(begun: State, session: seq<Action>, run: seq<Action>, g: nat, i: nat)
    requires Reachable(begun) && ValidActions(begun, session) && NeverUnaccepting(session)
    requires g < |begun.gens| && !begun.gens[g].gate.Shut?
    requires HasLane(After(begun, session), g, i) && i < 64 && NoneInside(After(begun, session), g)
    requires var l := LaneAt(After(begun, session), g, i); l.policy.BlockWhenFull? && !l.closed
    requires ValidActions(After(begun, session), run) && NoNewCalls(run, g)
    requires HasLane(After(After(begun, session), run), g, i)
    requires LaneAt(After(After(begun, session), run), g, i).worker == Exited(true)
    ensures var l, calls := LaneAt(After(After(begun, session), run), g, i), After(begun, session).traffic.submitted;
            && (forall t :: By(t, l.processed) == Selected(calls, t, g, i))
            && multiset(l.processed) == multiset(SelectedByAll(calls, g, i))
            && (forall r: Route | MasksSound(calls, g, i, r) ::
                  && (forall t :: Outputs(r, By(t, l.processed)) == Direct(CallsBy(calls, t), g, r))
                  && multiset(Outputs(r, l.processed)) == multiset(Direct(calls, g, r)))
  {
    ReachableInv(begun);
    SessionNeverRefuses(begun, session, g);
    StaysReachable(begun, session);
    AsyncRefinesSync(After(begun, session), run, g, i);
  }

  // ---------------------------------------------------------------- with force-sync events

  /** All writes to route i of generation g in the global log: by its lane's worker and by
      callers that dispatched on their own thread. */
  function RouteLog(log: seq<LogEntry>, g: nat, i: nat, r: Route): seq<Write> {
    if log == [] then []
    else
      RouteLog(log[..|log| - 1], g, i, r)
      + match log[|log| - 1]
        case LaneWrote(h, j, o) => if h == g && j == i then RouteOutput(r, o.event) else []
        case CallerWrote(h, e, mask) => if h == g && i in mask && i < ROUTE_LIMIT then RouteOutput(r, e) else []
  }

  /** The same for the calls that dispatched synchronously, without any mask. */
  function DirectSync(log: seq<LogEntry>, g: nat, r: Route): seq<Write> {
    if log == [] then []
    else
      var x := log[|log| - 1];
      DirectSync(log[..|log| - 1], g, r) + if x.CallerWrote? && x.gen == g then RouteOutput(r, x.event) else []
  }

  ghost predicate SyncMasksSound(log: seq<LogEntry>, g: nat, i: nat, r: Route) {
    forall k | 0 <= k < |log| && log[k].CallerWrote? && log[k].gen == g && AllPass(r.filters, log[k].event) ::
      i in log[k].mask
  }

  function LanePart(x: LogEntry, g: nat, i: nat, r: Route): seq<Write> {
    if x.LaneWrote? && x.gen == g && x.lane == i then RouteOutput(r, x.offer.event) else []
  }

  function SyncPart(x: LogEntry, g: nat, r: Route): seq<Write> {
    if x.CallerWrote? && x.gen == g then RouteOutput(r, x.event) else []
  }

  lemma LastEntrySplits(log: seq<LogEntry>, g: nat, i: nat, r: Route)
    requires log != [] && i < 64 && SyncMasksSound(log, g, i, r)
    ensures var init, x := log[..|log| - 1], log[|log| - 1];
            && RouteLog(log, g, i, r) == RouteLog(init, g, i, r) + (LanePart(x, g, i, r) + SyncPart(x, g, r))
            && DirectSync(log, g, r) == DirectSync(init, g, r) + SyncPart(x, g, r)
            && Outputs(r, LaneLog(log, g, i)) == Outputs(r, LaneLog(init, g, i)) + LanePart(x, g, i, r)
  {
    var init, x := log[..|log| - 1], log[|log| - 1];
    assert log == init + [x];
    LaneLogWrites(init, x, g, i, r);
    EntryPart(log, g, i, r);
  }

  /** The last entry adds the worker's part or the caller's, never both. */
  lemma EntryPart(log: seq<LogEntry>, g: nat, i: nat, r: Route)
    requires log != [] && i < 64 && SyncMasksSound(log, g, i, r)
    ensures var x := log[|log| - 1];
            LanePart(x, g, i, r) + SyncPart(x, g, r) ==
            match x
            case LaneWrote(h, j, o) => if h == g && j == i then RouteOutput(r, o.event) else []
            case CallerWrote(h, e, mask) => if h == g && i in mask && i < ROUTE_LIMIT then RouteOutput(r, e) else []
  {
    var x := log[|log| - 1];
    assert x.CallerWrote? && x.gen == g && i !in x.mask ==> SyncPart(x, g, r) == [];
  }

  lemma {:induction false} RouteLogSplits(log: seq<LogEntry>, g: nat, i: nat, r: Route)
    requires i < 64 && SyncMasksSound(log, g, i, r)
    ensures multiset(RouteLog(log, g, i, r)) ==
            multiset(Outputs(r, LaneLog(log, g, i))) + multiset(DirectSync(log, g, r))
  {
    if log != [] {
      RouteLogSplits(log[..|log| - 1], g, i, r);
      LastEntrySplits(log, g, i, r);
    }
  }

  lemma LaneLogWrites(init: seq<LogEntry>, x: LogEntry, g: nat, i: nat, r: Route)
    ensures Outputs(r, LaneLog(init + [x], g, i)) ==
            Outputs(r, LaneLog(init, g, i))
            + if x.LaneWrote? && x.gen == g && x.lane == i then RouteOutput(r, x.offer.event) else []
  {
    AppendLaneLog(init, x, g, i);
    if x.LaneWrote? && x.gen == g && x.lane == i {
      OutputsAppend(r, LaneLog(init, g, i), x.offer);
    } else {
      assert LaneLog(init + [x], g, i) == LaneLog(init, g, i);
    }
  }

  ghost predicate NoCallerWrites(log: seq<LogEntry>, g: nat) {
    forall k | 0 <= k < |log| && log[k].CallerWrote? :: log[k].gen != g
  }

  lemma {:induction false} OnlyTheLaneWrites(log: seq<LogEntry>, g: nat, i: nat, r: Route)
    requires NoCallerWrites(log, g)
    ensures RouteLog(log, g, i, r) == Outputs(r, LaneLog(log, g, i))
  {
    if log != [] {
      var init, x := log[..|log| - 1], log[|log| - 1];
      OnlyTheLaneWrites(init, g, i, r);
      assert log == init + [x];
      LaneLogWrites(init, x, g, i, r);
    }
  }

  /** Without force-sync events the route has received, write by write, exactly what direct
      dispatch in the order in which its lane accepted the events would have written. */
  lemma AsyncWritesInAcceptanceOrder(s: State, g: nat, i: nat, r: Route)
    requires Reachable(s) && HasLane(s, g, i) && LaneAt(s, g, i).worker == Exited(true)
    requires NoCallerWrites(s.traffic.log, g)
    ensures RouteLog(s.traffic.log, g, i, r) == Outputs(r, AcceptedOf(LaneAt(s, g, i).resolved))
  {
    ReachableInv(s);
    DrainedLane(s, g, i);
    OnlyTheLaneWrites(s.traffic.log, g, i, r);
  }

  lemma DrainedLane(s: State, g: nat, i: nat)
    requires LanesSound(s) && LogSound(s) && HasLane(s, g, i) && LaneAt(s, g, i).worker == Exited(true)
    ensures LaneLog(s.traffic.log, g, i) == AcceptedOf(LaneAt(s, g, i).resolved)
  {
    assert Inv(LaneAt(s, g, i));
  }

  /** Force-sync events overtake queued ones, but nothing is lost or doubled: all the writes a
      route has received, from its worker and from callers, are as a multiset the direct
      writes of all calls, queued or synchronous. */
  lemma AsyncPlusSyncRefinesSync(before: State, run: seq<Action>, g: nat, i: nat, r: Route)
    requires Reachable(before) && HasLane(before, g, i) && i < 64
    requires LaneAt(before, g, i).policy.BlockWhenFull? && !LaneAt(before, g, i).closed
    requires NeverRefused(LaneAt(before, g, i))
    requires NoneInside(before, g)
    requires ValidActions(before, run) && NoNewCalls(run, g)
    requires HasLane(After(before, run), g, i) && LaneAt(After(before, run), g, i).worker == Exited(true)
    requires MasksSound(before.traffic.submitted, g, i, r) && SyncMasksSound(After(before, run).traffic.log, g, i, r)
    ensures var log := After(before, run).traffic.log;
            multiset(RouteLog(log, g, i, r)) ==
            multiset(Direct(before.traffic.submitted, g, r)) + multiset(DirectSync(log, g, r))
  {
    AsyncRefinesSync(before, run, g, i);
    ReachableInv(before);
    RunsKeepInv(before, run);
    RouteLogSplits(After(before, run).traffic.log, g, i, r);
  }

  /** The masks of synchronous dispatches taken from up-to-date entries are sound too. */
  lemma SyncEntryMasksSound(log: seq<LogEntry>, g: nat, i: nat, routes: seq<Route>)
    requires i < |routes| && i < 64
    requires forall k | 0 <= k < |log| && log[k].CallerWrote? && log[k].gen == g ::
               log[k].mask == Entry(routes, log[k].event.endpoint).mask
    ensures SyncMasksSound(log, g, i, routes[i])
  {
    forall k | 0 <= k < |log| && log[k].CallerWrote? && log[k].gen == g && AllPass(routes[i].filters, log[k].event)
      ensures i in log[k].mask
    {
      MaskSound(routes, log[k].event, i);
    }
  }

  // ---------------------------------------------------------------- the reference is direct dispatch

  /** A write and the route that made it. */
  datatype RouteWrite = RouteWrite(route: nat, write: Write)

  function From(i: nat, writes: seq<Write>): seq<RouteWrite> {
    seq(|writes|, k requires 0 <= k < |writes| => RouteWrite(i, writes[k]))
  }

  function WritesOf(writes: seq<RouteWrite>): seq<Write> {
    seq(|writes|, k requires 0 <= k < |writes| => writes[k].write)
  }

  /** The outputs of the routes 0..n one after the other, each write with its route. */
  function Joined(outputs: seq<seq<Write>>, n: nat): seq<RouteWrite>
    requires n <= |outputs|
  {
    if n == 0 then [] else Joined(outputs, n - 1) + From(n - 1, outputs[n - 1])
  }

  function RouteOutputs(routes: seq<Route>, e: Event): (outputs: seq<seq<Write>>)
    ensures |outputs| == |routes|
  {
    seq(|routes|, k requires 0 <= k < |routes| => RouteOutput(routes[k], e))
  }

  /** Unmasked dispatch of one event to the routes 0..n. */
  function Dispatched(routes: seq<Route>, e: Event, n: nat): seq<RouteWrite>
    requires n <= |routes|
  {
    Joined(RouteOutputs(routes, e), n)
  }

  /** Unmasked dispatch of one event after the other. */
  function DispatchedAll(routes: seq<Route>, events: seq<Event>): seq<RouteWrite> {
    if events == [] then []
    else DispatchedAll(routes, events[..|events| - 1]) + Dispatched(routes, events[|events| - 1], Covered(routes))
  }

  function UnmaskedAll(routes: seq<Route>, events: seq<Event>): seq<Write> {
    if events == [] then []
    else UnmaskedAll(routes, events[..|events| - 1]) + UnmaskedWrites(routes, events[|events| - 1], Covered(routes))
  }

  function ShareOf(i: nat, writes: seq<RouteWrite>): seq<Write> {
    if writes == [] then []
    else
      var x := writes[|writes| - 1];
      ShareOf(i, writes[..|writes| - 1]) + if x.route == i then [x.write] else []
  }

  function WritesFor(r: Route, events: seq<Event>): seq<Write> {
    if events == [] then [] else WritesFor(r, events[..|events| - 1]) + RouteOutput(r, events[|events| - 1])
  }

  /** The events of the calls on a generation, and of its synchronous dispatches. */
  function EventsOf(calls: seq<Call>, g: nat): seq<Event> {
    if calls == [] then []
    else
      var c := calls[|calls| - 1];
      EventsOf(calls[..|calls| - 1], g) + if c.gen == g then [c.offer.event] else []
  }

  function SyncEventsOf(log: seq<LogEntry>, g: nat): seq<Event> {
    if log == [] then []
    else
      var x := log[|log| - 1];
      SyncEventsOf(log[..|log| - 1], g) + if x.CallerWrote? && x.gen == g then [x.event] else []
  }

  lemma WritesOfConcat(a: seq<RouteWrite>, b: seq<RouteWrite>)
    ensures WritesOf(a + b) == WritesOf(a) + WritesOf(b)
  {
  }

  lemma {:induction false} DispatchedWrites(routes: seq<Route>, e: Event, n: nat)
    requires n <= |routes|
    ensures WritesOf(Dispatched(routes, e, n)) == UnmaskedWrites(routes, e, n)
  {
    if n > 0 {
      DispatchedWrites(routes, e, n - 1);
      var output := RouteOutputs(routes, e)[n - 1];
      WritesOfConcat(Dispatched(routes, e, n - 1), From(n - 1, output));
      assert WritesOf(From(n - 1, output)) == output;
    }
  }

  lemma {:induction false} ShareConcat(i: nat, a: seq<RouteWrite>, b: seq<RouteWrite>)
    ensures ShareOf(i, a + b) == ShareOf(i, a) + ShareOf(i, b)
  {
    if b == [] {
      assert a + b == a;
    } else {
      var init, x := b[..|b| - 1], b[|b| - 1];
      ShareConcat(i, a, init);
      assert (a + b)[..|a + b| - 1] == a + init && (a + b)[|a + b| - 1] == x;
      WritesAssoc(ShareOf(i, a), ShareOf(i, init), if x.route == i then [x.write] else []);
    }
  }

  lemma {:induction false} ShareOfOne(i: nat, j: nat, writes: seq<Write>)
    ensures ShareOf(i, From(j, writes)) == if i == j then writes else []
  {
    if writes != [] {
      var init := writes[..|writes| - 1];
      ShareOfOne(i, j, init);
      assert From(j, writes)[..|writes| - 1] == From(j, init);
    }
  }

  lemma ShareGrows(i: nat, before: seq<RouteWrite>, j: nat, writes: seq<Write>, share: seq<Write>)
    requires share == ShareOf(i, before)
    ensures i != j ==> ShareOf(i, before + From(j, writes)) == share
    ensures i == j && share == [] ==> ShareOf(i, before + From(j, writes)) == writes
  {
    ShareConcat(i, before, From(j, writes));
    ShareOfOne(i, j, writes);
    assert share + [] == share && [] + writes == writes;
  }

  lemma {:induction false} ShareOfJoined(outputs: seq<seq<Write>>, n: nat, i: nat, all: seq<RouteWrite>)
    requires n <= |outputs| && i < |outputs| && all == Joined(outputs, n)
    ensures ShareOf(i, all) == if i < n then outputs[i] else []
  {
    if n > 0 {
      var before := Joined(outputs, n - 1);
      ShareOfJoined(outputs, n - 1, i, before);
      ShareGrows(i, before, n - 1, outputs[n - 1], if i < n - 1 then outputs[i] else []);
    }
  }

  /** Dispatching events one after the other without any mask makes the writes of
      `UnmaskedWrites`, and route i's share of them is what its own filters let through. */
  lemma {:induction false} ShareOfDispatch(routes: seq<Route>, events: seq<Event>, i: nat)
    requires i < Covered(routes)
    ensures WritesOf(DispatchedAll(routes, events)) == UnmaskedAll(routes, events)
    ensures ShareOf(i, DispatchedAll(routes, events)) == WritesFor(routes[i], events)
  {
    if events != [] {
      var init, e := events[..|events| - 1], events[|events| - 1];
      ShareOfDispatch(routes, init, i);
      DispatchedWrites(routes, e, Covered(routes));
      WritesOfConcat(DispatchedAll(routes, init), Dispatched(routes, e, Covered(routes)));
      ShareOfJoined(RouteOutputs(routes, e), Covered(routes), i, Dispatched(routes, e, Covered(routes)));
      ShareConcat(i, DispatchedAll(routes, init), Dispatched(routes, e, Covered(routes)));
    }
  }

  lemma WritesForAppends(r: Route, events: seq<Event>, e: Event)
    ensures WritesFor(r, events + [e]) == WritesFor(r, events) + RouteOutput(r, e)
  {
    assert (events + [e])[..|events|] == events;
  }

  /** The references of the refinement are direct dispatch: `Direct` is route i's share of
      dispatching the calls' events, and `DirectSync` of the events of the synchronous
      dispatches. */
  lemma DirectIsDispatch(routes: seq<Route>, calls: seq<Call>, log: seq<LogEntry>, g: nat, i: nat)
    requires i < Covered(routes)
    ensures Direct(calls, g, routes[i]) == ShareOf(i, DispatchedAll(routes, EventsOf(calls, g)))
    ensures DirectSync(log, g, routes[i]) == ShareOf(i, DispatchedAll(routes, SyncEventsOf(log, g)))
  {
    DirectIsWritesFor(routes[i], calls, g);
    DirectSyncIsWritesFor(routes[i], log, g);
    ShareOfDispatch(routes, EventsOf(calls, g), i);
    ShareOfDispatch(routes, SyncEventsOf(log, g), i);
  }

  lemma {:induction false} DirectIsWritesFor(r: Route, calls: seq<Call>, g: nat)
    ensures Direct(calls, g, r) == WritesFor(r, EventsOf(calls, g))
  {
    if calls != [] {
      var init, c := calls[..|calls| - 1], calls[|calls| - 1];
      DirectIsWritesFor(r, init, g);
      if c.gen == g {
        WritesForAppends(r, EventsOf(init, g), c.offer.event);
      } else {
        assert EventsOf(calls, g) == EventsOf(init, g);
      }
    }
  }

  lemma {:induction false} DirectSyncIsWritesFor(r: Route, log: seq<LogEntry>, g: nat)
    ensures DirectSync(log, g, r) == WritesFor(r, SyncEventsOf(log, g))
  {
    if log != [] {
      var init, x := log[..|log| - 1], log[|log| - 1];
      DirectSyncIsWritesFor(r, init, g);
      if x.CallerWrote? && x.gen == g {
        WritesForAppends(r, SyncEventsOf(init, g), x.event);
      } else {
        assert SyncEventsOf(log, g) == SyncEventsOf(init, g);
      }
    }
  }
}
