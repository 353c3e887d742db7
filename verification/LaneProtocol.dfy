/**
The protocol of one crossbar lane: a bounded queue whose slots are reserved by
compare-and-swap, any number of producer threads, one worker thread, and the calls by
which the crossbar stops the lane.

The state is a value and every atomic action of every thread is one `Step`.  A run is a
sequence of steps, so a theorem about all runs is a theorem about all interleavings.

The queue underneath is taken to be a linearizable FIFO sequence with a closed flag:
`push` fails exactly when closed, `try_pop` succeeds exactly when non-empty (closed or
not), and the blocking `pop` gives up only when the queue is closed or a stop was requested.
*/
module LaneProtocol {
  import opened Events

  type Tid = nat

  datatype Policy = DropWhenFull | BlockWhenFull

  /** An event on its way into a lane, tagged with the thread that submitted it. */
  datatype Offer = Offer(producer: Tid, event: Event)

  datatype Outcome = Accepted | RejectedFull | RejectedClosed | RejectedNotAccepting

  datatype Resolution = Resolution(offer: Offer, outcome: Outcome)

  /** Where a producer is inside `try_push` or `push_blocking`. */
  datatype ProducerPc =
    | CheckingAccepting(offer: Offer)       // head of the push_blocking loop
    | LoadingSize(offer: Offer)             // reserve_slot_: about to load size_
    | Reserving(offer: Offer, seen: int)    // reserve_slot_: loop test, then CAS(seen, seen + 1)
    | Pushing(offer: Offer)                 // holds a slot, about to push
    | Releasing(offer: Offer)               // the push failed, about to give the slot back
    | WaitingForSpace(offer: Offer)         // push_blocking: on the condition variable

  /** Where the worker is inside `lane_loop_`. */
  datatype WorkerPc =
    | NotStarted
    | Popping
    | ReleasingSlot(offer: Offer, draining: bool)
    | Processing(offer: Offer, draining: bool)
    | CheckingDrain
    | Draining
    | Exited(drained: bool)

  datatype Lane = Lane(
    capacity: nat,
    policy: Policy,
    queue: seq<Offer>,
    closed: bool,
    size: int,                         // the atomic size_; an int, so that underflow would show
    producers: map<Tid, ProducerPc>,
    worker: WorkerPc,
    drainOnStop: bool,
    stopRequested: bool,
    offers: seq<Offer>,                // history: every call of the delivery strategy
    resolved: seq<Resolution>,         // history: how each call ended
    processed: seq<Offer>)             // history: every event handed to process_

  /** `std::max(capacity, 1)` is applied by both constructors on the way. */
  function NewLane(capacity: nat, policy: Policy): (l: Lane)
    ensures l.capacity >= capacity && l.capacity >= 1 && (capacity >= 1 ==> l.capacity == capacity)
  {
    Lane(if capacity < 1 then 1 else capacity, policy, [], false, 0, map[], NotStarted, true, false, [], [], [])
  }

  datatype Step =
    | Begin(t: Tid, event: Event)
    | ReadAccepting(t: Tid, accepting: bool)
    | LoadSize(t: Tid)
    | GiveUpReserve(t: Tid)
    | CasSucceeds(t: Tid)
    | CasFails(t: Tid)
    | Push(t: Tid)
    | ReleaseFailed(t: Tid)
    | WakeForSpace(t: Tid, accepting: bool)
    | WorkerStarts
    | WorkerPops
    | WorkerPopEnds
    | WorkerReleases
    | WorkerProcesses
    | WorkerReadsDrain
    | WorkerDrainEnds
    | SetDrain(drain: bool)
    | CloseQueue
    | RequestStop

  predicate WorkerActive(w: WorkerPc) {
    !w.NotStarted? && !w.Exited?
  }

  predicate Enabled(l: Lane, s: Step) {
    match s
    case Begin(t, _) => t !in l.producers
    case ReadAccepting(t, _) => t in l.producers && l.producers[t].CheckingAccepting?
    case LoadSize(t) => t in l.producers && l.producers[t].LoadingSize?
    case GiveUpReserve(t) => t in l.producers && l.producers[t].Reserving? && l.producers[t].seen >= l.capacity
    case CasSucceeds(t) =>
      t in l.producers && l.producers[t].Reserving? && l.producers[t].seen < l.capacity && l.size == l.producers[t].seen
    // compare_exchange_weak may fail for no reason, so no test of size here
    case CasFails(t) => t in l.producers && l.producers[t].Reserving? && l.producers[t].seen < l.capacity
    case Push(t) => t in l.producers && l.producers[t].Pushing?
    case ReleaseFailed(t) => t in l.producers && l.producers[t].Releasing?
    case WakeForSpace(t, accepting) =>
      t in l.producers && l.producers[t].WaitingForSpace? && (!accepting || l.size < l.capacity)
    case WorkerStarts => l.worker.NotStarted?
    case WorkerPops => (l.worker.Popping? || l.worker.Draining?) && l.queue != []
    case WorkerPopEnds => l.worker.Popping? && (l.closed || l.stopRequested)
    case WorkerReleases => l.worker.ReleasingSlot?
    case WorkerProcesses => l.worker.Processing?
    case WorkerReadsDrain => l.worker.CheckingDrain?
    case WorkerDrainEnds => l.worker.Draining? && l.queue == []
    // stop_lanes_ writes the flag before it closes any queue; a later stop of the same
    // lanes finds no live worker
    case SetDrain(_) => !l.closed || !WorkerActive(l.worker)
    case CloseQueue => true
    case RequestStop => l.closed
  }

  function Resolve(l: Lane, t: Tid, outcome: Outcome): Lane
    requires t in l.producers
  {
    l.(producers := l.producers - {t}, resolved := l.resolved + [Resolution(l.producers[t].offer, outcome)])
  }

  function Apply(l: Lane, s: Step): Lane
    requires Enabled(l, s)
  {
    match s
    case Begin(t, e) =>
      var o := Offer(t, e);
      l.(offers := l.offers + [o],
         producers := l.producers[t := if l.policy.BlockWhenFull? then CheckingAccepting(o) else LoadingSize(o)])
    case ReadAccepting(t, accepting) =>
      if accepting then l.(producers := l.producers[t := LoadingSize(l.producers[t].offer)])
      else Resolve(l, t, RejectedNotAccepting)
    case LoadSize(t) => l.(producers := l.producers[t := Reserving(l.producers[t].offer, l.size)])
    case GiveUpReserve(t) =>
      if l.policy.BlockWhenFull? then l.(producers := l.producers[t := WaitingForSpace(l.producers[t].offer)])
      else Resolve(l, t, RejectedFull)
    case CasSucceeds(t) =>
      l.(size := l.producers[t].seen + 1, producers := l.producers[t := Pushing(l.producers[t].offer)])
    case CasFails(t) => l.(producers := l.producers[t := Reserving(l.producers[t].offer, l.size)])
    case Push(t) =>
      if l.closed then l.(producers := l.producers[t := Releasing(l.producers[t].offer)])
      else Resolve(l, t, Accepted).(queue := l.queue + [l.producers[t].offer])
    case ReleaseFailed(t) => Resolve(l, t, RejectedClosed).(size := l.size - 1)
    case WakeForSpace(t, _) => l.(producers := l.producers[t := CheckingAccepting(l.producers[t].offer)])
    case WorkerStarts => l.(worker := Popping, drainOnStop := true)
    case WorkerPops => l.(queue := l.queue[1..], worker := ReleasingSlot(l.queue[0], l.worker.Draining?))
    case WorkerPopEnds => l.(worker := CheckingDrain)
    case WorkerReleases => l.(size := l.size - 1, worker := Processing(l.worker.offer, l.worker.draining))
    case WorkerProcesses =>
      l.(processed := l.processed + [l.worker.offer], worker := if l.worker.draining then Draining else Popping)
    case WorkerReadsDrain => l.(worker := if l.drainOnStop then Draining else Exited(false))
    case WorkerDrainEnds => l.(worker := Exited(true))
    case SetDrain(drain) => l.(drainOnStop := drain)
    case CloseQueue => l.(closed := true)
    case RequestStop => l.(stopRequested := true)
  }

  lemma {:induction false} UnusedTid(used: set<Tid>) returns (t: Tid)
    ensures forall u | u in used :: u < t
    ensures t !in used
  {
    t := 0;
    if used != {} {
      var u :| u in used;
      t := UnusedTid(used - {u});
      assert forall v | v in used :: v == u || v in used - {u};
      t := if u < t then t else u + 1;
    }
  }

  // ---------------------------------------------------------------- views of a state

  function AcceptedOf(r: seq<Resolution>): seq<Offer> {
    if r == [] then []
    else AcceptedOf(r[..|r| - 1]) + if r[|r| - 1].outcome.Accepted? then [r[|r| - 1].offer] else []
  }

  function OffersOf(r: seq<Resolution>): seq<Offer> {
    seq(|r|, i requires 0 <= i < |r| => r[i].offer)
  }

  /** The subsequence that belongs to one producer. */
  function By(t: Tid, s: seq<Offer>): seq<Offer> {
    if s == [] then []
    else By(t, s[..|s| - 1]) + if s[|s| - 1].producer == t then [s[|s| - 1]] else []
  }

  /** The event the worker has taken from the queue and not yet processed. */
  function InHand(w: WorkerPc): seq<Offer> {
    match w
    case ReleasingSlot(o, _) => [o]
    case Processing(o, _) => [o]
    case _ => []
  }

  function InFlight(l: Lane, t: Tid): seq<Offer> {
    if t in l.producers then [l.producers[t].offer] else []
  }

  predicate HoldsSlot(pc: ProducerPc) {
    pc.Pushing? || pc.Releasing?
  }

  function Holders(producers: map<Tid, ProducerPc>): set<Tid> {
    set t | t in producers && HoldsSlot(producers[t])
  }

  function WorkerSlots(w: WorkerPc): nat {
    if w.ReleasingSlot? then 1 else 0
  }

  predicate LeftMainLoop(w: WorkerPc) {
    match w
    case ReleasingSlot(_, draining) => draining
    case Processing(_, draining) => draining
    case CheckingDrain => true
    case Draining => true
    case Exited(_) => true
    case _ => false
  }

  // ---------------------------------------------------------------- the invariant

  /** Every unit of `size_` is owned: by a queued event, by a producer between its CAS and
      its push (or release), or by a worker between its pop and its release. */
  ghost predicate SlotsAccounted(l: Lane) {
    && l.size == |l.queue| + |Holders(l.producers)| + WorkerSlots(l.worker)
    && l.size <= l.capacity
    && 1 <= l.capacity
  }

  ghost predicate Conserved(l: Lane) {
    AcceptedOf(l.resolved) == l.processed + InHand(l.worker) + l.queue
  }

  ghost predicate ProducersOrdered(l: Lane) {
    && (forall t | t in l.producers :: l.producers[t].offer.producer == t)
    && (forall t :: By(t, l.offers) == By(t, OffersOf(l.resolved)) + InFlight(l, t))
  }

  predicate InDrainLoop(w: WorkerPc) {
    w.Draining? || ((w.ReleasingSlot? || w.Processing?) && w.draining)
  }

  ghost predicate ShutdownOrdered(l: Lane) {
    && (LeftMainLoop(l.worker) ==> l.closed)
    && (InDrainLoop(l.worker) ==> l.drainOnStop)
    && (l.stopRequested ==> l.closed)
    && (l.worker == Exited(true) ==> l.queue == [])
    && (l.worker.NotStarted? ==> l.processed == [])
  }

  ghost predicate ResolutionJustified(l: Lane, r: Resolution) {
    match r.outcome
    case Accepted => true
    case RejectedFull => l.policy.DropWhenFull?
    case RejectedClosed => l.closed
    case RejectedNotAccepting => l.policy.BlockWhenFull?
  }

  ghost predicate OutcomesJustified(l: Lane) {
    && (forall i | 0 <= i < |l.resolved| :: ResolutionJustified(l, l.resolved[i]))
    && (forall t | t in l.producers && l.producers[t].Releasing? :: l.closed)
    && (forall t | t in l.producers && (l.producers[t].CheckingAccepting? || l.producers[t].WaitingForSpace?) ::
          l.policy.BlockWhenFull?)
  }

  ghost predicate Inv(l: Lane) {
    SlotsAccounted(l) && Conserved(l) && ProducersOrdered(l) && ShutdownOrdered(l) && OutcomesJustified(l)
  }

  // ---------------------------------------------------------------- one step keeps it

  lemma SetPc(producers: map<Tid, ProducerPc>, t: Tid, pc: ProducerPc)
    ensures |Holders(producers[t := pc])| ==
            |Holders(producers)|
            - (if t in producers && HoldsSlot(producers[t]) then 1 else 0)
            + (if HoldsSlot(pc) then 1 else 0)
  {
    var others := Holders(producers) - {t};
    forall u ensures u in Holders(producers[t := pc]) <==> u in others || (u == t && HoldsSlot(pc)) {
    }
    assert Holders(producers[t := pc]) == if HoldsSlot(pc) then others + {t} else others;
    assert Holders(producers) == if t in producers && HoldsSlot(producers[t]) then others + {t} else others;
  }

  lemma DropPc(producers: map<Tid, ProducerPc>, t: Tid)
    requires t in producers
    ensures |Holders(producers - {t})| == |Holders(producers)| - if HoldsSlot(producers[t]) then 1 else 0
  {
    assert Holders(producers - {t}) == Holders(producers) - {t};
  }

  lemma AppendViews(r: seq<Resolution>, x: Resolution)
    ensures AcceptedOf(r + [x]) == AcceptedOf(r) + if x.outcome.Accepted? then [x.offer] else []
    ensures OffersOf(r + [x]) == OffersOf(r) + [x.offer]
  {
    assert (r + [x])[..|r|] == r;
  }

  lemma AppendBy(t: Tid, s: seq<Offer>, x: Offer)
    ensures By(t, s + [x]) == By(t, s) + if x.producer == t then [x] else []
  {
    assert (s + [x])[..|s|] == s;
  }

  lemma StepKeepsSlots(l: Lane, s: Step)
    requires Enabled(l, s) && Inv(l)
    ensures SlotsAccounted(Apply(l, s))
  {
    match s
    case Begin(t, e) => SetPc(l.producers, t, Apply(l, s).producers[t]);
    case ReadAccepting(t, accepting) =>
      if accepting { SetPc(l.producers, t, LoadingSize(l.producers[t].offer)); } else { DropPc(l.producers, t); }
    case LoadSize(t) => SetPc(l.producers, t, Reserving(l.producers[t].offer, l.size));
    case GiveUpReserve(t) =>
      SetPc(l.producers, t, WaitingForSpace(l.producers[t].offer));
      DropPc(l.producers, t);
    case CasSucceeds(t) => SetPc(l.producers, t, Pushing(l.producers[t].offer));
    case CasFails(t) => SetPc(l.producers, t, Reserving(l.producers[t].offer, l.size));
    case Push(t) =>
      SetPc(l.producers, t, Releasing(l.producers[t].offer));
      DropPc(l.producers, t);
    case ReleaseFailed(t) => DropPc(l.producers, t);
    case WakeForSpace(t, _) => SetPc(l.producers, t, CheckingAccepting(l.producers[t].offer));
    case _ =>
  }

  lemma StepKeepsConserved(l: Lane, s: Step)
    requires Enabled(l, s) && Inv(l)
    ensures Conserved(Apply(l, s))
  {
    var l' := Apply(l, s);
    if l'.resolved != l.resolved {
      ResolveAppends(l, s);
      AppendViews(l.resolved, Resolution(l.producers[s.t].offer, l'.resolved[|l.resolved|].outcome));
      assert l'.processed + InHand(l'.worker) == l.processed + InHand(l.worker);
    } else {
      OthersConserve(l, s);
    }
  }

  lemma OthersConserve(l: Lane, s: Step)
    requires Enabled(l, s) && Apply(l, s).resolved == l.resolved
    ensures var l' := Apply(l, s);
            l'.processed + InHand(l'.worker) + l'.queue == l.processed + InHand(l.worker) + l.queue
  {
    match s
    case WorkerPops => TakesFirst(l.processed, l.queue);
    case WorkerProcesses => HandsOver(l.processed, l.worker.offer, l.queue);
    case _ =>
  }

  lemma TakesFirst(processed: seq<Offer>, queue: seq<Offer>)
    requires queue != []
    ensures processed + [queue[0]] + queue[1..] == processed + [] + queue
  {
  }

  lemma HandsOver(processed: seq<Offer>, o: Offer, queue: seq<Offer>)
    ensures (processed + [o]) + [] + queue == processed + [o] + queue
  {
  }

  /** A step ends at most one call, its own thread's. */
  lemma ResolveAppends(l: Lane, s: Step)
    requires Enabled(l, s)
    ensures var l' := Apply(l, s);
            || l'.resolved == l.resolved
            || (|l'.resolved| == |l.resolved| + 1 && !s.Begin? && l'.offers == l.offers
                && (s.ReadAccepting? || s.GiveUpReserve? || s.Push? || s.ReleaseFailed?)
                && l'.resolved == l.resolved + [Resolution(l.producers[s.t].offer, l'.resolved[|l.resolved|].outcome)]
                && l'.producers == l.producers - {s.t}
                && (l'.resolved[|l.resolved|].outcome.Accepted? <==> s.Push?)
                && (l'.resolved[|l.resolved|].outcome.RejectedNotAccepting? <==> s.ReadAccepting?)
                && (s.ReadAccepting? ==> !s.accepting))
  {
  }

  lemma KeepsInFlight(l: Lane, s: Step, t: Tid)
    requires Enabled(l, s) && !s.Begin? && Apply(l, s).resolved == l.resolved
    ensures InFlight(Apply(l, s), t) == InFlight(l, t) && Apply(l, s).offers == l.offers
  {
  }

  lemma StepKeepsProducers(l: Lane, s: Step)
    requires Enabled(l, s) && Inv(l)
    ensures ProducersOrdered(Apply(l, s))
  {
    var l' := Apply(l, s);
    ResolveAppends(l, s);
    forall t ensures By(t, l'.offers) == By(t, OffersOf(l'.resolved)) + InFlight(l', t) {
      assert By(t, l.offers) == By(t, OffersOf(l.resolved)) + InFlight(l, t);
      if s.Begin? {
        AppendBy(t, l.offers, Offer(s.t, s.event));
      } else if l'.resolved != l.resolved {
        ResolvedStaysOrdered(l, l', l'.resolved[|l.resolved|], t);
      } else {
        KeepsInFlight(l, s, t);
      }
    }
  }

  lemma ResolvedStaysOrdered(l: Lane, l': Lane, x: Resolution, t: Tid)
    requires ProducersOrdered(l) && x.offer.producer in l.producers && l.producers[x.offer.producer].offer == x.offer
    requires l'.offers == l.offers && l'.resolved == l.resolved + [x]
    requires l'.producers == l.producers - {x.offer.producer}
    ensures By(t, l'.offers) == By(t, OffersOf(l'.resolved)) + InFlight(l', t)
  {
    AppendViews(l.resolved, x);
    AppendBy(t, OffersOf(l.resolved), x.offer);
    assert By(t, l.offers) == By(t, OffersOf(l.resolved)) + InFlight(l, t);
  }

  /** The steps of the worker; all others leave it where it is. */
  predicate WorkerStep(s: Step) {
    s.WorkerPops? || s.WorkerPopEnds? || s.WorkerReleases? || s.WorkerProcesses?
    || s.WorkerReadsDrain? || s.WorkerDrainEnds?
  }

  lemma WorkerKeepsShutdown(l: Lane, s: Step)
    requires Enabled(l, s) && WorkerStep(s) && ShutdownOrdered(l)
    ensures ShutdownOrdered(Apply(l, s))
  {
  }

  lemma OthersKeepShutdown(l: Lane, s: Step)
    requires Enabled(l, s) && !WorkerStep(s) && ShutdownOrdered(l)
    ensures ShutdownOrdered(Apply(l, s))
  {
  }

  lemma StepKeepsShutdown(l: Lane, s: Step)
    requires Enabled(l, s) && ShutdownOrdered(l)
    ensures ShutdownOrdered(Apply(l, s))
  {
    if WorkerStep(s) {
      WorkerKeepsShutdown(l, s);
    } else {
      OthersKeepShutdown(l, s);
    }
  }

  lemma NewOutcomeJustified(l: Lane, s: Step)
    requires Enabled(l, s) && OutcomesJustified(l)
    ensures var l' := Apply(l, s);
            && l'.policy == l.policy && (l.closed ==> l'.closed)
            && (l'.resolved != l.resolved ==> ResolutionJustified(l', l'.resolved[|l'.resolved| - 1]))
  {
  }

  lemma CallersStayJustified(l: Lane, s: Step)
    requires Enabled(l, s) && OutcomesJustified(l)
    ensures forall t | t in Apply(l, s).producers ::
              && (Apply(l, s).producers[t].Releasing? ==> Apply(l, s).closed)
              && (Apply(l, s).producers[t].CheckingAccepting? || Apply(l, s).producers[t].WaitingForSpace? ==>
                    Apply(l, s).policy.BlockWhenFull?)
  {
  }

  lemma StepKeepsOutcomes(l: Lane, s: Step)
    requires Enabled(l, s) && OutcomesJustified(l)
    ensures OutcomesJustified(Apply(l, s))
  {
    ResolveAppends(l, s);
    NewOutcomeJustified(l, s);
    CallersStayJustified(l, s);
    forall i | 0 <= i < |Apply(l, s).resolved| ensures ResolutionJustified(Apply(l, s), Apply(l, s).resolved[i]) {
      if i < |l.resolved| {
        assert ResolutionJustified(l, l.resolved[i]);
      }
    }
  }

  lemma StepKeepsInv(l: Lane, s: Step)
    requires Enabled(l, s) && Inv(l)
    ensures Inv(Apply(l, s))
  {
    StepKeepsSlots(l, s);
    StepKeepsConserved(l, s);
    StepKeepsProducers(l, s);
    StepKeepsShutdown(l, s);
    StepKeepsOutcomes(l, s);
  }

  // ---------------------------------------------------------------- runs

  ghost predicate ValidRun(l: Lane, run: seq<Step>)
    decreases run
  {
    run == [] || (Enabled(l, run[0]) && ValidRun(Apply(l, run[0]), run[1..]))
  }

  ghost function Run(l: Lane, run: seq<Step>): Lane
    requires ValidRun(l, run)
    decreases run
  {
    if run == [] then l else Run(Apply(l, run[0]), run[1..])
  }

  lemma NewLaneInv(capacity: nat, policy: Policy)
    ensures Inv(NewLane(capacity, policy))
  {
  }

  lemma {:induction false} RunKeepsInv(l: Lane, run: seq<Step>)
    requires Inv(l) && ValidRun(l, run)
    ensures Inv(Run(l, run))
    decreases run
  {
    if run != [] {
      StepKeepsInv(l, run[0]);
      RunKeepsInv(Apply(l, run[0]), run[1..]);
    }
  }

  lemma {:induction false} RunAppends(l: Lane, run: seq<Step>, s: Step)
    requires ValidRun(l, run) && Enabled(Run(l, run), s)
    ensures ValidRun(l, run + [s]) && Run(l, run + [s]) == Apply(Run(l, run), s)
    decreases run
  {
    if run != [] {
      RunAppends(Apply(l, run[0]), run[1..], s);
      assert (run + [s])[1..] == run[1..] + [s];
    }
  }

  // ---------------------------------------------------------------- slot accounting

  lemma StepKeepsShape(l: Lane, s: Step)
    requires Enabled(l, s)
    ensures Apply(l, s).capacity == l.capacity && Apply(l, s).policy == l.policy
  {
  }

  lemma {:induction false} RunKeepsShape(l: Lane, run: seq<Step>)
    requires ValidRun(l, run)
    ensures Run(l, run).capacity == l.capacity && Run(l, run).policy == l.policy
    decreases run
  {
    if run != [] {
      StepKeepsShape(l, run[0]);
      RunKeepsShape(Apply(l, run[0]), run[1..]);
    }
  }

  /** In every reachable state of a lane, for any number of threads and with the load and the
      CAS as separate steps: `size_` counts the queued events plus the half-finished
      operations, it stays within 0..capacity, so the queue never outgrows the capacity it was
      built with (at least one event) and no `fetch_sub` ever underflows. */
  lemma SlotAccounting(capacity: nat, policy: Policy, run: seq<Step>)
    requires ValidRun(NewLane(capacity, policy), run)
    ensures var l := Run(NewLane(capacity, policy), run);
            && l.capacity == (if capacity >= 1 then capacity else 1) && l.policy == policy
            && l.size == |l.queue| + |Holders(l.producers)| + WorkerSlots(l.worker)
            && 0 <= l.size <= l.capacity
            && |l.queue| <= l.capacity
            && (forall s: Step :: (s.ReleaseFailed? || s.WorkerReleases?) && Enabled(l, s) ==> 1 <= l.size)
  {
    NewLaneInv(capacity, policy);
    RunKeepsInv(NewLane(capacity, policy), run);
    RunKeepsShape(NewLane(capacity, policy), run);
    var l := Run(NewLane(capacity, policy), run);
    forall s: Step | s.ReleaseFailed? && Enabled(l, s) ensures 1 <= l.size {
      assert s.t in Holders(l.producers);
      assert Holders(l.producers) != {};
    }
  }

  // ---------------------------------------------------------------- order and conservation

  ghost predicate Subsequence(a: seq<Offer>, b: seq<Offer>) {
    a == []
    || (b != [] && Subsequence(a, b[..|b| - 1]))
    || (b != [] && a[|a| - 1] == b[|b| - 1] && Subsequence(a[..|a| - 1], b[..|b| - 1]))
  }

  lemma {:induction false} ByConcat(t: Tid, a: seq<Offer>, b: seq<Offer>)
    ensures By(t, a + b) == By(t, a) + By(t, b)
  {
    if b == [] {
      assert a + b == a;
    } else {
      ByConcat(t, a, b[..|b| - 1]);
      assert (a + b)[..|a + b| - 1] == a + b[..|b| - 1];
    }
  }

  lemma {:induction false} SubsequenceAppend(a: seq<Offer>, b: seq<Offer>, c: seq<Offer>)
    requires Subsequence(a, b)
    ensures Subsequence(a, b + c)
    decreases |c|
  {
    if c == [] {
      assert b + c == b;
    } else {
      SubsequenceAppend(a, b, c[..|c| - 1]);
      assert (b + c)[..|b + c| - 1] == b + c[..|c| - 1];
    }
  }

  lemma SubsequenceSnoc(a: seq<Offer>, b: seq<Offer>, x: Offer)
    requires Subsequence(a, b)
    ensures Subsequence(a + [x], b + [x])
  {
    assert (b + [x])[..|b|] == b && (a + [x])[..|a|] == a;
  }

  lemma {:induction false} AcceptedBySubsequence(t: Tid, r: seq<Resolution>)
    ensures Subsequence(By(t, AcceptedOf(r)), By(t, OffersOf(r)))
  {
    if r != [] {
      var init, last := r[..|r| - 1], r[|r| - 1];
      AcceptedBySubsequence(t, init);
      assert r == init + [last];
      AppendViews(init, last);
      AppendBy(t, OffersOf(init), last.offer);
      AppendBy(t, AcceptedOf(init), last.offer);
      var a, b := By(t, AcceptedOf(init)), By(t, OffersOf(init));
      SubsequenceSnoc(a, b, last.offer);
      SubsequenceAppend(a, b, [last.offer]);
      assert By(t, OffersOf(r)) == if last.offer.producer == t then b + [last.offer] else b;
      assert AcceptedOf(r) == if last.outcome.Accepted? then AcceptedOf(init) + [last.offer] else AcceptedOf(init);
      assert By(t, AcceptedOf(r)) ==
             if last.offer.producer == t && last.outcome.Accepted? then a + [last.offer] else a;
    }
  }

  /** The lane is a FIFO: what it accepted is what it processed, then what the worker holds,
      then what is queued.  Seen from one producer, its processed events are a prefix of its
      accepted ones, which appear in the order in which it submitted them. */
  lemma FifoConservation(capacity: nat, policy: Policy, run: seq<Step>, t: Tid)
    requires ValidRun(NewLane(capacity, policy), run)
    ensures var l := Run(NewLane(capacity, policy), run);
            && AcceptedOf(l.resolved) == l.processed + InHand(l.worker) + l.queue
            && l.processed <= AcceptedOf(l.resolved)
            && By(t, l.processed) <= By(t, AcceptedOf(l.resolved))
            && Subsequence(By(t, AcceptedOf(l.resolved)), By(t, l.offers))
  {
    NewLaneInv(capacity, policy);
    RunKeepsInv(NewLane(capacity, policy), run);
    PerProducer(Run(NewLane(capacity, policy), run), t);
  }

  lemma PerProducer(l: Lane, t: Tid)
    requires Conserved(l) && ProducersOrdered(l)
    ensures l.processed <= AcceptedOf(l.resolved)
    ensures By(t, l.processed) <= By(t, AcceptedOf(l.resolved))
    ensures Subsequence(By(t, AcceptedOf(l.resolved)), By(t, l.offers))
  {
    ByConcat(t, l.processed, InHand(l.worker) + l.queue);
    assert l.processed + InHand(l.worker) + l.queue == l.processed + (InHand(l.worker) + l.queue);
    AcceptedBySubsequence(t, l.resolved);
    assert By(t, l.offers) == By(t, OffersOf(l.resolved)) + InFlight(l, t);
    SubsequenceAppend(By(t, AcceptedOf(l.resolved)), By(t, OffersOf(l.resolved)), InFlight(l, t));
  }

  // ---------------------------------------------------------------- shutdown

  lemma ClosedStepAcceptsNothing(l: Lane, s: Step)
    requires l.closed && Enabled(l, s)
    ensures Apply(l, s).closed && AcceptedOf(Apply(l, s).resolved) == AcceptedOf(l.resolved)
  {
    var l' := Apply(l, s);
    ResolveAppends(l, s);
    if l'.resolved != l.resolved {
      AppendViews(l.resolved, l'.resolved[|l.resolved|]);
    }
  }

  /** Once a lane's queue is closed no call is accepted any more, whatever any producer was
      in the middle of. */
  lemma {:induction false} ClosedAcceptsNothing(l: Lane, run: seq<Step>)
    requires l.closed && ValidRun(l, run)
    ensures Run(l, run).closed && AcceptedOf(Run(l, run).resolved) == AcceptedOf(l.resolved)
    decreases run
  {
    if run != [] {
      ClosedStepAcceptsNothing(l, run[0]);
      ClosedAcceptsNothing(Apply(l, run[0]), run[1..]);
    }
  }

  lemma {:induction false} ExitedForGood(l: Lane, run: seq<Step>)
    requires Inv(l) && l.worker.Exited? && ValidRun(l, run)
    ensures Run(l, run).worker == l.worker && Run(l, run).processed == l.processed
    decreases run
  {
    if run != [] {
      StepKeepsInv(l, run[0]);
      ExitedForGood(Apply(l, run[0]), run[1..]);
    }
  }

  /** No loss on a graceful close: when the worker has left through its drain loop, the
      events whose push returned true are exactly the events processed, in the same order,
      and nothing that happens later changes either. */
  lemma GracefulExitLosesNothing(capacity: nat, policy: Policy, run: seq<Step>, later: seq<Step>)
    requires ValidRun(NewLane(capacity, policy), run)
    requires Run(NewLane(capacity, policy), run).worker == Exited(true)
    requires ValidRun(Run(NewLane(capacity, policy), run), later)
    ensures var l := Run(NewLane(capacity, policy), run);
            var l' := Run(l, later);
            && l.processed == AcceptedOf(l.resolved)
            && l'.processed == l.processed
            && AcceptedOf(l'.resolved) == AcceptedOf(l.resolved)
            && l'.queue == []
  {
    NewLaneInv(capacity, policy);
    RunKeepsInv(NewLane(capacity, policy), run);
    var l := Run(NewLane(capacity, policy), run);
    RunKeepsInv(l, later);
    ClosedAcceptsNothing(l, later);
    ExitedForGood(l, later);
  }

  /** What a stopped lane loses.  The accepted events are the processed ones followed by the
      discarded ones.  After a drain stop nothing is lost if and only if the worker had been
      started (or there was nothing to lose): `close()` before `start()` drains nothing,
      although the lifecycle notes promise that `close()` drains what is queued. */
  lemma StoppedLaneSplits(capacity: nat, policy: Policy, run: seq<Step>)
    requires ValidRun(NewLane(capacity, policy), run)
    requires !WorkerActive(Run(NewLane(capacity, policy), run).worker)
    ensures var l := Run(NewLane(capacity, policy), run);
            && AcceptedOf(l.resolved) == l.processed + l.queue
            && (l.processed == AcceptedOf(l.resolved) <==> l.queue == [])
            && (l.worker != Exited(false) ==>
                  (l.processed == AcceptedOf(l.resolved) <==> (l.worker.Exited? || AcceptedOf(l.resolved) == [])))
  {
    NewLaneInv(capacity, policy);
    RunKeepsInv(NewLane(capacity, policy), run);
  }

  /** The smallest loss: one accepted event, then close() on a lane that was never started. */
  lemma CloseBeforeStartLoses(capacity: nat, t: Tid, e: Event)
    ensures var run := [Begin(t, e), LoadSize(t), CasSucceeds(t), Push(t), SetDrain(true), CloseQueue];
            var lane := NewLane(capacity, DropWhenFull);
            && ValidRun(lane, run)
            && AcceptedOf(Run(lane, run).resolved) == [Offer(t, e)]
            && Run(lane, run).processed == []
            && !WorkerActive(Run(lane, run).worker)
  {
    var lane := NewLane(capacity, DropWhenFull);
    var run1 := [Begin(t, e)];
    var run2 := run1 + [LoadSize(t)];
    var run3 := run2 + [CasSucceeds(t)];
    var run4 := run3 + [Push(t)];
    var run5 := run4 + [SetDrain(true)];
    assert [] + [Begin(t, e)] == run1 && ValidRun(lane, []);
    RunAppends(lane, [], Begin(t, e));
    RunAppends(lane, run1, LoadSize(t));
    RunAppends(lane, run2, CasSucceeds(t));
    RunAppends(lane, run3, Push(t));
    RunAppends(lane, run4, SetDrain(true));
    RunAppends(lane, run5, CloseQueue);
    AppendViews([], Resolution(Offer(t, e), Accepted));
    assert Run(lane, run4).resolved == [] + [Resolution(Offer(t, e), Accepted)];
    assert run5 + [CloseQueue] == [Begin(t, e), LoadSize(t), CasSucceeds(t), Push(t), SetDrain(true), CloseQueue];
  }

  // ---------------------------------------------------------------- the blocking policy

  ghost predicate NeverRefused(l: Lane) {
    forall i | 0 <= i < |l.resolved| :: !l.resolved[i].outcome.RejectedNotAccepting?
  }

  lemma {:induction false} AllAccepted(r: seq<Resolution>)
    requires forall i | 0 <= i < |r| :: r[i].outcome.Accepted?
    ensures AcceptedOf(r) == OffersOf(r)
  {
    if r != [] {
      AllAccepted(r[..|r| - 1]);
    }
  }

  /** A blocking lane that is open and has never seen `accepting` false drops nothing: from
      each producer it has accepted everything but the call still in progress. */
  lemma BlockingLaneAcceptsAll(l: Lane, t: Tid)
    requires Inv(l) && l.policy.BlockWhenFull? && !l.closed && NeverRefused(l)
    ensures By(t, l.offers) == By(t, AcceptedOf(l.resolved)) + InFlight(l, t)
  {
    forall i | 0 <= i < |l.resolved| ensures l.resolved[i].outcome.Accepted? {
      assert ResolutionJustified(l, l.resolved[i]);
    }
    AllAccepted(l.resolved);
  }

  // ---------------------------------------------------------------- what decides a blocking call

  lemma {:induction false} RunGrows(l: Lane, run: seq<Step>)
    requires ValidRun(l, run)
    ensures var l' := Run(l, run);
            l.offers <= l'.offers && l.resolved <= l'.resolved && l.processed <= l'.processed
    decreases run
  {
    if run != [] {
      StepGrows(l, run[0]);
      RunGrows(Apply(l, run[0]), run[1..]);
    }
  }

  lemma StepGrows(l: Lane, s: Step)
    requires Enabled(l, s)
    ensures var l' := Apply(l, s);
            l.offers <= l'.offers && l.resolved <= l'.resolved && l.processed <= l'.processed
  {
  }

  /** How the calls of one thread ended, in order. */
  function Mine(t: Tid, r: seq<Resolution>): seq<Resolution> {
    if r == [] then []
    else Mine(t, r[..|r| - 1]) + if r[|r| - 1].offer.producer == t then [r[|r| - 1]] else []
  }

  lemma {:induction false} MineConcat(t: Tid, a: seq<Resolution>, b: seq<Resolution>)
    ensures Mine(t, a + b) == Mine(t, a) + Mine(t, b)
  {
    if b == [] {
      assert a + b == a;
    } else {
      MineConcat(t, a, b[..|b| - 1]);
      assert (a + b)[..|a + b| - 1] == a + b[..|b| - 1];
    }
  }

  lemma MineStays(t: Tid, l: Lane, run: seq<Step>)
    requires ValidRun(l, run)
    ensures l.resolved <= Run(l, run).resolved && Mine(t, l.resolved) <= Mine(t, Run(l, run).resolved)
  {
    RunGrows(l, run);
    var r, r' := l.resolved, Run(l, run).resolved;
    assert r' == r + r'[|r|..];
    MineConcat(t, r, r'[|r|..]);
  }

  lemma MineOne(t: Tid, r: seq<Resolution>, x: Resolution)
    ensures Mine(t, r + [x]) == Mine(t, r) + if x.offer.producer == t then [x] else []
  {
    assert (r + [x])[..|r|] == r;
  }

  /** A thread in the middle of a blocking call, before its push. */
  ghost predicate BeforePush(l: Lane, t: Tid) {
    t in l.producers && l.producers[t].offer.producer == t && !l.producers[t].Releasing?
  }

  /** What one step means to a blocking call that has not pushed yet. */
  lemma StepBeforePush(l: Lane, s: Step, t: Tid)
    requires Inv(l) && l.policy.BlockWhenFull? && BeforePush(l, t) && Enabled(l, s)
    ensures var l' := Apply(l, s);
            l'.policy == l.policy &&
            if s == Push(t) then
              if l.closed then
                && t in l'.producers && l'.producers[t] == Releasing(l.producers[t].offer)
                && l'.resolved == l.resolved
              else l'.resolved == l.resolved + [Resolution(l.producers[t].offer, Accepted)]
            else if s == ReadAccepting(t, false) then
              l'.resolved == l.resolved + [Resolution(l.producers[t].offer, RejectedNotAccepting)]
            else
              BeforePush(l', t) && l'.producers[t].offer == l.producers[t].offer
  {
  }

  lemma OtherStepKeepsMine(l: Lane, s: Step, t: Tid)
    requires Inv(l) && Enabled(l, s) && t in l.producers && t in Apply(l, s).producers
    ensures Mine(t, Apply(l, s).resolved) == Mine(t, l.resolved)
  {
    ResolveAppends(l, s);
    if Apply(l, s).resolved != l.resolved {
      MineOne(t, l.resolved, Apply(l, s).resolved[|l.resolved|]);
    }
  }

  /** After a push that found the queue closed the call ends as refused. */
  lemma {:induction false} ReleasingIsRefused(l: Lane, run: seq<Step>, t: Tid)
    requires Inv(l) && ValidRun(l, run) && t in l.producers && l.producers[t].Releasing?
    requires |Mine(t, Run(l, run).resolved)| > |Mine(t, l.resolved)|
    ensures Mine(t, Run(l, run).resolved)[|Mine(t, l.resolved)|] == Resolution(l.producers[t].offer, RejectedClosed)
    decreases run
  {
    var s, l' := run[0], Apply(l, run[0]);
    StepKeepsInv(l, s);
    if s == ReleaseFailed(t) {
      MineOne(t, l.resolved, Resolution(l.producers[t].offer, RejectedClosed));
      MineStays(t, l', run[1..]);
    } else {
      StillReleasing(l, s, t);
      OtherStepKeepsMine(l, s, t);
      ReleasingIsRefused(l', run[1..], t);
    }
  }

  lemma StillReleasing(l: Lane, s: Step, t: Tid)
    requires Enabled(l, s) && t in l.producers && l.producers[t].Releasing? && s != ReleaseFailed(t)
    ensures t in Apply(l, s).producers && Apply(l, s).producers[t] == l.producers[t]
  {
  }

  /** What decides a blocking call.  In a lane that refuses no call for not accepting, a call
      that completes has pushed at some step of the run, and it is accepted if and only if the
      queue was still open at that step. */
  lemma {:induction false} BlockingCallDecidedByPush(l: Lane, run: seq<Step>, t: Tid)
    requires Inv(l) && l.policy.BlockWhenFull? && BeforePush(l, t)
    requires ValidRun(l, run) && NeverRefused(Run(l, run))
    requires |Mine(t, Run(l, run).resolved)| > |Mine(t, l.resolved)|
    ensures exists k: nat :: DecidedAt(l, run, t, k, Mine(t, Run(l, run).resolved)[|Mine(t, l.resolved)|])
    decreases run
  {
    var s, rest := run[0], run[1..];
    var l', end := Apply(l, s), Run(l, run);
    var o, n := l.producers[t].offer, |Mine(t, l.resolved)|;
    StepKeepsInv(l, s);
    StepBeforePush(l, s, t);
    if s == Push(t) {
      if l.closed {
        ReleasingIsRefused(l', rest, t);
      } else {
        MineOne(t, l.resolved, Resolution(o, Accepted));
        MineStays(t, l', rest);
      }
      DecidedHere(l, run, t, Mine(t, end.resolved)[n]);
    } else if s == ReadAccepting(t, false) {
      MineStays(t, l', rest);
      assert false;
    } else {
      OtherStepKeepsMine(l, s, t);
      BlockingCallDecidedByPush(l', rest, t);
      var k: nat :| DecidedAt(l', rest, t, k, Mine(t, end.resolved)[n]);
      DecidedLater(l, run, t, k, Mine(t, end.resolved)[n]);
    }
  }

  /** Step k of the run is thread t's push, and x is its outcome: accepted exactly if the queue
      was open at that step. */
  ghost predicate DecidedAt(l: Lane, run: seq<Step>, t: Tid, k: nat, x: Resolution)
    requires ValidRun(l, run)
  {
    && k < |run| && run[k] == Push(t) && ValidRun(l, run[..k]) && t in Run(l, run[..k]).producers
    && var at := Run(l, run[..k]);
    && x == Resolution(at.producers[t].offer, if at.closed then RejectedClosed else Accepted)
  }

  lemma DecidedHere(l: Lane, run: seq<Step>, t: Tid, x: Resolution)
    requires ValidRun(l, run) && run != [] && run[0] == Push(t) && t in l.producers
    requires x == Resolution(l.producers[t].offer, if l.closed then RejectedClosed else Accepted)
    ensures DecidedAt(l, run, t, 0, x)
  {
    assert run[..0] == [];
  }

  lemma DecidedLater(l: Lane, run: seq<Step>, t: Tid, k: nat, x: Resolution)
    requires ValidRun(l, run) && run != [] && DecidedAt(Apply(l, run[0]), run[1..], t, k, x)
    ensures DecidedAt(l, run, t, k + 1, x)
  {
    assert run[..k + 1][1..] == run[1..][..k] && run[..k + 1][0] == run[0];
  }
}
