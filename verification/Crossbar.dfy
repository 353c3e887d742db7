/**
The sink crossbar: one lane per route, any number of producer threads fanning events out
to the lanes of the route list they saw, one worker per lane, and the lifecycle calls of
the pipeline (start, close, request_stop, add_route, clear_routes, configure) stopping and
rebuilding lanes underneath them.

Every rebuild makes a new *generation* of lanes.  A producer reads `accepting`, takes the
crossbar and copies its lane list at moments of its own, none of which changes anything;
so its submission is one step that names the generation it took, however old, provided
`accepting` has been true since that generation's crossbar was made.  A forced stop gives
each of its lanes a fresh open queue, which a producer still in the fan-out loop will find:
these queues are a *spare* generation of their own, right after the stopped one.

A section under the crossbar's mutex is one step.  Lifecycle calls exclude one another;
producers and workers are never excluded.
*/
module Crossbar {
  import opened Events
  import opened LaneProtocol
  import opened Routing

  /** What `accepting` has been since a generation's crossbar was made (a history): not yet
      true, true from some moment on, or false again after having been true. */
  datatype Gate = Unopened | Open | Shut

  datatype Generation = Generation(routes: seq<Route>, lanes: seq<Lane>, gate: Gate, spare: bool)

  /** A producer inside `SinkCrossbar::submit`: the loop index, and whether it is inside the
      delivery strategy of the lane at that index; `at` is then the generation of the queue
      it entered, the spare one if a forced stop had already replaced the queues. */
  datatype Submission = Submission(event: Event, mask: set<nat>, gen: nat, next: nat, inside: bool, at: nat)

  /** One call of `SinkCrossbar::submit`, in the order in which the calls began. */
  datatype Call = Call(offer: Offer, mask: set<nat>, gen: nat)

  datatype LogEntry =
    | LaneWrote(gen: nat, lane: nat, offer: Offer)        // a worker ran process_
    | CallerWrote(gen: nat, event: Event, mask: set<nat>) // a caller ran dispatch_sync_

  datatype Goal =
    | Recreate                       // close() and request_stop(): a fresh, idle crossbar
    | Restart                        // configure() on a running crossbar

  datatype Phase = ClosingQueue | RequestingStop | Joining

  datatype Control =
    | Quiet
    | Stopping(next: nat, phase: Phase, drain: bool, goal: Goal)

  /** The fields that lifecycle calls write. */
  datatype Lifecycle = Lifecycle(
    routes: seq<Route>,           // Pipeline::Impl::routes
    capacity: nat,
    running: bool,               // SinkCrossbar::running_
    pipelineRunning: bool,       // Pipeline::Impl::running
    accepting: bool,
    control: Control)

  /** The producer threads, the calls they made and the writes that came of them. */
  datatype Traffic = Traffic(
    threads: map<Tid, Submission>,
    submitted: seq<Call>,        // history
    log: seq<LogEntry>)          // history

  datatype State = State(gens: seq<Generation>, life: Lifecycle, traffic: Traffic)

  /** Lifecycle calls, and the sections of a stop in progress. */
  datatype LifecycleAction =
    | SetAccepting(value: bool)
    | StartCall
    | StopCall(drain: bool)
    | AddRouteCall(route: Route)
    | ClearRoutesCall
    | ConfigureCall(newCapacity: nat)
    | CloseLane
    | RequestStopLane
    | JoinLane
    | FinishStop
    | DropQueue(gen: nat, lane: nat)

  /** What a producer thread does. */
  datatype ProducerAction =
    | SubmitBegins(event: Event, mask: set<nat>, gen: nat)
    | LaneSkipped
    | LaneEntered
    | InsideLane(step: Step)
    | SubmitEnds
    | SyncSubmit(event: Event, mask: set<nat>, gen: nat)

  datatype Action =
    | Manage(call: LifecycleAction)
    | Producer(t: Tid, act: ProducerAction)
    | Worker(gen: nat, lane: nat, step: Step)

  // ---------------------------------------------------------------- lanes of a state

  function Last(s: State): nat
    requires s.gens != []
  {
    |s.gens| - 1
  }

  predicate HasLane(s: State, g: nat, i: nat) {
    g < |s.gens| && i < |s.gens[g].lanes|
  }

  function LaneAt(s: State, g: nat, i: nat): Lane
    requires HasLane(s, g, i)
  {
    s.gens[g].lanes[i]
  }

  function WithLane(s: State, g: nat, i: nat, l: Lane): (r: seq<Generation>)
    requires HasLane(s, g, i)
  {
    s.gens[g := s.gens[g].(lanes := s.gens[g].lanes[i := l])]
  }

  /** Generation g was stopped by force and its queues have been replaced. */
  predicate HasSpare(s: State, g: nat) {
    g + 1 < |s.gens| && s.gens[g + 1].spare
  }

  /** Where `lane->queue` leads for a producer with lane list g. */
  function Target(s: State, g: nat): nat {
    if HasSpare(s, g) then g + 1 else g
  }

  /** How far the fan-out loop runs: `i < lanes.size() && i < 64`. */
  function LoopEnd(s: State, g: nat): nat
    requires g < |s.gens|
  {
    if |s.gens[g].lanes| < ROUTE_LIMIT then |s.gens[g].lanes| else ROUTE_LIMIT
  }

  // ---------------------------------------------------------------- lifecycle calls

  /** Every lane of the current generation can take this step. */
  ghost predicate AllCan(s: State, step: Step)
    requires s.gens != []
  {
    forall i: nat | HasLane(s, Last(s), i) :: Enabled(LaneAt(s, Last(s), i), step)
  }

  ghost predicate CanCall(s: State, a: LifecycleAction) {
    var c := s.life.control;
    s.gens != [] &&
    match a
    case SetAccepting(_) => true
    case StartCall => c.Quiet? && (s.life.pipelineRunning || s.life.running || AllCan(s, WorkerStarts))
    case StopCall(drain) => c.Quiet? && AllCan(s, SetDrain(drain))
    case AddRouteCall(_) => c.Quiet? && (s.life.running ==> AllCan(s, SetDrain(true)))
    case ClearRoutesCall => c.Quiet? && (s.life.running ==> AllCan(s, SetDrain(true)))
    case ConfigureCall(_) => c.Quiet?
    case CloseLane => c.Stopping? && c.phase.ClosingQueue? && HasLane(s, Last(s), c.next)
    case RequestStopLane =>
      && c.Stopping? && c.phase.RequestingStop? && HasLane(s, Last(s), c.next)
      && Enabled(LaneAt(s, Last(s), c.next), RequestStop)
    case JoinLane =>
      && c.Stopping? && c.phase.Joining? && HasLane(s, Last(s), c.next)
      && !WorkerActive(LaneAt(s, Last(s), c.next).worker)
    case FinishStop => c.Stopping? && c.phase.Joining? && c.next == |s.gens[Last(s)].lanes|
    case DropQueue(g, i) => HasLane(s, g, i) && g < Last(s)
  }

  /** The step that a lifecycle action makes in lane i of generation g, if any: writing every
      drain flag under one lock, starting every worker under one lock, or closing and
      stopping one lane after the other. */
  function CallStep(s: State, a: LifecycleAction, g: nat, i: nat): Option<Step>
    requires s.gens != [] && HasLane(s, g, i)
  {
    var c := s.life.control;
    match a
    case StartCall =>
      if !s.life.pipelineRunning && !s.life.running && g == Last(s) then Some(WorkerStarts) else None
    case StopCall(drain) => if g == Last(s) then Some(SetDrain(drain)) else None
    case AddRouteCall(_) => if s.life.running && g == Last(s) then Some(SetDrain(true)) else None
    case ClearRoutesCall => if s.life.running && g == Last(s) then Some(SetDrain(true)) else None
    case CloseLane => if c.Stopping? && g == Last(s) && i == c.next then Some(CloseQueue) else None
    case RequestStopLane =>
      // only a joinable worker is asked to stop
      if c.Stopping? && g == Last(s) && i == c.next && !LaneAt(s, g, i).worker.NotStarted?
      then Some(RequestStop) else None
    case DropQueue(h, j) => if g == h && i == j then Some(CloseQueue) else None
    case _ => None
  }

  /** stop_lanes_ after its first section. */
  function StopFrom(s: State, drain: bool, goal: Goal): Control
    requires s.gens != []
  {
    Stopping(0, if s.gens[Last(s)].lanes == [] then Joining else ClosingQueue, drain, goal)
  }

  /** What a lifecycle action does to the pipeline's and the crossbar's own fields. */
  function CallEffect(s: State, a: LifecycleAction): Lifecycle
    requires s.gens != []
  {
    var f, c := s.life, s.life.control;
    match a
    case SetAccepting(value) => f.(accepting := value)
    case StartCall => f.(pipelineRunning := true, running := true)
    case StopCall(drain) => f.(pipelineRunning := false, running := false, control := StopFrom(s, drain, Recreate))
    case AddRouteCall(route) =>
      if f.running then f.(routes := f.routes + [route], running := false, control := StopFrom(s, true, Restart))
      else f.(routes := f.routes + [route])
    case ClearRoutesCall =>
      if f.running then f.(routes := [], running := false, control := StopFrom(s, true, Restart))
      else f.(routes := [])
    case ConfigureCall(newCapacity) => f.(capacity := newCapacity)
    case CloseLane => if c.Stopping? then f.(control := c.(phase := RequestingStop)) else f
    case RequestStopLane =>
      if !c.Stopping? then f
      else if c.next + 1 == |s.gens[Last(s)].lanes| then f.(control := c.(phase := Joining, next := 0))
      else f.(control := c.(phase := ClosingQueue, next := c.next + 1))
    case JoinLane => if c.Stopping? then f.(control := c.(next := c.next + 1)) else f
    case FinishStop => f.(running := c.Stopping? && c.goal.Restart?, control := Quiet)
    case DropQueue(_, _) => f
  }

  /** `SinkCrossbar::configure` clears the lanes and makes new ones: at once when the crossbar
      is idle, otherwise when the stop has joined every worker. */
  predicate Rebuilds(s: State, a: LifecycleAction) {
    match a
    case AddRouteCall(_) => !s.life.running
    case ClearRoutesCall => !s.life.running
    case ConfigureCall(_) => !s.life.pipelineRunning
    case FinishStop => true
    case _ => false
  }

  /** A lane as a rebuild makes it; on a restart its worker is started in the same section. */
  function MakeLane(f: Lifecycle, policy: Policy): Lane {
    var lane := NewLane(f.capacity, policy);
    if f.running then Apply(lane, WorkerStarts) else lane
  }

  function MakeGeneration(f: Lifecycle, gate: Gate): Generation {
    var lanes := seq(|f.routes|, i requires 0 <= i < |f.routes| => MakeLane(f, f.routes[i].delivery));
    Generation(f.routes, lanes, gate, false)
  }

  /** A new crossbar is made except by add_route, clear_routes and the restart they may cause,
      which put new lanes into the old crossbar. */
  function NewGate(s: State, a: LifecycleAction): Gate
    requires s.gens != []
  {
    if a.ConfigureCall? || (a.FinishStop? && s.life.control.Stopping? && s.life.control.goal.Recreate?)
    then if s.life.accepting then Open else Unopened
    else s.gens[Last(s)].gate
  }

  function NextGate(gate: Gate, a: LifecycleAction): Gate {
    match a
    case SetAccepting(true) => if gate.Unopened? then Open else gate
    case SetAccepting(false) => if gate.Open? then Shut else gate
    case _ => gate
  }

  /** The last section of a forced stop. */
  predicate LeavesSpare(s: State, a: LifecycleAction) {
    a.FinishStop? && s.life.control.Stopping? && !s.life.control.drain
  }

  function SpareGeneration(stopped: Generation): Generation {
    Generation(stopped.routes,
               seq(|stopped.lanes|, i requires 0 <= i < |stopped.lanes| =>
                 NewLane(stopped.lanes[i].capacity, stopped.lanes[i].policy)),
               Shut, true)
  }

  function Stepped(l: Lane, step: Option<Step>): Lane {
    if step.Some? && Enabled(l, step.value) then Apply(l, step.value) else l
  }

  function CallGeneration(s: State, a: LifecycleAction, g: nat): Generation
    requires g < |s.gens|
  {
    s.gens[g].(lanes := seq(|s.gens[g].lanes|, i requires 0 <= i < |s.gens[g].lanes| =>
                            Stepped(LaneAt(s, g, i), CallStep(s, a, g, i))),
               gate := NextGate(s.gens[g].gate, a))
  }

  function DoCall(s: State, a: LifecycleAction): State
    requires s.gens != []
  {
    var f := CallEffect(s, a);
    var stepped := seq(|s.gens|, g requires 0 <= g < |s.gens| => CallGeneration(s, a, g));
    var spare := if LeavesSpare(s, a) then [SpareGeneration(stepped[Last(s)])] else [];
    var rebuilt := if Rebuilds(s, a) then [MakeGeneration(f, NewGate(s, a))] else [];
    State(stepped + spare + rebuilt, f, s.traffic)
  }

  // ---------------------------------------------------------------- producers

  /** Thread t is in the fan-out loop at an index that the loop still covers. */
  predicate AtLane(s: State, t: Tid) {
    var threads := s.traffic.threads;
    t in threads && threads[t].gen < |s.gens| && threads[t].next < LoopEnd(s, threads[t].gen)
  }

  /** A step that a thread takes inside the delivery strategy; reads of `accepting` see its value. */
  predicate ProducerStep(s: State, t: Tid, step: Step) {
    match step
    case ReadAccepting(u, a) => u == t && a == s.life.accepting
    case LoadSize(u) => u == t
    case GiveUpReserve(u) => u == t
    case CasSucceeds(u) => u == t
    case CasFails(u) => u == t
    case Push(u) => u == t
    case ReleaseFailed(u) => u == t
    case WakeForSpace(u, a) => u == t && a == s.life.accepting
    case _ => false
  }

  predicate CanProduce(s: State, t: Tid, a: ProducerAction) {
    var threads := s.traffic.threads;
    match a
    case SubmitBegins(_, _, g) => t !in threads && g < |s.gens| && !s.gens[g].spare && !s.gens[g].gate.Unopened?
    case LaneSkipped => AtLane(s, t) && !threads[t].inside && threads[t].next !in threads[t].mask
    case LaneEntered =>
      && AtLane(s, t) && !threads[t].inside && threads[t].next in threads[t].mask
      && HasLane(s, Target(s, threads[t].gen), threads[t].next)
      && Enabled(LaneAt(s, Target(s, threads[t].gen), threads[t].next), Begin(t, threads[t].event))
    case InsideLane(step) =>
      && AtLane(s, t) && threads[t].inside && HasLane(s, threads[t].at, threads[t].next)
      && ProducerStep(s, t, step) && Enabled(LaneAt(s, threads[t].at, threads[t].next), step)
    case SubmitEnds =>
      && t in threads && threads[t].gen < |s.gens| && !threads[t].inside
      && threads[t].next == LoopEnd(s, threads[t].gen)
    case SyncSubmit(_, _, g) => g < |s.gens|
  }

  function Produce(s: State, t: Tid, a: ProducerAction): State
    requires CanProduce(s, t, a)
  {
    var io := s.traffic;
    match a
    case SubmitBegins(e, mask, g) =>
      s.(traffic := io.(threads := io.threads[t := Submission(e, mask, g, 0, false, g)],
                        submitted := io.submitted + [Call(Offer(t, e), mask, g)]))
    case LaneSkipped =>
      s.(traffic := io.(threads := io.threads[t := io.threads[t].(next := io.threads[t].next + 1)]))
    case LaneEntered =>
      var th := io.threads[t];
      var at := Target(s, th.gen);
      var l' := Apply(LaneAt(s, at, th.next), Begin(t, th.event));
      s.(gens := WithLane(s, at, th.next, l'),
         traffic := io.(threads := io.threads[t := th.(inside := true, at := at)]))
    case InsideLane(step) =>
      var th := io.threads[t];
      var l' := Apply(LaneAt(s, th.at, th.next), step);
      var th' := if t in l'.producers then th else th.(next := th.next + 1, inside := false);
      s.(gens := WithLane(s, th.at, th.next, l'), traffic := io.(threads := io.threads[t := th']))
    case SubmitEnds => s.(traffic := io.(threads := io.threads - {t}))
    case SyncSubmit(e, mask, g) => s.(traffic := io.(log := io.log + [CallerWrote(g, e, mask)]))
  }

  // ---------------------------------------------------------------- workers

  predicate CanWork(s: State, g: nat, i: nat, step: Step) {
    HasLane(s, g, i) && WorkerStep(step) && Enabled(LaneAt(s, g, i), step)
  }

  function Work(s: State, g: nat, i: nat, step: Step): State
    requires CanWork(s, g, i, step)
  {
    var l, io := LaneAt(s, g, i), s.traffic;
    var log := if step.WorkerProcesses? then io.log + [LaneWrote(g, i, l.worker.offer)] else io.log;
    s.(gens := WithLane(s, g, i, Apply(l, step)), traffic := io.(log := log))
  }

  // ---------------------------------------------------------------- the step relation

  ghost predicate Can(s: State, a: Action) {
    match a
    case Manage(call) => CanCall(s, call)
    case Producer(t, act) => CanProduce(s, t, act)
    case Worker(g, i, step) => CanWork(s, g, i, step)
  }

  function Do(s: State, a: Action): State
    requires s.gens != []
    requires a.Producer? ==> CanProduce(s, a.t, a.act)
    requires a.Worker? ==> CanWork(s, a.gen, a.lane, a.step)
  {
    match a
    case Manage(call) => DoCall(s, call)
    case Producer(t, act) => Produce(s, t, act)
    case Worker(g, i, step) => Work(s, g, i, step)
  }

  /** `Pipeline::Pipeline()`: an idle crossbar with no lanes. */
  function Initial(capacity: nat): State {
    State([Generation([], [], Open, false)], Lifecycle([], capacity, false, false, true, Quiet), Traffic(map[], [], []))
  }

  // ---------------------------------------------------------------- the invariant

  ghost predicate LanesSound(s: State) {
    && s.gens != []
    && (forall g | 0 <= g < |s.gens| :: |s.gens[g].lanes| == |s.gens[g].routes|)
    && (forall g: nat, i: nat | HasLane(s, g, i) :: Inv(LaneAt(s, g, i)))
    && (forall g: nat, i: nat | HasLane(s, g, i) :: LaneAt(s, g, i).policy == s.gens[g].routes[i].delivery)
    && (forall g: nat, i: nat | HasLane(s, g, i) && g < Last(s) :: !WorkerActive(LaneAt(s, g, i).worker))
    && (forall g: nat, i: nat | HasLane(s, g, i) && !s.gens[g].gate.Shut? :: NeverRefused(LaneAt(s, g, i)))
    && (forall g | 0 <= g < |s.gens| :: GateFits(s, g))
  }

  ghost predicate GateFits(s: State, g: nat)
    requires g < |s.gens|
  {
    (s.gens[g].gate.Open? ==> s.life.accepting) && (s.gens[g].gate.Unopened? ==> !s.life.accepting)
  }

  /** The spare queues are just those of the generations that were stopped by force; they are
      never given a worker, and the queues they replace are closed. */
  ghost predicate SparesSound(s: State) {
    && s.gens != [] && !s.gens[0].spare && !s.gens[Last(s)].spare
    && (forall g | 0 < g < |s.gens| && s.gens[g].spare :: !s.gens[g - 1].spare && SpareFits(s.gens[g - 1], s.gens[g]))
    && (forall g: nat, i: nat | HasLane(s, g, i) && g < Last(s) && LaneAt(s, g, i).worker == Exited(false) ::
          HasSpare(s, g))
  }

  ghost predicate SpareFits(stopped: Generation, spare: Generation) {
    && |spare.lanes| == |stopped.lanes| && spare.routes == stopped.routes && spare.gate.Shut?
    && (forall i | 0 <= i < |spare.lanes| ::
          && spare.lanes[i].worker.NotStarted?
          && stopped.lanes[i].closed && stopped.lanes[i].worker != Exited(true))
  }

  /** Thread t sits inside lane i of generation g. */
  predicate Inside(s: State, t: Tid, g: nat, i: nat) {
    var threads := s.traffic.threads;
    t in threads && threads[t].inside && threads[t].at == g && threads[t].next == i
  }

  ghost predicate ThreadSound(s: State, th: Submission) {
    && th.gen < |s.gens| && !s.gens[th.gen].spare && !s.gens[th.gen].gate.Unopened?
    && th.next <= LoopEnd(s, th.gen)
    && (th.inside ==>
          && th.next < LoopEnd(s, th.gen) && th.next in th.mask
          && HasLane(s, th.at, th.next)
          && (th.at == th.gen || (th.at == th.gen + 1 && s.gens[th.at].spare)))
  }

  ghost predicate ThreadsSound(s: State) {
    forall t | t in s.traffic.threads :: ThreadSound(s, s.traffic.threads[t])
  }

  /** The calls of thread t that select lane i of generation g, in program order. */
  function Selected(calls: seq<Call>, t: Tid, g: nat, i: nat): seq<Offer> {
    if calls == [] then []
    else
      var c := calls[|calls| - 1];
      Selected(calls[..|calls| - 1], t, g, i)
      + if c.offer.producer == t && c.gen == g && i in c.mask && i < ROUTE_LIMIT then [c.offer] else []
  }

  /** What the current call of thread t still has to bring to lane i of generation g. */
  function Pending(s: State, t: Tid, g: nat, i: nat): seq<Offer> {
    if t in s.traffic.threads && s.traffic.threads[t].gen == g && i in s.traffic.threads[t].mask && i < ROUTE_LIMIT
       && (s.traffic.threads[t].next < i || (s.traffic.threads[t].next == i && !s.traffic.threads[t].inside))
    then [Offer(t, s.traffic.threads[t].event)]
    else []
  }

  /** Everything thread t has offered to lane i of generation g: to its queue, and then to
      the fresh queue that a forced stop may have put in its place. */
  function OffersTo(s: State, t: Tid, g: nat, i: nat): seq<Offer>
    requires HasLane(s, g, i)
  {
    By(t, LaneAt(s, g, i).offers) + SpareOffers(s, t, g, i)
  }

  function SpareOffers(s: State, t: Tid, g: nat, i: nat): seq<Offer> {
    if HasSpare(s, g) && HasLane(s, g + 1, i) then By(t, LaneAt(s, g + 1, i).offers) else []
  }

  /** A thread is registered in a lane exactly while its loop is inside it, and what the
      lane was offered by the thread is what the thread's calls select for it. */
  ghost predicate LaneFed(s: State, t: Tid, g: nat, i: nat)
    requires HasLane(s, g, i)
  {
    && (t in LaneAt(s, g, i).producers <==> Inside(s, t, g, i))
    && (!s.gens[g].spare ==> OffersTo(s, t, g, i) + Pending(s, t, g, i) == Selected(s.traffic.submitted, t, g, i))
  }

  /** Each lane is fed exactly the events whose mask has its bit. */
  ghost predicate Fed(s: State) {
    forall t: Tid, g: nat, i: nat | HasLane(s, g, i) :: LaneFed(s, t, g, i)
  }

  ghost predicate CallsSound(s: State) {
    forall k | 0 <= k < |s.traffic.submitted| :: s.traffic.submitted[k].gen < |s.gens|
  }

  ghost predicate QuietSound(s: State)
    requires s.gens != []
  {
    && s.life.running == s.life.pipelineRunning
    && s.gens[Last(s)].routes == s.life.routes
    && (forall i: nat | HasLane(s, Last(s), i) ::
          var l := LaneAt(s, Last(s), i);
          !l.closed && if s.life.running then WorkerActive(l.worker) else l.worker.NotStarted?)
  }

  /** Whether stop_lanes_ has already closed lane i of the current generation. */
  predicate ClosedSoFar(c: Control, i: nat)
    requires c.Stopping?
  {
    c.phase.Joining? || i < c.next || (i == c.next && c.phase.RequestingStop?)
  }

  ghost predicate StoppingSound(s: State)
    requires s.gens != [] && s.life.control.Stopping?
  {
    var n := |s.gens[Last(s)].lanes|;
    && !s.life.running
    && s.life.control.next <= n
    && (s.life.control.phase.Joining? || s.life.control.next < n)
    && (s.life.control.goal.Recreate? ==> !s.life.pipelineRunning && s.gens[Last(s)].routes == s.life.routes)
    && (s.life.control.goal.Restart? ==> s.life.pipelineRunning && s.life.control.drain)
    && (forall i: nat | HasLane(s, Last(s), i) ::
          var l := LaneAt(s, Last(s), i);
          && l.drainOnStop == s.life.control.drain
          && (l.closed <==> ClosedSoFar(s.life.control, i))
          && (l.worker.Exited? ==> l.worker.drained == s.life.control.drain)
          && (s.life.control.goal.Restart? ==> !l.worker.NotStarted?)
          && (s.life.control.phase.Joining? && i < s.life.control.next ==> !WorkerActive(l.worker)))
  }

  ghost predicate LifecycleSound(s: State) {
    s.gens != [] && if s.life.control.Quiet? then QuietSound(s) else StoppingSound(s)
  }

  /** The entries of one lane in the global log. */
  function LaneLog(log: seq<LogEntry>, g: nat, i: nat): seq<Offer> {
    if log == [] then []
    else
      var x := log[|log| - 1];
      LaneLog(log[..|log| - 1], g, i)
      + if x.LaneWrote? && x.gen == g && x.lane == i then [x.offer] else []
  }

  ghost predicate LogSound(s: State) {
    && s.gens != []
    && (forall g: nat, i: nat | HasLane(s, g, i) :: LaneLog(s.traffic.log, g, i) == LaneAt(s, g, i).processed)
    && (forall k | 0 <= k < |s.traffic.log| && s.traffic.log[k].LaneWrote? ::
          HasLane(s, s.traffic.log[k].gen, s.traffic.log[k].lane))
    && (forall j, k | 0 <= j < k < |s.traffic.log| && s.traffic.log[j].LaneWrote? && s.traffic.log[k].LaneWrote? ::
          s.traffic.log[j].gen <= s.traffic.log[k].gen)
  }

  ghost predicate CrossbarInv(s: State) {
    LanesSound(s) && SparesSound(s) && ThreadsSound(s) && Fed(s) && CallsSound(s) && LifecycleSound(s) && LogSound(s)
  }

  // ---------------------------------------------------------------- projection to one lane

  /** The step that action a makes in lane i of generation g, if any. */
  function LaneStep(s: State, a: Action, g: nat, i: nat): Option<Step>
    requires HasLane(s, g, i)
  {
    var threads := s.traffic.threads;
    match a
    case Manage(call) => CallStep(s, call, g, i)
    case Producer(t, act) =>
      if act.LaneEntered? && t in threads && g == Target(s, threads[t].gen) && i == threads[t].next
      then Some(Begin(t, threads[t].event))
      else if act.InsideLane? && t in threads && g == threads[t].at && i == threads[t].next then Some(act.step)
      else None
    case Worker(h, j, step) => if g == h && i == j then Some(step) else None
  }

  ghost predicate LaneMoves(l: Lane, step: Option<Step>, l': Lane) {
    match step
    case None => l' == l
    case Some(step) => Enabled(l, step) && l' == Apply(l, step)
  }

  lemma CallEnables(s: State, a: LifecycleAction, g: nat, i: nat)
    requires CanCall(s, a) && HasLane(s, g, i) && CallStep(s, a, g, i).Some?
    ensures Enabled(LaneAt(s, g, i), CallStep(s, a, g, i).value)
  {
  }

  /** Whatever happens in the crossbar, one lane makes at most one step of its own protocol;
      nothing about the other lanes (capacity, policy, sink speed) matters to it. */
  lemma Projects(s: State, a: Action, g: nat, i: nat)
    requires Can(s, a) && HasLane(s, g, i) && s.gens != []
    ensures HasLane(Do(s, a), g, i)
    ensures LaneMoves(LaneAt(s, g, i), LaneStep(s, a, g, i), LaneAt(Do(s, a), g, i))
  {
    if a.Manage? && CallStep(s, a.call, g, i).Some? {
      CallEnables(s, a.call, g, i);
    }
  }

  /** Old lanes stay; a rebuild adds a generation of fresh lanes, after a forced stop preceded
      by the stopped generation's spare queues. */
  ghost predicate Grows(s: State, s': State) {
    && s.gens != []
    && |s.gens| <= |s'.gens| <= |s.gens| + 2
    && (forall g | 0 <= g < |s.gens| ::
          && |s'.gens[g].lanes| == |s.gens[g].lanes| && s'.gens[g].routes == s.gens[g].routes
          && s'.gens[g].spare == s.gens[g].spare)
    && (|s'.gens| > |s.gens| ==>
          s'.traffic == s.traffic && s'.gens[Last(s')] == MakeGeneration(s'.life, s'.gens[Last(s')].gate))
    && (|s'.gens| == |s.gens| + 2 ==>
          s'.gens[Last(s)].lanes == s.gens[Last(s)].lanes && s'.gens[|s.gens|] == SpareGeneration(s'.gens[Last(s)]))
  }

  lemma DoGrows(s: State, a: Action)
    requires Can(s, a) && s.gens != []
    ensures Grows(s, Do(s, a))
    ensures |Do(s, a).gens| == |s.gens| + 2 <==> a.Manage? && LeavesSpare(s, a.call)
    ensures |Do(s, a).gens| > |s.gens| <==> a.Manage? && Rebuilds(s, a.call)
    ensures forall g | 0 <= g < |s.gens| ::
              Do(s, a).gens[g].gate == if a.Manage? then NextGate(s.gens[g].gate, a.call) else s.gens[g].gate
  {
    match a
    case Manage(call) => CallGrows(s, call);
    case Producer(t, act) => ProduceKeepsGenerations(s, t, act);
    case Worker(_, _, _) =>
  }

  lemma CallGrows(s: State, a: LifecycleAction)
    requires CanCall(s, a)
    ensures Grows(s, DoCall(s, a))
    ensures |DoCall(s, a).gens| == |s.gens| + 2 <==> LeavesSpare(s, a)
    ensures |DoCall(s, a).gens| > |s.gens| <==> Rebuilds(s, a)
    ensures forall g | 0 <= g < |s.gens| :: DoCall(s, a).gens[g].gate == NextGate(s.gens[g].gate, a)
  {
  }

  lemma ProduceKeepsGenerations(s: State, t: Tid, a: ProducerAction)
    requires CanProduce(s, t, a) && s.gens != []
    ensures var s' := Produce(s, t, a);
            && |s'.gens| == |s.gens|
            && forall g | 0 <= g < |s.gens| ::
                 && |s'.gens[g].lanes| == |s.gens[g].lanes|
                 && s'.gens[g] == s.gens[g].(lanes := s'.gens[g].lanes)
  {
  }
}
