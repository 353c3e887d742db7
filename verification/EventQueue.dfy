/**
The event queue and the lane loop as the code is written, one thread at a time, while every
other thread does what it likes.  Between two atomic actions of the thread that is running,
the next turn of an arbitrary schedule lets the others take any steps of the lane protocol.
Each call is proved to be a run of LaneProtocol from the state before it to the state after
it, in which the call ends with the outcome it returns and the running thread's accepted
events grow by exactly that one event, or not at all.
*/
module EventQueue {
  import opened Events
  import opened LaneProtocol

  /** What happens between two atomic actions: steps of other threads, the value that
      `accepting` has afterwards, and whether a weak CAS fails for no reason. */
  datatype Turn = Turn(others: seq<Step>, accepting: bool, spurious: bool)

  datatype PopResult = Popped(offer: Offer) | GaveUp | StillWaiting

  datatype Thread = ProducerThread(t: Tid) | WorkerThread

  predicate OwnStep(who: Thread, s: Step) {
    match s
    case Begin(t, _) => who == ProducerThread(t)
    case ReadAccepting(t, _) => who == ProducerThread(t)
    case LoadSize(t) => who == ProducerThread(t)
    case GiveUpReserve(t) => who == ProducerThread(t)
    case CasSucceeds(t) => who == ProducerThread(t)
    case CasFails(t) => who == ProducerThread(t)
    case Push(t) => who == ProducerThread(t)
    case ReleaseFailed(t) => who == ProducerThread(t)
    case WakeForSpace(t, _) => who == ProducerThread(t)
    case SetDrain(_) => false
    case CloseQueue => false
    case RequestStop => false
    case _ => who == WorkerThread
  }

  /** The steps of a turn that can be taken, one after the other. */
  function Taken(l: Lane, who: Thread, steps: seq<Step>): seq<Step>
    decreases |steps|
  {
    if steps == [] then []
    else if Enabled(l, steps[0]) && !OwnStep(who, steps[0])
    then [steps[0]] + Taken(Apply(l, steps[0]), who, steps[1..])
    else Taken(l, who, steps[1..])
  }

  function Moved(l: Lane, who: Thread, steps: seq<Step>): Lane
    decreases |steps|
  {
    if steps == [] then l
    else if Enabled(l, steps[0]) && !OwnStep(who, steps[0]) then Moved(Apply(l, steps[0]), who, steps[1..])
    else Moved(l, who, steps[1..])
  }

  /** The accepted events of one thread, in order. */
  function AcceptedBy(t: Tid, l: Lane): seq<Offer> {
    By(t, AcceptedOf(l.resolved))
  }

  function Grown(accepted: seq<Offer>, ok: bool, o: Offer): seq<Offer> {
    if ok then accepted + [o] else accepted
  }

  /** The call that ended last ended like this. */
  predicate LastOutcome(l: Lane, x: Resolution) {
    l.resolved != [] && l.resolved[|l.resolved| - 1] == x
  }

  /** Every call in progress is registered under its own thread. */
  ghost predicate Tagged(l: Lane) {
    forall t | t in l.producers :: l.producers[t].offer.producer == t
  }

  lemma StepKeepsTagged(l: Lane, s: Step)
    requires Enabled(l, s) && Tagged(l)
    ensures Tagged(Apply(l, s))
  {
  }

  /** The part of the state that only the thread itself changes. */
  ghost predicate SameThread(who: Thread, l: Lane, l': Lane) {
    && l'.capacity == l.capacity && l'.policy == l.policy
    && (l.closed ==> l'.closed)
    && match who
       case ProducerThread(t) =>
         && (t in l.producers <==> t in l'.producers) && (t in l.producers ==> l'.producers[t] == l.producers[t])
         && AcceptedBy(t, l') == AcceptedBy(t, l)
       case WorkerThread => l'.worker == l.worker && l'.processed == l.processed && l.queue <= l'.queue
  }

  lemma OneOther(l: Lane, who: Thread, s: Step)
    requires Enabled(l, s) && !OwnStep(who, s) && Tagged(l)
    ensures SameThread(who, l, Apply(l, s)) && Tagged(Apply(l, s))
  {
    StepKeepsTagged(l, s);
    match who
    case WorkerThread => OtherThanWorker(l, s);
    case ProducerThread(t) =>
      OtherThanProducer(l, s, t);
      ResolveAppends(l, s);
      if Apply(l, s).resolved != l.resolved {
        ResolvedBy(l.resolved, Apply(l, s).resolved[|l.resolved|], t);
      }
  }

  lemma OtherThanWorker(l: Lane, s: Step)
    requires Enabled(l, s) && !OwnStep(WorkerThread, s)
    ensures var l' := Apply(l, s);
            && l'.capacity == l.capacity && l'.policy == l.policy && (l.closed ==> l'.closed)
            && l'.worker == l.worker && l'.processed == l.processed && l.queue <= l'.queue
  {
  }

  lemma OtherThanProducer(l: Lane, s: Step, t: Tid)
    requires Enabled(l, s) && !OwnStep(ProducerThread(t), s)
    ensures var l' := Apply(l, s);
            && l'.capacity == l.capacity && l'.policy == l.policy && (l.closed ==> l'.closed)
            && (t in l.producers <==> t in l'.producers) && (t in l.producers ==> l'.producers[t] == l.producers[t])
  {
  }

  /** One more resolution adds to its own thread's accepted events, if it accepts. */
  lemma ResolvedBy(r: seq<Resolution>, x: Resolution, t: Tid)
    ensures By(t, AcceptedOf(r + [x])) ==
            Grown(By(t, AcceptedOf(r)), x.outcome.Accepted? && x.offer.producer == t, x.offer)
  {
    AppendViews(r, x);
    if x.outcome.Accepted? {
      AppendBy(t, AcceptedOf(r), x.offer);
    } else {
      assert AcceptedOf(r) + [] == AcceptedOf(r);
    }
  }

  lemma {:induction false} OthersMove(l: Lane, who: Thread, steps: seq<Step>)
    requires Tagged(l)
    ensures ValidRun(l, Taken(l, who, steps)) && Run(l, Taken(l, who, steps)) == Moved(l, who, steps)
    ensures SameThread(who, l, Moved(l, who, steps)) && Tagged(Moved(l, who, steps))
    decreases |steps|
  {
    if steps != [] {
      if Enabled(l, steps[0]) && !OwnStep(who, steps[0]) {
        var l' := Apply(l, steps[0]);
        OneOther(l, who, steps[0]);
        OthersMove(l', who, steps[1..]);
        var rest := Taken(l', who, steps[1..]);
        assert ([steps[0]] + rest)[1..] == rest;
      } else {
        OthersMove(l, who, steps[1..]);
      }
    }
  }

  lemma {:induction false} RunConcat(l: Lane, a: seq<Step>, b: seq<Step>)
    requires ValidRun(l, a) && ValidRun(Run(l, a), b)
    ensures ValidRun(l, a + b) && Run(l, a + b) == Run(Run(l, a), b)
    decreases a
  {
    if a == [] {
      assert a + b == b;
    } else {
      RunConcat(Apply(l, a[0]), a[1..], b);
      assert (a + b)[1..] == a[1..] + b;
    }
  }

  /** Some interleaving of protocol steps leads from l to l'. */
  ghost predicate Reaches(l: Lane, l': Lane) {
    exists run: seq<Step> :: ValidRun(l, run) && Run(l, run) == l'
  }

  lemma ReachesInv(l: Lane, l': Lane)
    requires Reaches(l, l') && Inv(l)
    ensures Inv(l')
  {
    var run: seq<Step> :| ValidRun(l, run) && Run(l, run) == l';
    RunKeepsInv(l, run);
  }

  /** Nothing that a lane has recorded is ever taken back. */
  lemma HistoryStays(l: Lane, l': Lane)
    requires Reaches(l, l')
    ensures l.offers <= l'.offers && l.resolved <= l'.resolved && l.processed <= l'.processed
  {
    var run: seq<Step> :| ValidRun(l, run) && Run(l, run) == l';
    RunGrows(l, run);
  }

  lemma IdleWorker(l: Lane)
    requires Inv(l) && (l.worker.Popping? || l.worker.Exited?)
    ensures AcceptedOf(l.resolved) == l.processed + l.queue && (l.worker.Exited? ==> l.closed)
  {
  }

  lemma ReachesSelf(l: Lane)
    ensures Reaches(l, l)
  {
    assert ValidRun(l, []) && Run(l, []) == l;
  }

  lemma ReachesOne(l: Lane, l': Lane, s: Step)
    requires Reaches(l, l') && Enabled(l', s)
    ensures Reaches(l, Apply(l', s))
  {
    var run: seq<Step> :| ValidRun(l, run) && Run(l, run) == l';
    RunAppends(l, run, s);
  }

  lemma ReachesMore(l: Lane, l': Lane, steps: seq<Step>)
    requires Reaches(l, l') && ValidRun(l', steps)
    ensures Reaches(l, Run(l', steps))
  {
    var run: seq<Step> :| ValidRun(l, run) && Run(l, run) == l';
    RunConcat(l, run, steps);
  }

  /** What was queued first is still ahead of everything else: handed over, in hand, queued. */
  ghost predicate Ahead(first: seq<Offer>, handed: seq<Offer>, inHand: seq<Offer>, queue: seq<Offer>) {
    first <= handed + inHand + queue
  }

  lemma StillAhead(first: seq<Offer>, handed: seq<Offer>, before: seq<Offer>, inHand: seq<Offer>, after: seq<Offer>)
    requires first <= handed + before && before <= inHand + after
    ensures Ahead(first, handed, inHand, after)
  {
    assert handed + before <= handed + (inHand + after);
    assert handed + (inHand + after) == handed + inHand + after;
  }

  lemma HandOver(processed: seq<Offer>, handed: seq<Offer>, o: Offer)
    ensures processed + (handed + [o]) == (processed + handed) + [o]
  {
  }

  lemma NothingInHand(first: seq<Offer>, handed: seq<Offer>, queue: seq<Offer>)
    requires Ahead(first, handed, [], queue)
    ensures first <= handed + queue
  {
    assert handed + [] == handed;
  }

  class WorkersEventQueue {
    const capacity: nat
    var size: int
    var queue: seq<Offer>
    var closed: bool

    // the surroundings: the flag passed by reference, the other threads, and the worker's flags
    var accepting: bool
    var schedule: seq<Turn>

    // the same execution as a run of the protocol
    var lane: Lane

    ghost predicate Valid()
      reads this
    {
      Tagged(lane) && capacity == lane.capacity && size == lane.size && queue == lane.queue && closed == lane.closed
    }

    constructor (capacity: nat, policy: Policy, schedule: seq<Turn>)
      ensures Valid() && lane == NewLane(capacity, policy)
      ensures this.capacity >= capacity && this.capacity >= 1 && (capacity >= 1 ==> this.capacity == capacity)
      ensures size == 0 && queue == [] && !closed && accepting && this.schedule == schedule
      ensures lane.policy == policy && lane.producers == map[] && lane.worker.NotStarted?
    {
      this.capacity := if capacity < 1 then 1 else capacity;
      size, queue, closed := 0, [], false;
      accepting := true;
      this.schedule := schedule;
      lane := NewLane(capacity, policy);
    }

    /** Records an atomic action of the running thread, whose effect on the queue's own
        fields the code has just made. */
    method Mark(s: Step, ghost from: Lane)
      requires Tagged(lane) && Reaches(from, lane) && Enabled(lane, s)
      requires var l := Apply(lane, s);
               capacity == l.capacity && size == l.size && queue == l.queue && closed == l.closed
      modifies this`lane
      ensures Valid() && Reaches(from, lane) && lane == Apply(old(lane), s)
    {
      ReachesOne(from, lane, s);
      StepKeepsTagged(lane, s);
      lane := Apply(lane, s);
    }

    /** The next turn of the schedule.  Here as below, `from` is any earlier state. */
    method Others(who: Thread, ghost from: Lane) returns (spurious: bool)
      requires Valid() && Reaches(from, lane)
      modifies this
      ensures Valid() && Reaches(from, lane) && SameThread(who, old(lane), lane)
      ensures old(schedule) == [] ==> lane == old(lane) && accepting == old(accepting) && !spurious && schedule == []
      ensures old(schedule) != [] ==> |schedule| < |old(schedule)|
    {
      if schedule == [] {
        return false;
      }
      var turn := schedule[0];
      OthersMove(lane, who, turn.others);
      ReachesMore(from, lane, Taken(lane, who, turn.others));
      lane := Moved(lane, who, turn.others);
      size, queue, closed := lane.size, lane.queue, lane.closed;
      accepting, schedule := turn.accepting, schedule[1..];
      return turn.spurious;
    }

    /** The weak compare_exchange of `size_` from n to n + 1; on failure it returns the size it saw. */
    method CompareExchange(t: Tid, n: int, ghost from: Lane) returns (won: bool, seen: int)
      requires Valid() && Reaches(from, lane) && t in lane.producers && lane.producers[t].Reserving?
      requires lane.producers[t].seen == n == size < capacity
      modifies this
      ensures Valid() && Reaches(from, lane)
      ensures lane.policy == old(lane.policy) && (old(closed) ==> closed)
      ensures AcceptedBy(t, lane) == AcceptedBy(t, old(lane))
      ensures t in lane.producers && seen == size
      ensures var o := old(lane.producers[t].offer);
              lane.producers[t] == if won then Pushing(o) else Reserving(o, seen)
      ensures |schedule| < |old(schedule)| || (won && schedule == old(schedule) == [] && accepting == old(accepting)
                                               && queue == old(queue) && closed == old(closed) && size == n + 1)
    {
      var spurious := Others(ProducerThread(t), from);
      won := size == n && !spurious;
      if won {
        size := n + 1;
        Mark(CasSucceeds(t), from);
      } else {
        Mark(CasFails(t), from);
      }
      seen := size;
    }

    method ReserveSlot(t: Tid, ghost from: Lane) returns (ok: bool)
      requires Valid() && Reaches(from, lane) && t in lane.producers && lane.producers[t].LoadingSize?
      modifies this
      ensures Valid() && Reaches(from, lane) && |schedule| <= |old(schedule)|
      ensures lane.policy == old(lane.policy) && (old(closed) ==> closed)
      ensures AcceptedBy(t, lane) == AcceptedBy(t, old(lane))
      ensures var o := old(lane.producers[t].offer);
              if ok then t in lane.producers && lane.producers[t] == Pushing(o)
              else if lane.policy.BlockWhenFull? then t in lane.producers && lane.producers[t] == WaitingForSpace(o)
              else t !in lane.producers && LastOutcome(lane, Resolution(o, RejectedFull))
      ensures old(schedule) == [] ==> schedule == [] && accepting == old(accepting) && (ok <==> old(size) < capacity)
      ensures old(schedule) == [] ==>
                queue == old(queue) && closed == old(closed) && size == old(size) + if ok then 1 else 0
    {
      ghost var o := lane.producers[t].offer;
      var n := size;
      ok := false;
      Mark(LoadSize(t), from);
      while n < capacity && !ok
        invariant Valid() && Reaches(from, lane) && |schedule| <= |old(schedule)|
        invariant lane.policy == old(lane.policy) && (old(closed) ==> closed)
        invariant AcceptedBy(t, lane) == AcceptedBy(t, old(lane))
        invariant t in lane.producers && n == size && lane.producers[t] == if ok then Pushing(o) else Reserving(o, n)
        invariant old(schedule) == [] ==> schedule == [] && accepting == old(accepting) && (ok ==> old(size) < capacity)
        invariant old(schedule) == [] ==>
                    queue == old(queue) && closed == old(closed) && size == old(size) + if ok then 1 else 0
        decreases |schedule|, if ok then 0 else 1
      {
        ok, n := CompareExchange(t, n, from);
      }
      if !ok {
        GiveUp(t, from);
      }
    }

    /** Having seen a full queue: a dropping call ends, a blocking one goes to wait. */
    method GiveUp(t: Tid, ghost from: Lane)
      requires Valid() && Reaches(from, lane) && t in lane.producers && lane.producers[t].Reserving?
      requires lane.producers[t].seen >= capacity
      modifies this`lane
      ensures Valid() && Reaches(from, lane) && lane.policy == old(lane.policy)
      ensures AcceptedBy(t, lane) == AcceptedBy(t, old(lane))
      ensures var o := old(lane.producers[t].offer);
              if lane.policy.BlockWhenFull? then t in lane.producers && lane.producers[t] == WaitingForSpace(o)
              else t !in lane.producers && LastOutcome(lane, Resolution(o, RejectedFull))
    {
      if lane.policy.DropWhenFull? {
        ResolvedBy(lane.resolved, Resolution(lane.producers[t].offer, RejectedFull), t);
      }
      Mark(GiveUpReserve(t), from);
    }

    /** release_slot_ after a push that found the queue closed, which ends the call. */
    method ReleaseSlot(t: Tid, ghost from: Lane)
      requires Valid() && Reaches(from, lane) && t in lane.producers && lane.producers[t].Releasing?
      modifies this
      ensures Valid() && Reaches(from, lane) && |schedule| <= |old(schedule)| && lane.policy == old(lane.policy)
      ensures t !in lane.producers && lane.resolved != []
      ensures lane.resolved[|lane.resolved| - 1] == Resolution(old(lane.producers[t].offer), RejectedClosed)
      ensures AcceptedBy(t, lane) == AcceptedBy(t, old(lane))
      ensures old(schedule) == [] ==> schedule == [] && accepting == old(accepting) && closed == old(closed)
      ensures old(schedule) == [] ==> queue == old(queue) && size == old(size) - 1
    {
      var _ := Others(ProducerThread(t), from);
      size := size - 1;
      ResolvedBy(lane.resolved, Resolution(lane.producers[t].offer, RejectedClosed), t);
      Mark(ReleaseFailed(t), from);
    }

    /** From the slot to the end of the call: push, and give the slot back if that fails. */
    method PushReserved(t: Tid, ghost from: Lane) returns (ok: bool)
      requires Valid() && Reaches(from, lane) && t in lane.producers && lane.producers[t].Pushing?
      modifies this
      ensures Valid() && Reaches(from, lane) && |schedule| <= |old(schedule)| && lane.policy == old(lane.policy)
      ensures t !in lane.producers && lane.resolved != []
      ensures lane.resolved[|lane.resolved| - 1] ==
              Resolution(old(lane.producers[t].offer), if ok then Accepted else RejectedClosed)
      ensures AcceptedBy(t, lane) == Grown(AcceptedBy(t, old(lane)), ok, old(lane.producers[t].offer))
      ensures old(schedule) == [] ==> schedule == [] && accepting == old(accepting)
      ensures old(schedule) == [] ==> (ok <==> !old(closed)) && closed == old(closed)
      ensures old(schedule) == [] ==> queue == (if ok then old(queue) + [old(lane.producers[t].offer)] else old(queue))
                                      && size == old(size) - if ok then 0 else 1
    {
      var _ := Others(ProducerThread(t), from);
      ok := !closed;
      if ok {
        ResolvedBy(lane.resolved, Resolution(lane.producers[t].offer, Accepted), t);
        queue := queue + [lane.producers[t].offer];
        Mark(Push(t), from);
      } else {
        Mark(Push(t), from);
        ReleaseSlot(t, from);
      }
    }

    /** Both calls once they have decided to try: reserve a slot, then push.  None: no slot. */
    method ReserveAndPush(t: Tid, ghost from: Lane) returns (r: Option<bool>)
      requires Valid() && Reaches(from, lane) && t in lane.producers && lane.producers[t].LoadingSize?
      modifies this
      ensures Valid() && Reaches(from, lane) && |schedule| <= |old(schedule)| && lane.policy == old(lane.policy)
      ensures var o := old(lane.producers[t].offer);
              if r.None? && lane.policy.BlockWhenFull?
              then t in lane.producers && lane.producers[t] == WaitingForSpace(o)
              else
                && t !in lane.producers && lane.resolved != []
                && lane.resolved[|lane.resolved| - 1] ==
                   Resolution(o, if r.None? then RejectedFull else if r.value then Accepted else RejectedClosed)
      ensures AcceptedBy(t, lane) == Grown(AcceptedBy(t, old(lane)), r == Some(true), old(lane.producers[t].offer))
      ensures old(schedule) == [] ==>
                && schedule == [] && accepting == old(accepting) && closed == old(closed)
                && r == (if old(size) < capacity then Some(!closed) else None)
                && queue == (if r == Some(true) then old(queue) + [old(lane.producers[t].offer)] else old(queue))
                && size == old(size) + (if r == Some(true) then 1 else 0)
    {
      var reserved := ReserveSlot(t, from);
      if !reserved {
        return None;
      }
      var ok := PushReserved(t, from);
      return Some(ok);
    }

    /** try_push, in a lane with the drop policy.  Whatever the other threads do meanwhile, the
        call is a run of the protocol that ends with the outcome returned; the thread's
        accepted events grow by this one exactly if it returns true.  Undisturbed, it appends
        the event exactly when there is room and the queue is open. */
    method TryPush(t: Tid, e: Event) returns (ok: bool)
      requires Valid() && t !in lane.producers && lane.policy.DropWhenFull?
      modifies this
      ensures Valid() && Reaches(old(lane), lane)
      ensures AcceptedBy(t, lane) == Grown(AcceptedBy(t, old(lane)), ok, Offer(t, e))
      ensures t !in lane.producers && lane.resolved != []
      ensures var last := lane.resolved[|lane.resolved| - 1];
              last.offer == Offer(t, e) && (ok <==> last.outcome.Accepted?) && !last.outcome.RejectedNotAccepting?
      ensures lane.policy == old(lane.policy)
      ensures old(schedule) == [] ==>
                && schedule == [] && accepting == old(accepting)
                && (ok <==> old(size) < capacity && !old(closed))
                && queue == (if ok then old(queue) + [Offer(t, e)] else old(queue))
                && size == old(size) + (if ok then 1 else 0) && closed == old(closed)
    {
      ghost var from := lane;
      ReachesSelf(lane);
      Mark(Begin(t, e), from);
      var _ := Others(ProducerThread(t), from);
      var tried := ReserveAndPush(t, from);
      ok := tried == Some(true);
    }

    /** The wait on the condition variable; false if the schedule ends first. */
    method WaitForSpace(t: Tid, ghost from: Lane) returns (woken: bool)
      requires Valid() && Reaches(from, lane) && t in lane.producers && lane.producers[t].WaitingForSpace?
      modifies this
      ensures Valid() && Reaches(from, lane) && |schedule| <= |old(schedule)| && lane.policy == old(lane.policy)
      ensures t in lane.producers
      ensures AcceptedBy(t, lane) == AcceptedBy(t, old(lane))
      ensures woken ==> !accepting || size < capacity
      ensures woken ==> lane.producers[t] == CheckingAccepting(old(lane.producers[t].offer))
      ensures !woken ==> lane.producers[t] == old(lane.producers[t]) && accepting && size >= capacity && schedule == []
      ensures old(schedule) == [] ==> accepting == old(accepting) && size == old(size) && closed == old(closed)
      ensures old(schedule) == [] ==> queue == old(queue)
      ensures old(schedule) == [] ==> (woken <==> !accepting || size < capacity)
    {
      while accepting && size >= capacity
        invariant Valid() && Reaches(from, lane) && |schedule| <= |old(schedule)| && lane.policy == old(lane.policy)
        invariant t in lane.producers && lane.producers[t] == old(lane.producers[t])
        invariant AcceptedBy(t, lane) == AcceptedBy(t, old(lane))
        invariant old(schedule) == [] ==> accepting == old(accepting) && size == old(size) && closed == old(closed)
        invariant old(schedule) == [] ==> queue == old(queue)
        decreases |schedule|
      {
        if schedule == [] {
          return false;
        }
        var _ := Others(ProducerThread(t), from);
      }
      Mark(WakeForSpace(t, accepting), from);
      return true;
    }

    /** The test at the head of the loop; reading false ends the call. */
    method ReadFlag(t: Tid, ghost from: Lane) returns (goOn: bool)
      requires Valid() && Reaches(from, lane) && t in lane.producers && lane.producers[t].CheckingAccepting?
      modifies this
      ensures Valid() && Reaches(from, lane) && lane.policy == old(lane.policy)
      ensures |schedule| < |old(schedule)| || (schedule == old(schedule) == [] && accepting == old(accepting)
                                               && size == old(size) && queue == old(queue) && closed == old(closed))
      ensures goOn == accepting && AcceptedBy(t, lane) == AcceptedBy(t, old(lane))
      ensures var o := old(lane.producers[t].offer);
              if goOn then t in lane.producers && lane.producers[t] == LoadingSize(o)
              else t !in lane.producers && LastOutcome(lane, Resolution(o, RejectedNotAccepting))
    {
      var _ := Others(ProducerThread(t), from);
      ResolvedBy(lane.resolved, Resolution(lane.producers[t].offer, RejectedNotAccepting), t);
      goOn := accepting;
      Mark(ReadAccepting(t, accepting), from);
    }

    /** One turn of the loop.  Without a result the producer was woken and is back at the head
        of the loop, or the schedule ended while it waited. */
    method BlockingTurn(t: Tid, ghost from: Lane) returns (r: Option<bool>, woken: bool)
      requires Valid() && Reaches(from, lane) && lane.policy.BlockWhenFull?
      requires t in lane.producers && lane.producers[t].CheckingAccepting?
      modifies this
      ensures Valid() && Reaches(from, lane) && lane.policy == old(lane.policy)
      ensures AcceptedBy(t, lane) == Grown(AcceptedBy(t, old(lane)), r == Some(true), old(lane.producers[t].offer))
      ensures match r
              case None =>
                && t in lane.producers
                && if woken then lane.producers[t] == old(lane.producers[t])
                   else
                     && lane.producers[t] == WaitingForSpace(old(lane.producers[t].offer))
                     && accepting && size >= capacity
              case Some(ok) =>
                && t !in lane.producers && lane.resolved != []
                && var last := lane.resolved[|lane.resolved| - 1];
                && last.offer == old(lane.producers[t].offer)
                && (ok <==> last.outcome.Accepted?) && !last.outcome.RejectedFull?
      ensures |schedule| < |old(schedule)| || old(schedule) == []
      ensures old(schedule) == [] ==>
                && r == (if !old(accepting) then Some(false)
                         else if old(size) < capacity then Some(!old(closed))
                         else None)
                && !woken && schedule == [] && accepting == old(accepting) && closed == old(closed)
                && queue == (if r == Some(true) then old(queue) + [old(lane.producers[t].offer)] else old(queue))
                && size == old(size) + (if r == Some(true) then 1 else 0)
    {
      woken := false;
      var goOn := ReadFlag(t, from);
      if !goOn {
        r := Some(false);
        return;
      }
      var _ := Others(ProducerThread(t), from);
      r := ReserveAndPush(t, from);
      if r.None? {
        woken := WaitForSpace(t, from);
      }
    }

    /** push_blocking, in a lane with the blocking policy.  None: the schedule ended while the
        producer was waiting for space, with the queue full and `accepting` true. */
    method PushBlocking(t: Tid, e: Event) returns (r: Option<bool>)
      requires Valid() && t !in lane.producers && lane.policy.BlockWhenFull?
      modifies this
      ensures Valid() && Reaches(old(lane), lane)
      ensures AcceptedBy(t, lane) == Grown(AcceptedBy(t, old(lane)), r == Some(true), Offer(t, e))
      ensures match r
              case None =>
                && t in lane.producers && lane.producers[t] == WaitingForSpace(Offer(t, e))
                && accepting && size >= capacity
              case Some(ok) =>
                && t !in lane.producers && lane.resolved != []
                && var last := lane.resolved[|lane.resolved| - 1];
                && last.offer == Offer(t, e) && (ok <==> last.outcome.Accepted?) && !last.outcome.RejectedFull?
      ensures lane.policy == old(lane.policy)
      ensures old(schedule) == [] ==>
                && r == (if !old(accepting) then Some(false)
                         else if old(size) < capacity then Some(!old(closed))
                         else None)
                && schedule == [] && accepting == old(accepting) && closed == old(closed)
                && queue == (if r == Some(true) then old(queue) + [Offer(t, e)] else old(queue))
                && size == old(size) + (if r == Some(true) then 1 else 0)
    {
      ghost var from := lane;
      ReachesSelf(lane);
      Mark(Begin(t, e), from);
      while true
        invariant Valid() && Reaches(from, lane) && lane.policy.BlockWhenFull?
        invariant AcceptedBy(t, lane) == AcceptedBy(t, from)
        invariant t in lane.producers && lane.producers[t] == CheckingAccepting(Offer(t, e))
        invariant old(schedule) == [] ==> accepting == old(accepting) && size == old(size) && closed == old(closed)
        invariant old(schedule) == [] ==> queue == old(queue)
        invariant |schedule| <= |old(schedule)|
        decreases |schedule|
      {
        var woken;
        r, woken := BlockingTurn(t, from);
        if r.Some? || !woken {
          return;
        }
      }
    }

    /** Takes the first event and gives its slot back, in two separate actions. */
    method PopFirst(ghost from: Lane) returns (o: Offer)
      requires Valid() && Reaches(from, lane) && (lane.worker.Popping? || lane.worker.Draining?) && queue != []
      modifies this
      ensures Valid() && Reaches(from, lane) && lane.processed == old(lane.processed)
      ensures old(queue) <= [o] + queue && lane.worker == Processing(o, old(lane.worker.Draining?))
      ensures |schedule| < |old(schedule)| || (schedule == old(schedule) && queue == old(queue)[1..])
    {
      o := queue[0];
      queue := queue[1..];
      Mark(WorkerPops, from);
      var _ := Others(WorkerThread, from);
      size := size - 1;
      Mark(WorkerReleases, from);
    }

    /** try_pop, from the drain loop; it takes events from a closed queue too. */
    method TryPop(ghost from: Lane) returns (r: Option<Offer>)
      requires Valid() && Reaches(from, lane) && lane.worker.Draining?
      modifies this
      ensures Valid() && Reaches(from, lane) && lane.processed == old(lane.processed)
      ensures (r.None? <==> old(queue) == []) && old(queue) <= InHand(lane.worker) + queue
      ensures if r.None? then lane == old(lane) else lane.worker == Processing(r.value, true)
      ensures || |schedule| < |old(schedule)|
              || (schedule == old(schedule) && |queue| == |old(queue)| - if r.Some? then 1 else 0)
    {
      if queue == [] {
        return None;
      }
      var o := PopFirst(from);
      return Some(o);
    }

    /** pop_blocking: the blocking pop of the queue underneath, which gives up only when the
        queue is closed or a stop was requested, possibly with events still queued. */
    method PopBlocking(ghost from: Lane) returns (r: PopResult)
      requires Valid() && Reaches(from, lane) && lane.worker.Popping?
      modifies this
      ensures Valid() && Reaches(from, lane) && lane.processed == old(lane.processed)
      ensures old(queue) <= InHand(lane.worker) + queue
      ensures match r
              case Popped(o) => lane.worker == Processing(o, false)
              case GaveUp => lane.worker.CheckingDrain? && (closed || lane.stopRequested)
              case StillWaiting =>
                lane.worker.Popping? && schedule == [] && queue == [] && !closed && !lane.stopRequested
      ensures || |schedule| < |old(schedule)|
              || (schedule == old(schedule) && |queue| == |old(queue)| - if r.Popped? then 1 else 0)
    {
      while true
        invariant Valid() && Reaches(from, lane) && lane.processed == old(lane.processed) && lane.worker.Popping?
        invariant |schedule| < |old(schedule)| || (schedule == old(schedule) && queue == old(queue))
        invariant old(queue) <= queue
        decreases |schedule|
      {
        var impatient := Others(WorkerThread, from);
        if queue != [] && !(impatient && (closed || lane.stopRequested)) {
          var o := PopFirst(from);
          return Popped(o);
        }
        if closed || lane.stopRequested {
          Mark(WorkerPopEnds, from);
          return GaveUp;
        }
        if schedule == [] {
          return StillWaiting;
        }
      }
    }

    /** The event in hand has been given to process_. */
    method HandedOver(ghost from: Lane)
      requires Valid() && Reaches(from, lane) && lane.worker.Processing?
      modifies this`lane
      ensures Valid() && Reaches(from, lane) && lane.processed == old(lane.processed) + [old(lane.worker.offer)]
      ensures lane.worker == if old(lane.worker.draining) then Draining else Popping
    {
      Mark(WorkerProcesses, from);
    }

    /** One turn of the second loop: process the event in hand, try to pop the next. */
    method DrainTurn(o: Offer, ghost from: Lane) returns (r: Option<Offer>)
      requires Valid() && Reaches(from, lane) && lane.worker == Processing(o, true)
      modifies this
      ensures Valid() && Reaches(from, lane) && lane.processed == old(lane.processed) + [o]
      ensures old(queue) <= InHand(lane.worker) + queue && AfterTry(r)
      ensures || |schedule| < |old(schedule)|
              || (schedule == old(schedule) && |queue| == |old(queue)| - if r.Some? then 1 else 0)
    {
      HandedOver(from);
      r := TryPop(from);
    }

    /** Where the worker is after a pop in the drain loop. */
    ghost predicate AfterTry(r: Option<Offer>)
      reads this
    {
      match r
      case Some(o) => lane.worker == Processing(o, true)
      case None => lane.worker.Draining? && queue == []
    }

    /** The second loop of the thread body: everything still queued, whether or not new
        pushes are refused already. */
    method Drain(ghost from: Lane) returns (handed: seq<Offer>)
      requires Valid() && Reaches(from, lane) && lane.worker.Draining?
      modifies this
      ensures Valid() && Reaches(from, lane) && lane.processed == old(lane.processed) + handed
      ensures lane.worker == Exited(true) && queue == [] && old(queue) <= handed
    {
      handed := [];
      var more := TryPop(from);
      StillAhead(old(queue), [], old(queue), InHand(lane.worker), queue);
      while more.Some?
        invariant Valid() && Reaches(from, lane) && lane.processed == old(lane.processed) + handed
        invariant Ahead(old(queue), handed, InHand(lane.worker), queue) && AfterTry(more)
        decreases |schedule|, |queue|, if more.Some? then 1 else 0
      {
        ghost var before := queue;
        HandOver(old(lane.processed), handed, more.value);
        handed := handed + [more.value];
        more := DrainTurn(more.value, from);
        StillAhead(old(queue), handed, before, InHand(lane.worker), queue);
      }
      NothingInHand(old(queue), handed, queue);
      EndDrain(from);
    }

    /** The drain loop has found the queue empty. */
    method EndDrain(ghost from: Lane)
      requires Valid() && Reaches(from, lane) && lane.worker.Draining? && queue == []
      modifies this`lane
      ensures Valid() && Reaches(from, lane) && lane.processed == old(lane.processed) && lane.worker == Exited(true)
    {
      Mark(WorkerDrainEnds, from);
    }

    /** One turn of the first loop: process the event in hand, pop the next. */
    method MainTurn(o: Offer, ghost from: Lane) returns (r: PopResult)
      requires Valid() && Reaches(from, lane) && lane.worker == Processing(o, false)
      modifies this
      ensures Valid() && Reaches(from, lane) && lane.processed == old(lane.processed) + [o]
      ensures old(queue) <= InHand(lane.worker) + queue
      ensures AfterPop(r)
      ensures || |schedule| < |old(schedule)|
              || (schedule == old(schedule) && |queue| == |old(queue)| - if r.Popped? then 1 else 0)
    {
      HandedOver(from);
      r := PopBlocking(from);
    }

    /** Where the worker is after a blocking pop. */
    ghost predicate AfterPop(r: PopResult)
      reads this
    {
      match r
      case Popped(o) => lane.worker == Processing(o, false)
      case GaveUp => lane.worker.CheckingDrain?
      case StillWaiting => lane.worker.Popping? && queue == []
    }

    /** The first loop of the thread body; false if the schedule ends while it waits. */
    method MainLoop(ghost from: Lane) returns (left: bool, handed: seq<Offer>)
      requires Valid() && Reaches(from, lane) && lane.worker.Popping?
      modifies this
      ensures Valid() && Reaches(from, lane) && lane.processed == old(lane.processed) + handed
      ensures if left then lane.worker.CheckingDrain? else lane.worker.Popping? && queue == []
      ensures old(queue) <= handed + queue
    {
      ghost var processed, first := lane.processed, queue;
      handed := [];
      var popped := PopBlocking(from);
      StillAhead(first, [], first, InHand(lane.worker), queue);
      while popped.Popped?
        invariant Valid() && Reaches(from, lane)
        invariant lane.processed == processed + handed
        invariant Ahead(first, handed, InHand(lane.worker), queue)
        invariant AfterPop(popped)
        decreases |schedule|, |queue|, if popped.Popped? then 1 else 0
      {
        ghost var before, more := queue, handed + [popped.offer];
        HandOver(processed, handed, popped.offer);
        assert first <= more + before;
        var processing := popped.offer;
        popped := MainTurn(processing, from);
        StillAhead(first, more, before, InHand(lane.worker), queue);
        handed := handed + [processing];
      }
      assert InHand(lane.worker) == [];
      NothingInHand(first, handed, queue);
      left := popped.GaveUp?;
    }

    /** The thread body of a lane.  `handed` is what it hands to process_, in order; the result
        is false if the schedule ends while it waits for events.  A worker that finishes
        through its drain loop has handed over everything the lane ever accepted. */
    method LaneLoop() returns (finished: bool, handed: seq<Offer>)
      requires Valid() && lane.worker.Popping? && Inv(lane)
      modifies this
      ensures Valid() && Reaches(old(lane), lane) && old(queue) <= handed + queue
      ensures lane.processed == old(lane.processed) + handed
      ensures AcceptedOf(lane.resolved) == old(lane.processed) + handed + queue
      ensures finished ==> lane.worker.Exited? && closed
      ensures !finished || lane.worker.drained ==> queue == []
    {
      ghost var from := lane;
      ReachesSelf(lane);
      finished, handed := MainLoop(from);
      if finished {
        ghost var before := queue;
        var rest := AfterMainLoop(from);
        StillAhead(old(queue), handed, before, rest, queue);
        handed := handed + rest;
      }
      ReachesInv(from, lane);
      IdleWorker(lane);
    }

    /** What follows the first loop: the drain flag decides. */
    method AfterMainLoop(ghost from: Lane) returns (handed: seq<Offer>)
      requires Valid() && Reaches(from, lane) && lane.worker.CheckingDrain?
      modifies this
      ensures Valid() && Reaches(from, lane) && lane.processed == old(lane.processed) + handed
      ensures lane.worker.Exited? && (lane.worker.drained ==> queue == []) && old(queue) <= handed + queue
    {
      handed := [];
      var _ := Others(WorkerThread, from);
      Mark(WorkerReadsDrain, from);
      if lane.worker.Draining? {
        handed := Drain(from);
      }
    }

    method Close()
      requires Valid()
      modifies this
      ensures Valid() && Reaches(old(lane), lane) && closed && lane == old(lane).(closed := true)
    {
      ghost var from := lane;
      ReachesSelf(lane);
      closed := true;
      Mark(CloseQueue, from);
    }
  }

  // ---------------------------------------------------------------- how much a new queue holds

  /** The events that one thread offers, as offers. */
  function OffersFrom(t: Tid, events: seq<Event>): (offers: seq<Offer>)
    ensures |offers| == |events|
    ensures forall i | 0 <= i < |events| :: offers[i] == Offer(t, events[i])
  {
    seq(|events|, i requires 0 <= i < |events| => Offer(t, events[i]))
  }

  /** An open, accepting queue which no other thread uses. */
  ghost predicate Alone(q: WorkersEventQueue, t: Tid, policy: Policy)
    reads q
  {
    && q.Valid() && q.schedule == [] && !q.closed && q.accepting && q.lane.policy == policy
    && t !in q.lane.producers
  }

  method TryPushAlone(q: WorkersEventQueue, t: Tid, e: Event) returns (ok: bool)
    requires Alone(q, t, DropWhenFull)
    modifies q
    ensures Alone(q, t, DropWhenFull) && (ok <==> old(q.size) < q.capacity)
    ensures q.queue == (if ok then old(q.queue) + [Offer(t, e)] else old(q.queue))
    ensures q.size == old(q.size) + if ok then 1 else 0
  {
    ok := q.TryPush(t, e);
  }

  /** Calls of try_push on a new queue whose worker has not been started, and no other thread
      about: those are accepted that fit into the capacity, but always the first one, and they
      are queued in the order of the calls. */
  method Burst(capacity: nat, t: Tid, events: seq<Event>) returns (accepted: seq<bool>, queued: seq<Offer>)
    ensures |accepted| == |events|
    ensures forall i | 0 <= i < |events| :: accepted[i] <==> i < capacity || i == 0
    ensures queued == if |events| <= capacity then OffersFrom(t, events)
                      else OffersFrom(t, events[..if capacity >= 1 then capacity else 1])
  {
    var q := new WorkersEventQueue(capacity, DropWhenFull, []);
    ghost var room := if capacity >= 1 then capacity else 1;
    accepted := [];
    for i := 0 to |events|
      invariant Alone(q, t, DropWhenFull) && q.capacity == room && q.size == if i < room then i else room
      invariant |accepted| == i && forall k | 0 <= k < i :: accepted[k] <==> k < capacity || k == 0
      invariant q.queue == OffersFrom(t, events[..if i < room then i else room])
    {
      var ok := TryPushAlone(q, t, events[i]);
      accepted := accepted + [ok];
    }
    queued := q.queue;
    assert |events| <= room ==> events[..|events|] == events;
  }

  method PushBlockingAlone(q: WorkersEventQueue, t: Tid, e: Event) returns (ok: bool)
    requires Alone(q, t, BlockWhenFull)
    modifies q
    ensures ok <==> old(q.size) < q.capacity
    ensures ok ==> Alone(q, t, BlockWhenFull)
    ensures q.queue == (if ok then old(q.queue) + [Offer(t, e)] else old(q.queue))
    ensures q.size == old(q.size) + if ok then 1 else 0
  {
    var r := q.PushBlocking(t, e);
    ok := r.Some?;
  }

  /** The same calls of push_blocking, up to the first that has to wait for space. */
  method BurstBlocking(capacity: nat, t: Tid, events: seq<Event>) returns (n: nat, queued: seq<Offer>)
    ensures n == if |events| <= capacity || |events| == 1 then |events| else if capacity >= 1 then capacity else 1
    ensures queued == OffersFrom(t, events[..n])
  {
    var q := new WorkersEventQueue(capacity, BlockWhenFull, []);
    var ok := true;
    n := 0;
    while ok && n < |events|
      invariant q.capacity == (if capacity >= 1 then capacity else 1) && q.size == n <= q.capacity && n <= |events|
      invariant if ok then Alone(q, t, BlockWhenFull) else n == q.capacity < |events|
      invariant q.queue == OffersFrom(t, events[..n])
      decreases |events| - n, ok
    {
      ok := PushBlockingAlone(q, t, events[n]);
      if ok {
        n := n + 1;
      }
    }
    queued := q.queue;
  }
}
