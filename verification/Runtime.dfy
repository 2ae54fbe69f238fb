/** The coroutine runtime as one step system: the shared task list, the fiber
    states, the program counter of every worker thread, the event slots, the
    timers and the two counters.  A step is one critical section, or one access
    to a shared variable outside the locks.  */
module Runtime {
  import opened Wrappers

  /** Fiber::State. */
  datatype FState = INIT | HOLD | EXEC | TERM | READY | EXCEPT

  predicate Ended(st: FState) {
    st.TERM? || st.EXCEPT?
  }

  /** What a schedulable callback does: hand a sleeping fiber back to the
      scheduler, cancel the event of a timed-out I/O call, or run user code. */
  datatype Callback = Wake(f: nat) | CancelIo(k: Key) | User(c: nat)

  /** One direction of one file descriptor. */
  datatype Key = Key(fd: nat, write: bool)

  /** An entry of the shared list; pin -1 means any thread. */
  datatype Task = FiberTask(f: nat, pin: int) | CallTask(cb: Callback, pin: int)

  datatype Waiter = FiberWaiter(f: nat) | CallWaiter(c: nat)

  /** Where a worker stands in its run loop.  Got: an entry has been erased from
      the list and counted active.  Loaded: the callback has been put into a
      fiber that is not yet switched to.  Run: inside swapIn; parked is set once the
      fiber has registered its own wake-up and has only the yield left to do.
      After: swapIn has returned.  Post: the active count has been decremented.
      Idle: inside the idle fiber, holding expired callbacks not yet queued.  */
  datatype Pc =
    | Scan
    | Got(task: Task)
    | Loaded(f: nat, cb: Callback)
    | Run(f: nat, parked: bool, duty: Option<nat>, viaCallback: bool)
    | After(f: nat, viaCallback: bool)
    | Post(f: nat, viaCallback: bool)
    | Idle(batch: seq<Callback>)
    | Exited

  /** spare is the finished callback fiber the worker keeps for reuse; idleDone
      says that its idle fiber has terminated. */
  datatype Worker = Worker(pc: Pc, spare: Option<nat>, idleDone: bool)

  /** hand: fibers that user code refers to and may schedule once.
      started: callbacks already entered, or cancelled together with their timer
      or event.  lost: fibers whose only wake-up was removed by delEvent.
      owed: triggers whose waiter is queued but whose pending count has not been
      decremented yet. */
  datatype State = State(
    fibers: map<nat, FState>,
    calls: map<nat, bool>,
    queue: seq<Task>,
    workers: map<int, Worker>,
    slots: map<Key, Waiter>,
    timers: map<nat, Callback>,
    hand: set<nat>,
    lost: set<nat>,
    active: nat,
    pending: nat,
    owed: nat,
    stopping: bool)

  /** A unit of work: a fiber, or a user callback not yet entered. */
  datatype Work = Fib(f: nat) | Call(c: nat)

  function Carried(cb: Callback): (u: Option<Work>) {
    match cb
    case Wake(f) => Some(Fib(f))
    case User(c) => Some(Call(c))
    case CancelIo(_) => None
  }

  function TaskWork(t: Task): (u: Option<Work>) {
    match t
    case FiberTask(f, _) => Some(Fib(f))
    case CallTask(cb, _) => Carried(cb)
  }

  function WaiterWork(w: Waiter): (u: Work) {
    match w
    case FiberWaiter(f) => Fib(f)
    case CallWaiter(c) => Call(c)
  }

  function WaiterTask(w: Waiter): (t: Task) {
    match w
    case FiberWaiter(f) => FiberTask(f, -1)
    case CallWaiter(c) => CallTask(User(c), -1)
  }

  /* ---------- task selection ---------- */

  /** The test a worker applies to one entry while it walks the list. */
  predicate Eligible(t: Task, fibers: map<nat, FState>, w: int) {
    && (t.pin == -1 || t.pin == w)
    && (t.FiberTask? && t.f in fibers ==> fibers[t.f] != EXEC)
  }

  predicate NoneEligible(q: seq<Task>, fibers: map<nat, FState>, w: int) {
    forall i :: 0 <= i < |q| ==> !Eligible(q[i], fibers, w)
  }

  predicate FirstEligible(q: seq<Task>, fibers: map<nat, FState>, w: int, i: nat) {
    && i < |q|
    && Eligible(q[i], fibers, w)
    && forall j :: 0 <= j < i ==> !Eligible(q[j], fibers, w)
  }

  /** The scan loop of Scheduler::run: it walks the list, skips what it may not
      run, and reports whether another thread should be tickled. */
  method SelectTask(q: seq<Task>, fibers: map<nat, FState>, w: int)
    returns (found: Option<nat>, rest: seq<Task>, tickle: bool)
    ensures found.None? ==> rest == q && NoneEligible(q, fibers, w)
    ensures found.Some? ==> FirstEligible(q, fibers, w, found.value)
                            && rest == q[..found.value] + q[found.value + 1..]
    ensures tickle <==> (found.Some? && rest[found.value..] != [])
                        || exists i :: 0 <= i < (if found.Some? then found.value else |q|)
                                       && q[i].pin != -1 && q[i].pin != w
  {
    var it := 0;
    tickle := false;
    found, rest := None, q;
    while it < |q|
      invariant 0 <= it <= |q|
      invariant found.None? && rest == q
      invariant forall j :: 0 <= j < it ==> !Eligible(q[j], fibers, w)
      invariant tickle <==> exists i :: 0 <= i < it && q[i].pin != -1 && q[i].pin != w
    {
      if q[it].pin != -1 && q[it].pin != w {
        tickle := true;
        it := it + 1;
        continue;
      }
      if q[it].FiberTask? && q[it].f in fibers && fibers[q[it].f] == EXEC {
        it := it + 1;
        continue;
      }
      found := Some(it);
      rest := q[..it] + q[it + 1..];
      break;
    }
    tickle := tickle || (found.Some? && it < |rest|);
  }

  /* ---------- steps ---------- */

  /** The thread that performs an action: a worker, or code outside the
      scheduler, which is silent once Stop has been requested. */
  datatype Actor = Outside | By(w: int)

  predicate BodyOf(s: State, w: int) {
    w in s.workers && s.workers[w].pc.Run? && !s.workers[w].pc.parked && s.workers[w].pc.duty.None?
  }

  predicate IdleOf(s: State, w: int) {
    w in s.workers && s.workers[w].pc.Idle?
  }

  predicate MayAct(s: State, a: Actor) {
    match a
    case Outside => !s.stopping
    case By(w) => BodyOf(s, w)
  }

  /** Events are triggered by cancelling them, and by the idle fiber that delivers them. */
  predicate MayTrigger(s: State, a: Actor) {
    MayAct(s, a) || (a.By? && IdleOf(s, a.w))
  }

  datatype Step =
    // Scheduler::run
    | Take(w: int, i: nat)
    | ScanEmpty(w: int)
    | SwapIn(w: int)
    | LoadCallback(w: int, g: nat)
    | SwapInCallback(w: int)
    | Decrement(w: int)
    | Conclude(w: int)
    // the running fiber
    | DoWake(w: int)
    | ParkOnEvent(w: int, k: Key)
    | ParkOnTimer(w: int, t: nat)
    | ParkInHand(w: int)
    | YieldToHold(w: int)
    | YieldToReady(w: int)
    | Finish(w: int, ok: bool)
    // any thread
    | NewFiber(g: nat)
    | HandIn(a: Actor, g: nat, pin: int)
    | PostCall(a: Actor, c: nat, pin: int)
    | AddCallEvent(a: Actor, k: Key, c: nat)
    | AddCallTimer(a: Actor, t: nat, c: nat)
    | AddIoTimer(w: int, t: nat, k: Key)
    | CancelTimer(a: Actor, t: nat)
    | Trigger(a: Actor, k: Key)
    | SettlePending
    | DelEvent(a: Actor, k: Key)
    | RequestStop
    // the idle fiber
    | Expire(w: int, t: nat)
    | ExpireRecurring(w: int, t: nat, c: nat)
    | PostExpired(w: int)
    | IdleStop(w: int)
    | IdleYield(w: int)

  /** IOManager::stopping, its three readings taken together. */
  predicate StopCheck(s: State) {
    s.stopping && s.queue == [] && s.active == 0 && s.pending == 0 && s.timers == map[]
  }

  function At(s: State, w: int): (p: Pc)
    requires w in s.workers
  {
    s.workers[w].pc
  }

  predicate Enabled(s: State, e: Step) {
    match e
    case Take(w, i) => w in s.workers && At(s, w).Scan? && FirstEligible(s.queue, s.fibers, w, i)
    case ScanEmpty(w) => w in s.workers && At(s, w).Scan? && NoneEligible(s.queue, s.fibers, w)
    case SwapIn(w) => w in s.workers && At(s, w).Got? && At(s, w).task.FiberTask?
    case LoadCallback(w, g) =>
      && w in s.workers && At(s, w).Got? && At(s, w).task.CallTask?
      && (if s.workers[w].spare.Some? then g == s.workers[w].spare.value else g !in s.fibers)
    case SwapInCallback(w) => w in s.workers && At(s, w).Loaded?
    case Decrement(w) => w in s.workers && At(s, w).After? && s.active > 0
    case Conclude(w) => w in s.workers && At(s, w).Post? && At(s, w).f in s.fibers
    case DoWake(w) => w in s.workers && At(s, w).Run? && At(s, w).duty.Some?
    case ParkOnEvent(w, k) => BodyOf(s, w) && k !in s.slots
    case ParkOnTimer(w, t) => BodyOf(s, w) && t !in s.timers
    case ParkInHand(w) => BodyOf(s, w)
    case YieldToHold(w) => w in s.workers && At(s, w).Run? && At(s, w).parked
    case YieldToReady(w) => BodyOf(s, w)
    case Finish(w, ok) => BodyOf(s, w)
    case NewFiber(g) => g !in s.fibers
    case HandIn(a, g, pin) => MayAct(s, a) && g in s.hand
    case PostCall(a, c, pin) => MayAct(s, a) && c !in s.calls
    case AddCallEvent(a, k, c) => MayAct(s, a) && k !in s.slots && c !in s.calls
    case AddCallTimer(a, t, c) => MayAct(s, a) && t !in s.timers && c !in s.calls
    case AddIoTimer(w, t, k) => BodyOf(s, w) && t !in s.timers
    case CancelTimer(a, t) => MayAct(s, a) && t in s.timers && !s.timers[t].Wake?
    case Trigger(a, k) => MayTrigger(s, a) && k in s.slots
    case SettlePending => s.owed > 0 && s.pending > 0
    case DelEvent(a, k) => MayAct(s, a) && k in s.slots && s.pending > 0
    case RequestStop => true
    case Expire(w, t) => IdleOf(s, w) && t in s.timers
    case ExpireRecurring(w, t, c) => IdleOf(s, w) && t in s.timers && s.timers[t].User? && c !in s.calls
    case PostExpired(w) => IdleOf(s, w) && At(s, w).batch != []
    case IdleStop(w) => IdleOf(s, w) && At(s, w).batch == [] && StopCheck(s)
    case IdleYield(w) => IdleOf(s, w) && At(s, w).batch == []
  }

  function Goto(s: State, w: int, pc: Pc): (r: State)
    requires w in s.workers
  {
    s.(workers := s.workers[w := s.workers[w].(pc := pc)])
  }

  /** Sets the program counter and the kept callback fiber together. */
  function GotoWith(s: State, w: int, pc: Pc, spare: Option<nat>): (r: State)
    requires w in s.workers
  {
    s.(workers := s.workers[w := s.workers[w].(pc := pc, spare := spare)])
  }

  function Enqueue(s: State, t: Task): (r: State) {
    s.(queue := s.queue + [t])
  }

  /* What each step makes of the state. */

  function Taken(s: State, w: int, i: nat): (r: State)
    requires w in s.workers && i < |s.queue|
  {
    Goto(s.(queue := s.queue[..i] + s.queue[i + 1..], active := s.active + 1), w, Got(s.queue[i]))
  }

  function WentIdle(s: State, w: int): (r: State)
    requires w in s.workers
  {
    Goto(s, w, if s.workers[w].idleDone then Exited else Idle([]))
  }

  function SwappedIn(s: State, w: int): (r: State)
    requires w in s.workers && At(s, w).Got? && At(s, w).task.FiberTask?
  {
    var f := At(s, w).task.f;
    Goto(s.(fibers := s.fibers[f := EXEC]), w, Run(f, false, None, false))
  }

  /** The callback goes into the kept fiber, reset for it, or into a new one. */
  function CallbackLoaded(s: State, w: int, g: nat): (r: State)
    requires w in s.workers && At(s, w).Got? && At(s, w).task.CallTask?
  {
    GotoWith(s.(fibers := s.fibers[g := INIT]), w, Loaded(g, At(s, w).task.cb), None)
  }

  function CallbackEntered(s: State, w: int): (r: State)
    requires w in s.workers && At(s, w).Loaded?
  {
    var Loaded(g, cb) := At(s, w);
    Goto(s.(fibers := s.fibers[g := EXEC], calls := if cb.User? then s.calls[cb.c := true] else s.calls),
         w, Run(g, false, if cb.Wake? then Some(cb.f) else None, true))
  }

  function Decremented(s: State, w: int): (r: State)
    requires w in s.workers && At(s, w).After? && s.active > 0
  {
    Goto(s.(active := s.active - 1), w, Post(At(s, w).f, At(s, w).viaCallback))
  }

  function Requeued(s: State, w: int, f: nat): (r: State)
    requires w in s.workers
  {
    Enqueue(Goto(s, w, Scan), FiberTask(f, -1))
  }

  function KeptSpare(s: State, w: int, f: nat): (r: State)
    requires w in s.workers
  {
    GotoWith(s.(fibers := s.fibers[f := INIT]), w, Scan, Some(f))
  }

  function LetGo(s: State, w: int, f: nat, st: FState): (r: State)
    requires w in s.workers
  {
    Goto(s.(fibers := s.fibers[f := st]), w, Scan)
  }

  /** What the worker does with the fiber once swapIn has returned and the
      active count is down: re-queue it (unpinned), drop it, or mark it HOLD; a
      callback fiber that ended is reset and kept. */
  function Concluded(s: State, w: int): (r: State)
    requires w in s.workers && At(s, w).Post? && At(s, w).f in s.fibers
  {
    var Post(f, viaCallback) := At(s, w);
    if s.fibers[f].READY? then Requeued(s, w, f)
    else if !Ended(s.fibers[f]) then LetGo(s, w, f, HOLD)
    else if viaCallback then KeptSpare(s, w, f)
    else LetGo(s, w, f, s.fibers[f])
  }

  function WakePerformed(s: State, w: int): (r: State)
    requires w in s.workers && At(s, w).Run? && At(s, w).duty.Some?
  {
    Enqueue(Goto(s, w, Run(At(s, w).f, At(s, w).parked, None, At(s, w).viaCallback)),
            FiberTask(At(s, w).duty.value, -1))
  }

  /** The running fiber has registered its wake-up and is about to yield. */
  function Parking(pc: Pc): (r: Pc)
    requires pc.Run?
  {
    Run(pc.f, true, pc.duty, pc.viaCallback)
  }

  function ParkedOnEvent(s: State, w: int, k: Key): (r: State)
    requires w in s.workers && At(s, w).Run?
  {
    Goto(s.(slots := s.slots[k := FiberWaiter(At(s, w).f)], pending := s.pending + 1), w, Parking(At(s, w)))
  }

  function ParkedOnTimer(s: State, w: int, t: nat): (r: State)
    requires w in s.workers && At(s, w).Run?
  {
    Goto(s.(timers := s.timers[t := Wake(At(s, w).f)]), w, Parking(At(s, w)))
  }

  function ParkedInHand(s: State, w: int): (r: State)
    requires w in s.workers && At(s, w).Run?
  {
    Goto(s.(hand := s.hand + {At(s, w).f}), w, Parking(At(s, w)))
  }

  /** YieldToHold leaves the state at EXEC; the other two set it first. */
  function Yielded(s: State, w: int, st: FState): (r: State)
    requires w in s.workers && At(s, w).Run?
  {
    Goto(s.(fibers := s.fibers[At(s, w).f := st]), w, After(At(s, w).f, At(s, w).viaCallback))
  }

  function HandedIn(s: State, g: nat, pin: int): (r: State) {
    Enqueue(s.(hand := s.hand - {g}), FiberTask(g, pin))
  }

  function CallPosted(s: State, c: nat, pin: int): (r: State) {
    Enqueue(s.(calls := s.calls[c := false]), CallTask(User(c), pin))
  }

  function CallEventAdded(s: State, k: Key, c: nat): (r: State) {
    s.(calls := s.calls[c := false], slots := s.slots[k := CallWaiter(c)], pending := s.pending + 1)
  }

  function CallTimerAdded(s: State, t: nat, c: nat): (r: State) {
    s.(calls := s.calls[c := false], timers := s.timers[t := User(c)])
  }

  function TimerCancelled(s: State, t: nat): (r: State)
    requires t in s.timers
  {
    var cb := s.timers[t];
    s.(timers := s.timers - {t}, calls := if cb.User? then s.calls[cb.c := true] else s.calls)
  }

  function Triggered(s: State, k: Key): (r: State)
    requires k in s.slots
  {
    Enqueue(s.(slots := s.slots - {k}, owed := s.owed + 1), WaiterTask(s.slots[k]))
  }

  function EventDeleted(s: State, k: Key): (r: State)
    requires k in s.slots && s.pending > 0
  {
    var dropped := s.(slots := s.slots - {k}, pending := s.pending - 1);
    match s.slots[k]
    case FiberWaiter(f) => dropped.(lost := s.lost + {f})
    case CallWaiter(c) => dropped.(calls := s.calls[c := true])
  }

  function Expired(s: State, w: int, t: nat): (r: State)
    requires w in s.workers && At(s, w).Idle? && t in s.timers
  {
    Goto(s.(timers := s.timers - {t}), w, Idle(At(s, w).batch + [s.timers[t]]))
  }

  /** A recurring timer stays, and a copy of its callback is to be run: a call of its own. */
  function RecurringExpired(s: State, w: int, c: nat): (r: State)
    requires w in s.workers && At(s, w).Idle?
  {
    Goto(s.(calls := s.calls[c := false]), w, Idle(At(s, w).batch + [User(c)]))
  }

  function ExpiredPosted(s: State, w: int): (r: State)
    requires w in s.workers && At(s, w).Idle? && At(s, w).batch != []
  {
    Enqueue(Goto(s, w, Idle(At(s, w).batch[1..])), CallTask(At(s, w).batch[0], -1))
  }

  function Apply(s: State, e: Step): (r: State)
    requires Enabled(s, e)
  {
    match e
    case Take(w, i) => Taken(s, w, i)
    case ScanEmpty(w) => WentIdle(s, w)
    case SwapIn(w) => SwappedIn(s, w)
    case LoadCallback(w, g) => CallbackLoaded(s, w, g)
    case SwapInCallback(w) => CallbackEntered(s, w)
    case Decrement(w) => Decremented(s, w)
    case Conclude(w) => Concluded(s, w)
    case DoWake(w) => WakePerformed(s, w)
    case ParkOnEvent(w, k) => ParkedOnEvent(s, w, k)
    case ParkOnTimer(w, t) => ParkedOnTimer(s, w, t)
    case ParkInHand(w) => ParkedInHand(s, w)
    case YieldToHold(w) => Yielded(s, w, EXEC)
    case YieldToReady(w) => Yielded(s, w, READY)
    case Finish(w, ok) => Yielded(s, w, if ok then TERM else EXCEPT)
    case NewFiber(g) => s.(fibers := s.fibers[g := INIT], hand := s.hand + {g})
    case HandIn(_, g, pin) => HandedIn(s, g, pin)
    case PostCall(_, c, pin) => CallPosted(s, c, pin)
    case AddCallEvent(_, k, c) => CallEventAdded(s, k, c)
    case AddCallTimer(_, t, c) => CallTimerAdded(s, t, c)
    case AddIoTimer(_, t, k) => s.(timers := s.timers[t := CancelIo(k)])
    case CancelTimer(_, t) => TimerCancelled(s, t)
    case Trigger(_, k) => Triggered(s, k)
    case SettlePending => s.(owed := s.owed - 1, pending := s.pending - 1)
    case DelEvent(_, k) => EventDeleted(s, k)
    case RequestStop => s.(stopping := true)
    case Expire(w, t) => Expired(s, w, t)
    case ExpireRecurring(w, t, c) => RecurringExpired(s, w, c)
    case PostExpired(w) => ExpiredPosted(s, w)
    case IdleStop(w) => s.(workers := s.workers[w := s.workers[w].(pc := Scan, idleDone := true)])
    case IdleYield(w) => Goto(s, w, Scan)
  }

  /** Nothing scheduled yet; any finite set of threads. */
  predicate Initial(s: State) {
    && s.fibers == map[] && s.calls == map[] && s.queue == [] && s.slots == map[] && s.timers == map[]
    && s.hand == {} && s.lost == {} && s.active == 0 && s.pending == 0 && s.owed == 0
    && forall w :: w in s.workers ==> s.workers[w] == Worker(Scan, None, false)
  }

  ghost predicate IsRun(run: seq<State>) {
    && run != [] && Initial(run[0])
    && forall i :: 0 <= i < |run| - 1 ==> Linked(run, i)
  }

  /** The run takes a step at i. */
  ghost predicate Linked(run: seq<State>, i: nat)
    requires i < |run| - 1
  {
    Next(run[i], run[i + 1])
  }

  ghost predicate Next(s: State, r: State) {
    exists e :: Enabled(s, e) && r == Apply(s, e)
  }
}
