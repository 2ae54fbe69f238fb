/** The invariant of the runtime, and its preservation by every step.  The
    witness loc assigns to each unit of work the one place its wake-up token is
    in; no two places can then hold a token of the same fiber. */
module RuntimeInvariant {
  import opened Wrappers
  import opened Runtime

  /** Queue: in the shared list, as itself or (not direct) inside a callback.
      Job: in the hands of worker w as a callback it is about to perform.
      Spare: the callback fiber w keeps for reuse.  Nowhere: no wake-up exists
      (held by a worker without being parked, or finished). */
  datatype Loc =
    | Hand
    | Queue(direct: bool)
    | Slot(k: Key)
    | Timer(t: nat)
    | Batch(w: int)
    | Job(w: int)
    | Spare(w: int)
    | Lost
    | Nowhere

  type Locs = map<Work, Loc>

  ghost predicate Has(loc: Locs, u: Work, l: Loc) {
    u in loc && loc[u] == l
  }

  ghost predicate DomainOk(fibers: map<nat, FState>, calls: map<nat, bool>, loc: Locs) {
    && (forall f :: Fib(f) in loc ==> f in fibers)
    && (forall c :: Call(c) in loc ==> c in calls)
  }

  ghost predicate InQueue(q: seq<Task>, u: Work) {
    exists i :: 0 <= i < |q| && TaskWork(q[i]) == Some(u)
  }

  ghost predicate QueueOk(q: seq<Task>, loc: Locs) {
    && (forall i :: 0 <= i < |q| && TaskWork(q[i]).Some? ==> Has(loc, TaskWork(q[i]).value, Queue(q[i].FiberTask?)))
    && (forall i, j :: 0 <= i < j < |q| && TaskWork(q[i]).Some? ==> TaskWork(q[i]) != TaskWork(q[j]))
    && (forall u, d :: Has(loc, u, Queue(d)) ==> InQueue(q, u))
  }

  ghost predicate SlotsOk(slots: map<Key, Waiter>, loc: Locs) {
    && (forall k :: k in slots ==> Has(loc, WaiterWork(slots[k]), Slot(k)))
    && (forall u, k :: Has(loc, u, Slot(k)) ==> k in slots && WaiterWork(slots[k]) == u)
  }

  ghost predicate TimersOk(timers: map<nat, Callback>, loc: Locs) {
    && (forall t :: t in timers && Carried(timers[t]).Some? ==> Has(loc, Carried(timers[t]).value, Timer(t)))
    && (forall u, t :: Has(loc, u, Timer(t)) ==>
          t in timers && Carried(timers[t]).Some? && Carried(timers[t]).value == u)
  }

  /** The expired callbacks a worker still has to queue. */
  function BatchOf(k: Worker): (b: seq<Callback>) {
    if k.pc.Idle? then k.pc.batch else []
  }

  ghost predicate InBatch(b: seq<Callback>, u: Work) {
    exists i :: 0 <= i < |b| && Carried(b[i]) == Some(u)
  }

  ghost predicate BatchOk(w: int, b: seq<Callback>, loc: Locs) {
    && (forall i :: 0 <= i < |b| && Carried(b[i]).Some? ==> Has(loc, Carried(b[i]).value, Batch(w)))
    && (forall i, j :: 0 <= i < j < |b| && Carried(b[i]).Some? ==> Carried(b[i]) != Carried(b[j]))
    && (forall u :: Has(loc, u, Batch(w)) ==> InBatch(b, u))
  }

  ghost predicate BatchesOk(workers: map<int, Worker>, loc: Locs) {
    && (forall w :: w in workers ==> BatchOk(w, BatchOf(workers[w]), loc))
    && (forall u, w :: Has(loc, u, Batch(w)) ==> w in workers)
  }

  /** The work whose callback a worker has taken and not yet performed. */
  function JobOf(k: Worker): (u: Option<Work>) {
    match k.pc
    case Got(task) => if task.CallTask? then Carried(task.cb) else None
    case Loaded(_, cb) => Carried(cb)
    case Run(_, _, duty, _) => if duty.Some? then Some(Fib(duty.value)) else None
    case _ => None
  }

  ghost predicate JobsOk(workers: map<int, Worker>, loc: Locs) {
    && (forall w :: w in workers && JobOf(workers[w]).Some? ==> Has(loc, JobOf(workers[w]).value, Job(w)))
    && (forall u, w :: Has(loc, u, Job(w)) ==> w in workers && JobOf(workers[w]).Some? && JobOf(workers[w]).value == u)
  }

  ghost predicate SparesOk(workers: map<int, Worker>, loc: Locs) {
    && (forall w :: w in workers && workers[w].spare.Some? ==> Has(loc, Fib(workers[w].spare.value), Spare(w)))
    && (forall u, w :: Has(loc, u, Spare(w)) ==>
          w in workers && workers[w].spare.Some? && u == Fib(workers[w].spare.value))
  }

  /** The fiber a worker holds: dequeued, or made for a callback, and not yet let go. */
  function HeldBy(k: Worker): (f: Option<nat>) {
    match k.pc
    case Got(task) => if task.FiberTask? then Some(task.f) else None
    case Loaded(f, _) => Some(f)
    case Run(f, _, _, _) => Some(f)
    case After(f, _) => Some(f)
    case Post(f, _) => Some(f)
    case _ => None
  }

  /** A place from which a wake-up can still come, or from which it was deleted. */
  predicate Token(l: Loc) {
    !l.Nowhere? && !l.Spare?
  }

  /** What holding a fiber says about its state and its token: a fiber that has
      yielded with a wake-up outstanding still reads EXEC. */
  ghost predicate HoldOk(pc: Pc, st: FState, l: Loc) {
    match pc
    case Got(_) => (st.INIT? || st.HOLD? || st.READY?) && l.Nowhere?
    case Loaded(_, _) => st == INIT && l.Nowhere?
    case Run(_, parked, duty, _) => st == EXEC && (if parked then Token(l) && duty.None? else l.Nowhere?)
    case After(_, _) => if st == EXEC then Token(l) else (st.READY? || Ended(st)) && l.Nowhere?
    case Post(_, _) => if st == EXEC then Token(l) else (st.READY? || Ended(st)) && l.Nowhere?
    case _ => false
  }

  ghost predicate HoldsOk(workers: map<int, Worker>, fibers: map<nat, FState>, loc: Locs) {
    forall w :: w in workers && HeldBy(workers[w]).Some? ==>
      var f := HeldBy(workers[w]).value;
      f in fibers && Fib(f) in loc && HoldOk(workers[w].pc, fibers[f], loc[Fib(f)])
  }

  /** No fiber is held twice, and a running callback fiber is not also spare. */
  ghost predicate UniqueOk(workers: map<int, Worker>) {
    && (forall v, w :: v in workers && w in workers && v != w && HeldBy(workers[v]).Some?
          ==> HeldBy(workers[v]) != HeldBy(workers[w]))
    && (forall w :: w in workers && workers[w].spare.Some? ==> !ViaCallback(workers[w].pc))
  }

  predicate ViaCallback(pc: Pc) {
    pc.Loaded? || ((pc.Run? || pc.After? || pc.Post?) && pc.viaCallback)
  }

  predicate Held(workers: map<int, Worker>, f: nat) {
    exists w :: w in workers && HeldBy(workers[w]) == Some(f)
  }

  /** What a fiber no worker holds may look like. */
  ghost predicate RestOk(st: FState, l: Loc) {
    match st
    case INIT => l.Hand? || l == Queue(true) || l.Spare?
    case HOLD => Token(l)
    case READY => l == Queue(true)
    case TERM => l.Nowhere?
    case EXCEPT => l.Nowhere?
    case EXEC => false
  }

  ghost predicate FibersOk(workers: map<int, Worker>, fibers: map<nat, FState>, loc: Locs) {
    forall f :: f in fibers && !Held(workers, f) ==> Fib(f) in loc && RestOk(fibers[f], loc[Fib(f)])
  }

  ghost predicate CallsOk(calls: map<nat, bool>, loc: Locs) {
    forall c :: c in calls ==>
      && Call(c) in loc
      && (calls[c] <==> loc[Call(c)].Nowhere?)
      && !loc[Call(c)].Hand? && !loc[Call(c)].Spare? && !loc[Call(c)].Lost?
  }

  ghost predicate HandOk(hand: set<nat>, lost: set<nat>, loc: Locs) {
    && (forall f :: f in hand <==> Has(loc, Fib(f), Hand))
    && (forall f :: f in lost <==> Has(loc, Fib(f), Lost))
  }

  predicate Busy(pc: Pc) {
    pc.Got? || pc.Loaded? || pc.Run? || pc.After?
  }

  /** The workers between taking a task off the list and decrementing the count. */
  function BusySet(workers: map<int, Worker>): (b: set<int>) {
    set w | w in workers && Busy(workers[w].pc)
  }

  ghost predicate StopOk(workers: map<int, Worker>, stopping: bool) {
    && (forall w :: w in workers && workers[w].idleDone ==> stopping)
    && (forall w :: w in workers && workers[w].pc.Exited? ==> workers[w].idleDone)
  }

  /** Every token is where loc says, and nowhere else. */
  ghost predicate PlacesOk(s: State, loc: Locs) {
    && DomainOk(s.fibers, s.calls, loc)
    && QueueOk(s.queue, loc)
    && SlotsOk(s.slots, loc)
    && TimersOk(s.timers, loc)
    && BatchesOk(s.workers, loc)
    && JobsOk(s.workers, loc)
    && SparesOk(s.workers, loc)
    && CallsOk(s.calls, loc)
    && HandOk(s.hand, s.lost, loc)
  }

  /** Who holds which fiber, in which state. */
  ghost predicate HoldingOk(workers: map<int, Worker>, fibers: map<nat, FState>, loc: Locs) {
    HoldsOk(workers, fibers, loc) && UniqueOk(workers) && FibersOk(workers, fibers, loc)
  }

  ghost predicate CountsOk(s: State) {
    && s.active == |BusySet(s.workers)|
    && s.pending == |s.slots| + s.owed
    && StopOk(s.workers, s.stopping)
  }

  ghost predicate InvAt(s: State, loc: Locs) {
    PlacesOk(s, loc) && HoldingOk(s.workers, s.fibers, loc) && CountsOk(s)
  }

  ghost predicate Inv(s: State) {
    exists loc :: InvAt(s, loc)
  }

  /* ---------- one token moved ---------- */

  /** Every other question about places has the old answer. */
  lemma HasUpdate(loc: Locs, u: Work, l: Loc, loc': Locs)
    requires loc' == loc[u := l]
    ensures forall v, x :: Has(loc', v, x) <==> if v == u then x == l else Has(loc, v, x)
  {}

  lemma SameLoc(loc: Locs, u: Work, l: Loc)
    requires Has(loc, u, l)
    ensures loc[u := l] == loc
  {}

  lemma SameState(fibers: map<nat, FState>, f: nat)
    requires f in fibers
    ensures fibers[f := fibers[f]] == fibers
  {}

  lemma QueuePush(q: seq<Task>, loc: Locs, t: Task, u: Work, loc': Locs)
    requires QueueOk(q, loc) && (u in loc ==> !loc[u].Queue?) && TaskWork(t) == Some(u)
    requires loc' == loc[u := Queue(t.FiberTask?)]
    ensures QueueOk(q + [t], loc')
  {
    var q' := q + [t];
    HasUpdate(loc, u, Queue(t.FiberTask?), loc');
    forall v, d | Has(loc', v, Queue(d))
      ensures InQueue(q', v)
    {
      if v == u {
        assert TaskWork(q'[|q|]) == Some(v);
      } else {
        assert InQueue(q, v);
        var i :| 0 <= i < |q| && TaskWork(q[i]) == Some(v);
        assert TaskWork(q'[i]) == Some(v);
      }
    }
  }

  lemma QueuePushNothing(q: seq<Task>, loc: Locs, t: Task)
    requires QueueOk(q, loc) && TaskWork(t).None?
    ensures QueueOk(q + [t], loc)
  {
    var q' := q + [t];
    forall v, d | Has(loc, v, Queue(d))
      ensures InQueue(q', v)
    {
      assert InQueue(q, v);
      var i :| 0 <= i < |q| && TaskWork(q[i]) == Some(v);
      assert TaskWork(q'[i]) == Some(v);
    }
  }

  lemma QueueDrop(q: seq<Task>, loc: Locs, i: nat, l: Loc, loc': Locs)
    requires QueueOk(q, loc) && i < |q| && !l.Queue?
    requires loc' == if TaskWork(q[i]).Some? then loc[TaskWork(q[i]).value := l] else loc
    ensures QueueOk(q[..i] + q[i + 1..], loc')
  {
    var q' := q[..i] + q[i + 1..];
    assert forall j :: 0 <= j < |q'| ==> q'[j] == q[if j < i then j else j + 1];
    forall v, d | Has(loc', v, Queue(d))
      ensures InQueue(q', v)
    {
      assert Has(loc, v, Queue(d)) && InQueue(q, v);
      var j :| 0 <= j < |q| && TaskWork(q[j]) == Some(v);
      assert TaskWork(q'[if j < i then j else j - 1]) == Some(v);
    }
  }

  lemma SlotsAdd(slots: map<Key, Waiter>, loc: Locs, k: Key, wt: Waiter, loc': Locs)
    requires SlotsOk(slots, loc) && k !in slots && (WaiterWork(wt) in loc ==> !loc[WaiterWork(wt)].Slot?)
    requires loc' == loc[WaiterWork(wt) := Slot(k)]
    ensures SlotsOk(slots[k := wt], loc')
  {
    var slots' := slots[k := wt];
    HasUpdate(loc, WaiterWork(wt), Slot(k), loc');
    assert SlotsOk(slots', loc');
  }

  lemma SlotsDrop(slots: map<Key, Waiter>, loc: Locs, k: Key, l: Loc, loc': Locs)
    requires SlotsOk(slots, loc) && k in slots && !l.Slot? && loc' == loc[WaiterWork(slots[k]) := l]
    ensures SlotsOk(slots - {k}, loc')
  {
    var slots' := slots - {k};
    HasUpdate(loc, WaiterWork(slots[k]), l, loc');
    assert SlotsOk(slots', loc');
  }

  lemma TimersAdd(timers: map<nat, Callback>, loc: Locs, t: nat, cb: Callback, u: Work, loc': Locs)
    requires TimersOk(timers, loc) && t !in timers && (u in loc ==> !loc[u].Timer?) && Carried(cb) == Some(u)
    requires loc' == loc[u := Timer(t)]
    ensures TimersOk(timers[t := cb], loc')
  {
    var timers' := timers[t := cb];
    HasUpdate(loc, u, Timer(t), loc');
    assert TimersOk(timers', loc');
  }

  lemma TimersDrop(timers: map<nat, Callback>, loc: Locs, t: nat, l: Loc, loc': Locs)
    requires TimersOk(timers, loc) && t in timers && !l.Timer?
    requires loc' == if Carried(timers[t]).Some? then loc[Carried(timers[t]).value := l] else loc
    ensures TimersOk(timers - {t}, loc')
  {
    var timers' := timers - {t};
    if Carried(timers[t]).Some? {
      HasUpdate(loc, Carried(timers[t]).value, l, loc');
    }
    assert TimersOk(timers', loc');
  }

  lemma TimerFact(timers: map<nat, Callback>, loc: Locs, t: nat, u: Work)
    requires TimersOk(timers, loc) && t in timers && Carried(timers[t]) == Some(u)
    ensures Has(loc, u, Timer(t))
  {}

  lemma SlotFact(slots: map<Key, Waiter>, loc: Locs, k: Key)
    requires SlotsOk(slots, loc) && k in slots
    ensures Has(loc, WaiterWork(slots[k]), Slot(k))
  {}

  lemma HandAdd(hand: set<nat>, lost: set<nat>, loc: Locs, f: nat, loc': Locs)
    requires HandOk(hand, lost, loc) && !Has(loc, Fib(f), Lost) && loc' == loc[Fib(f) := Hand]
    ensures HandOk(hand + {f}, lost, loc')
  {
    HasUpdate(loc, Fib(f), Hand, loc');
  }

  lemma HandDrop(hand: set<nat>, lost: set<nat>, loc: Locs, f: nat, l: Loc, loc': Locs)
    requires HandOk(hand, lost, loc) && f in hand && !l.Hand? && !l.Lost? && loc' == loc[Fib(f) := l]
    ensures HandOk(hand - {f}, lost, loc')
  {
    HasUpdate(loc, Fib(f), l, loc');
  }

  lemma LostAdd(hand: set<nat>, lost: set<nat>, loc: Locs, f: nat, loc': Locs)
    requires HandOk(hand, lost, loc) && !Has(loc, Fib(f), Hand) && loc' == loc[Fib(f) := Lost]
    ensures HandOk(hand, lost + {f}, loc')
  {
    HasUpdate(loc, Fib(f), Lost, loc');
  }

  lemma CallsSet(calls: map<nat, bool>, loc: Locs, c: nat, x: Loc, calls': map<nat, bool>, loc': Locs)
    requires CallsOk(calls, loc) && !x.Hand? && !x.Spare? && !x.Lost?
    requires calls' == calls[c := x.Nowhere?] && loc' == loc[Call(c) := x]
    ensures CallsOk(calls', loc')
  {}

  lemma SlotCountAdd(slots: map<Key, Waiter>, k: Key, wt: Waiter)
    requires k !in slots
    ensures |slots[k := wt]| == |slots| + 1
  {}

  lemma SlotCountDrop(slots: map<Key, Waiter>, k: Key)
    requires k in slots
    ensures |slots - {k}| + 1 == |slots|
  {
    assert (slots - {k})[k := slots[k]] == slots;
  }

  /** Moving u leaves alone every part of the state that is neither its old
      place nor its new one. */
  lemma MoveFrame(s: State, loc: Locs, u: Work, l: Loc, loc': Locs)
    requires loc' == loc[u := l]
    ensures QueueOk(s.queue, loc) && (u in loc ==> !loc[u].Queue?) && !l.Queue? ==> QueueOk(s.queue, loc')
    ensures SlotsOk(s.slots, loc) && (u in loc ==> !loc[u].Slot?) && !l.Slot? ==> SlotsOk(s.slots, loc')
    ensures TimersOk(s.timers, loc) && (u in loc ==> !loc[u].Timer?) && !l.Timer? ==> TimersOk(s.timers, loc')
    ensures CallsOk(s.calls, loc) && u.Fib? ==> CallsOk(s.calls, loc')
    ensures HandOk(s.hand, s.lost, loc) && (u in loc ==> !loc[u].Hand? && !loc[u].Lost?) && !l.Hand? && !l.Lost?
            ==> HandOk(s.hand, s.lost, loc')
    ensures DomainOk(s.fibers, s.calls, loc) && u in loc ==> DomainOk(s.fibers, s.calls, loc')
  {
    HasUpdate(loc, u, l, loc');
  }

  lemma MoveWorkerFrame(workers: map<int, Worker>, loc: Locs, u: Work, l: Loc, loc': Locs)
    requires loc' == loc[u := l]
    ensures BatchesOk(workers, loc) && (u in loc ==> !loc[u].Batch?) && !l.Batch? ==> BatchesOk(workers, loc')
    ensures JobsOk(workers, loc) && (u in loc ==> !loc[u].Job?) && !l.Job? ==> JobsOk(workers, loc')
    ensures SparesOk(workers, loc) && (u in loc ==> !loc[u].Spare?) && !l.Spare? ==> SparesOk(workers, loc')
  {
    HasUpdate(loc, u, l, loc');
  }

  /* ---------- one worker moved ---------- */

  lemma WorkerFrame(workers: map<int, Worker>, loc: Locs, w: int, k: Worker, workers': map<int, Worker>)
    requires w in workers && workers' == workers[w := k]
    ensures BatchesOk(workers, loc) && BatchOf(k) == BatchOf(workers[w]) ==> BatchesOk(workers', loc)
    ensures JobsOk(workers, loc) && JobOf(k) == JobOf(workers[w]) ==> JobsOk(workers', loc)
    ensures SparesOk(workers, loc) && k.spare == workers[w].spare ==> SparesOk(workers', loc)
  {}

  lemma JobsAdd(workers: map<int, Worker>, loc: Locs, w: int, k: Worker, u: Work, workers': map<int, Worker>,
                loc': Locs)
    requires JobsOk(workers, loc) && w in workers && workers' == workers[w := k] && loc' == loc[u := Job(w)]
    requires JobOf(workers[w]).None? && JobOf(k) == Some(u) && (u in loc ==> !loc[u].Job?)
    ensures JobsOk(workers', loc')
  {
    HasUpdate(loc, u, Job(w), loc');
  }

  lemma JobsDrop(workers: map<int, Worker>, loc: Locs, w: int, k: Worker, u: Work, l: Loc,
                 workers': map<int, Worker>, loc': Locs)
    requires JobsOk(workers, loc) && w in workers && workers' == workers[w := k] && loc' == loc[u := l]
    requires JobOf(workers[w]) == Some(u) && JobOf(k).None? && !l.Job?
    ensures JobsOk(workers', loc')
  {
    HasUpdate(loc, u, l, loc');
  }

  lemma SparesAdd(workers: map<int, Worker>, loc: Locs, w: int, k: Worker, f: nat, workers': map<int, Worker>,
                  loc': Locs)
    requires SparesOk(workers, loc) && w in workers && workers' == workers[w := k] && loc' == loc[Fib(f) := Spare(w)]
    requires workers[w].spare.None? && k.spare == Some(f) && (Fib(f) in loc ==> !loc[Fib(f)].Spare?)
    ensures SparesOk(workers', loc')
  {
    HasUpdate(loc, Fib(f), Spare(w), loc');
  }

  lemma SparesDrop(workers: map<int, Worker>, loc: Locs, w: int, k: Worker, f: nat, l: Loc,
                   workers': map<int, Worker>, loc': Locs)
    requires SparesOk(workers, loc) && w in workers && workers' == workers[w := k] && loc' == loc[Fib(f) := l]
    requires workers[w].spare == Some(f) && k.spare.None? && !l.Spare?
    ensures SparesOk(workers', loc')
  {
    HasUpdate(loc, Fib(f), l, loc');
  }

  lemma BatchPush(workers: map<int, Worker>, loc: Locs, w: int, k: Worker, cb: Callback,
                  workers': map<int, Worker>, loc': Locs)
    requires BatchesOk(workers, loc) && w in workers && workers' == workers[w := k]
    requires BatchOf(k) == BatchOf(workers[w]) + [cb]
    requires Carried(cb).Some? && Carried(cb).value in loc ==> !loc[Carried(cb).value].Batch?
    requires loc' == if Carried(cb).Some? then loc[Carried(cb).value := Batch(w)] else loc
    ensures BatchesOk(workers', loc')
  {
    var b, b' := BatchOf(workers[w]), BatchOf(k);
    forall u | Has(loc', u, Batch(w))
      ensures InBatch(b', u)
    {
      if Carried(cb) == Some(u) {
        assert Carried(b'[|b|]) == Some(u);
      } else {
        assert Has(loc, u, Batch(w)) && InBatch(b, u);
        var i :| 0 <= i < |b| && Carried(b[i]) == Some(u);
        assert Carried(b'[i]) == Some(u);
      }
    }
    BatchesOthers(workers, loc, w, workers', loc');
  }

  lemma BatchPop(workers: map<int, Worker>, loc: Locs, w: int, k: Worker, l: Loc,
                 workers': map<int, Worker>, loc': Locs)
    requires BatchesOk(workers, loc) && w in workers && workers' == workers[w := k] && !l.Batch?
    requires BatchOf(workers[w]) != [] && BatchOf(k) == BatchOf(workers[w])[1..]
    requires var u := Carried(BatchOf(workers[w])[0]); loc' == if u.Some? then loc[u.value := l] else loc
    ensures BatchesOk(workers', loc')
  {
    var b, b' := BatchOf(workers[w]), BatchOf(k);
    assert forall i :: 0 <= i < |b'| ==> b'[i] == b[i + 1];
    forall u | Has(loc', u, Batch(w))
      ensures InBatch(b', u)
    {
      assert Has(loc, u, Batch(w)) && InBatch(b, u);
      var i :| 0 <= i < |b| && Carried(b[i]) == Some(u);
      assert Carried(b'[i - 1]) == Some(u);
    }
    BatchesOthers(workers, loc, w, workers', loc');
  }

  /** The batches of the other workers when only w's batch gains or loses. */
  lemma BatchesOthers(workers: map<int, Worker>, loc: Locs, w: int, workers': map<int, Worker>, loc': Locs)
    requires BatchesOk(workers, loc) && w in workers && workers'.Keys == workers.Keys
    requires forall v :: v in workers && v != w ==> workers'[v] == workers[v]
    requires forall u, v :: v != w ==> (Has(loc', u, Batch(v)) <==> Has(loc, u, Batch(v)))
    requires BatchOk(w, BatchOf(workers'[w]), loc')
    ensures BatchesOk(workers', loc')
  {}

  /** An expired callback enters, or leaves, the batch of an idle worker. */
  lemma IdleBatchMoves(workers: map<int, Worker>, loc: Locs, w: int, k: Worker, u: Work, x: Loc,
                       workers': map<int, Worker>, loc': Locs)
    requires BatchesOk(workers, loc) && JobsOk(workers, loc) && SparesOk(workers, loc)
    requires w in workers && workers' == workers[w := k] && workers[w].pc.Idle? && k.pc.Idle? &&
             k.spare == workers[w].spare
    requires u in loc && loc' == loc[u := x] && BatchesOk(workers', loc')
    requires (loc[u].Timer? && x.Batch?) || (loc[u].Batch? && x.Queue?)
    ensures JobsOk(workers', loc') && SparesOk(workers', loc')
  {
    WorkerFrame(workers, loc, w, k, workers');
    MoveWorkerFrame(workers', loc, u, x, loc');
  }

  lemma BusyUpdate(workers: map<int, Worker>, w: int, k: Worker, workers': map<int, Worker>)
    requires w in workers && workers' == workers[w := k]
    ensures |BusySet(workers')| + (if Busy(workers[w].pc) then 1 else 0)
            == |BusySet(workers)| + (if Busy(k.pc) then 1 else 0)
  {
    var rest := BusySet(workers) - {w};
    assert BusySet(workers') == rest + (if Busy(k.pc) then {w} else {});
    assert BusySet(workers) == rest + (if Busy(workers[w].pc) then {w} else {});
  }

  /** A held fiber that is neither parked nor yielded with a wake-up has no token. */
  lemma HeldFact(workers: map<int, Worker>, fibers: map<nat, FState>, loc: Locs, w: int, f: nat)
    requires HoldsOk(workers, fibers, loc) && w in workers && HeldBy(workers[w]) == Some(f)
    ensures f in fibers && Fib(f) in loc && HoldOk(workers[w].pc, fibers[f], loc[Fib(f)])
    ensures (if workers[w].pc.Run? then !workers[w].pc.parked else fibers[f] != EXEC) ==> Has(loc, Fib(f), Nowhere)
  {}

  /** The holder of f keeps it while f changes state or place. */
  lemma KeepHeld(workers: map<int, Worker>, fibers: map<nat, FState>, loc: Locs, w: int, k: Worker,
                 f: nat, st: FState, l: Loc,
                 workers': map<int, Worker>, fibers': map<nat, FState>, loc': Locs)
    requires HoldingOk(workers, fibers, loc) && w in workers && workers' == workers[w := k]
    requires HeldBy(workers[w]) == Some(f) && HeldBy(k) == Some(f) && HoldOk(k.pc, st, l)
    requires fibers' == fibers[f := st] && loc' == loc[Fib(f) := l]
    requires k.spare.Some? ==> !ViaCallback(k.pc)
    ensures HoldingOk(workers', fibers', loc')
  {
    assert forall g: nat :: Held(workers', g) <==> Held(workers, g) by {
      forall g: nat ensures Held(workers', g) <==> Held(workers, g) {
        if Held(workers, g) {
          var v :| v in workers && HeldBy(workers[v]) == Some(g);
          assert HeldBy(workers'[v]) == Some(g);
        }
      }
    }
  }

  /** A worker without a fiber gets f, which nobody held. */
  lemma Acquire(workers: map<int, Worker>, fibers: map<nat, FState>, loc: Locs, w: int, k: Worker,
                f: nat, st: FState, l: Loc,
                workers': map<int, Worker>, fibers': map<nat, FState>, loc': Locs)
    requires HoldingOk(workers, fibers, loc) && w in workers && workers' == workers[w := k]
    requires HeldBy(workers[w]).None? && !Held(workers, f) && HeldBy(k) == Some(f) && HoldOk(k.pc, st, l)
    requires fibers' == fibers[f := st] && loc' == loc[Fib(f) := l]
    requires k.spare.Some? ==> !ViaCallback(k.pc)
    ensures HoldingOk(workers', fibers', loc')
  {
    assert forall g: nat :: Held(workers', g) <==> g == f || Held(workers, g) by {
      assert HeldBy(workers'[w]) == Some(f);
      forall g: nat ensures Held(workers', g) <==> g == f || Held(workers, g) {
        if Held(workers, g) {
          var v :| v in workers && HeldBy(workers[v]) == Some(g);
          assert HeldBy(workers'[v]) == Some(g);
        }
      }
    }
  }

  /** A worker lets go of f. */
  lemma Release(workers: map<int, Worker>, fibers: map<nat, FState>, loc: Locs, w: int, k: Worker,
                f: nat, st: FState, l: Loc,
                workers': map<int, Worker>, fibers': map<nat, FState>, loc': Locs)
    requires HoldingOk(workers, fibers, loc) && w in workers && workers' == workers[w := k]
    requires HeldBy(workers[w]) == Some(f) && HeldBy(k).None? && RestOk(st, l)
    requires fibers' == fibers[f := st] && loc' == loc[Fib(f) := l]
    requires k.spare.Some? ==> !ViaCallback(k.pc)
    ensures HoldingOk(workers', fibers', loc')
  {
    assert forall g: nat :: Held(workers', g) <==> g != f && Held(workers, g) by {
      forall g: nat ensures Held(workers', g) <==> g != f && Held(workers, g) {
        if g != f && Held(workers, g) {
          var v :| v in workers && HeldBy(workers[v]) == Some(g);
          assert HeldBy(workers'[v]) == Some(g);
        }
      }
    }
  }

  /** A worker without a fiber stays without one. */
  lemma HoldNothing(workers: map<int, Worker>, fibers: map<nat, FState>, loc: Locs, w: int, k: Worker,
                    workers': map<int, Worker>)
    requires HoldingOk(workers, fibers, loc) && w in workers && workers' == workers[w := k]
    requires HeldBy(workers[w]).None? && HeldBy(k).None? && !ViaCallback(k.pc)
    ensures HoldingOk(workers', fibers, loc)
  {
    assert forall g: nat :: Held(workers', g) <==> Held(workers, g) by {
      forall g: nat ensures Held(workers', g) <==> Held(workers, g) {
        if Held(workers, g) {
          var v :| v in workers && HeldBy(workers[v]) == Some(g);
          assert HeldBy(workers'[v]) == Some(g);
        }
      }
    }
  }

  /** A wake-up moves on to another place, whether or not its fiber has finished
      yielding: this is the race between addEvent and YieldToHold. */
  lemma TokenMoves(workers: map<int, Worker>, fibers: map<nat, FState>, loc: Locs, u: Work, l: Loc, loc': Locs)
    requires HoldingOk(workers, fibers, loc) && loc' == loc[u := l]
    requires u.Fib? ==> u in loc && Token(loc[u]) && loc[u] != Queue(true) && Token(l)
    requires u.Fib? && loc[u].Hand? ==> l == Queue(true)
    ensures HoldingOk(workers, fibers, loc')
  {}
}
