/** Every step of the runtime keeps the invariant. */
module RuntimeSteps {
  import opened Wrappers
  import opened Runtime
  import opened RuntimeInvariant

  /* ---------- Scheduler::run ---------- */

  /** A queued fiber that is not EXEC is held by nobody, so taking it is safe. */
  lemma TakeHeld(workers: map<int, Worker>, fibers: map<nat, FState>, loc: Locs, w: int, k: Worker,
                 f: nat, workers': map<int, Worker>, loc': Locs)
    requires HoldingOk(workers, fibers, loc) && w in workers && workers' == workers[w := k]
    requires HeldBy(workers[w]).None? && k.pc.Got? && HeldBy(k) == Some(f)
    requires f in fibers && fibers[f] != EXEC && Has(loc, Fib(f), Queue(true)) && loc' == loc[Fib(f) := Nowhere]
    ensures HoldingOk(workers', fibers, loc')
  {
    assert !Held(workers, f);
    SameState(fibers, f);
    Acquire(workers, fibers, loc, w, k, f, fibers[f], Nowhere, workers', fibers, loc');
  }

  lemma TakeFiberPlaces(s: State, loc: Locs, w: int, i: nat, f: nat, r: State, l: Locs)
    requires PlacesOk(s, loc) && w in s.workers && At(s, w).Scan? && i < |s.queue| && r == Taken(s, w, i)
    requires s.queue[i].FiberTask? && f == s.queue[i].f && l == loc[Fib(f) := Nowhere]
    ensures PlacesOk(r, l)
  {
    WorkerFrame(s.workers, loc, w, r.workers[w], r.workers);
    QueueDrop(s.queue, loc, i, Nowhere, l);
    MoveFrame(s, loc, Fib(f), Nowhere, l);
    MoveWorkerFrame(r.workers, loc, Fib(f), Nowhere, l);
  }

  lemma TakeFiberKeeps(s: State, loc: Locs, w: int, i: nat, f: nat)
    requires InvAt(s, loc) && w in s.workers && At(s, w).Scan? && i < |s.queue|
    requires s.queue[i].FiberTask? && f == s.queue[i].f
    requires Eligible(s.queue[i], s.fibers, w)
    ensures Inv(Taken(s, w, i))
  {
    var r := Taken(s, w, i);
    var l: Locs := loc[Fib(f) := Nowhere];
    TakeFiberPlaces(s, loc, w, i, f, r, l);
    TakeHeld(s.workers, s.fibers, loc, w, r.workers[w], f, r.workers, l);
    BusyUpdate(s.workers, w, r.workers[w], r.workers);
    assert InvAt(r, l);
  }

  lemma TakeCallPlaces(s: State, loc: Locs, w: int, i: nat, u: Work, r: State, l: Locs)
    requires PlacesOk(s, loc) && w in s.workers && At(s, w).Scan? && i < |s.queue| && r == Taken(s, w, i)
    requires s.queue[i].CallTask? && TaskWork(s.queue[i]) == Some(u) && l == loc[u := Job(w)]
    ensures PlacesOk(r, l)
  {
    WorkerFrame(s.workers, loc, w, r.workers[w], r.workers);
    QueueDrop(s.queue, loc, i, Job(w), l);
    MoveFrame(s, loc, u, Job(w), l);
    MoveWorkerFrame(r.workers, loc, u, Job(w), l);
    JobsAdd(s.workers, loc, w, r.workers[w], u, r.workers, l);
  }

  /** A wake-up inside a queued callback passes to the worker that takes it. */
  lemma TakeCallHeld(workers: map<int, Worker>, fibers: map<nat, FState>, loc: Locs, w: int, k: Worker,
                     u: Work, workers': map<int, Worker>, loc': Locs)
    requires HoldingOk(workers, fibers, loc) && w in workers && workers' == workers[w := k]
    requires HeldBy(workers[w]).None? && HeldBy(k).None? && k.pc.Got?
    requires Has(loc, u, Queue(false)) && loc' == loc[u := Job(w)]
    ensures HoldingOk(workers', fibers, loc')
  {
    HoldNothing(workers, fibers, loc, w, k, workers');
    TokenMoves(workers', fibers, loc, u, Job(w), loc');
  }

  lemma TakeCallKeeps(s: State, loc: Locs, w: int, i: nat, u: Work)
    requires InvAt(s, loc) && w in s.workers && At(s, w).Scan? && i < |s.queue|
    requires s.queue[i].CallTask? && TaskWork(s.queue[i]) == Some(u)
    ensures Inv(Taken(s, w, i))
  {
    var r := Taken(s, w, i);
    var l: Locs := loc[u := Job(w)];
    TakeCallPlaces(s, loc, w, i, u, r, l);
    TakeCallHeld(s.workers, s.fibers, loc, w, r.workers[w], u, r.workers, l);
    BusyUpdate(s.workers, w, r.workers[w], r.workers);
    assert InvAt(r, l);
  }

  lemma TakeCancelKeeps(s: State, loc: Locs, w: int, i: nat)
    requires InvAt(s, loc) && w in s.workers && At(s, w).Scan? && i < |s.queue|
    requires TaskWork(s.queue[i]).None?
    ensures Inv(Taken(s, w, i))
  {
    var r := Taken(s, w, i);
    WorkerFrame(s.workers, loc, w, r.workers[w], r.workers);
    QueueDrop(s.queue, loc, i, Nowhere, loc);
    HoldNothing(s.workers, s.fibers, loc, w, r.workers[w], r.workers);
    BusyUpdate(s.workers, w, r.workers[w], r.workers);
    assert InvAt(r, loc);
  }

  lemma WentIdleKeeps(s: State, loc: Locs, w: int)
    requires InvAt(s, loc) && w in s.workers && At(s, w).Scan?
    ensures Inv(WentIdle(s, w))
  {
    var r := WentIdle(s, w);
    WorkerFrame(s.workers, loc, w, r.workers[w], r.workers);
    HoldNothing(s.workers, s.fibers, loc, w, r.workers[w], r.workers);
    BusyUpdate(s.workers, w, r.workers[w], r.workers);
    assert InvAt(r, loc);
  }

  lemma SwappedInKeeps(s: State, loc: Locs, w: int)
    requires InvAt(s, loc) && w in s.workers && At(s, w).Got? && At(s, w).task.FiberTask?
    ensures Inv(SwappedIn(s, w))
  {
    var r := SwappedIn(s, w);
    WorkerFrame(s.workers, loc, w, r.workers[w], r.workers);
    EnteredHeld(s.workers, s.fibers, loc, w, r.workers[w], r.workers, r.fibers);
    BusyUpdate(s.workers, w, r.workers[w], r.workers);
    assert InvAt(r, loc);
  }

  lemma CallbackLoadedPlaces(s: State, loc: Locs, w: int, g: nat, r: State, l: Locs)
    requires PlacesOk(s, loc) && w in s.workers && At(s, w).Got? && At(s, w).task.CallTask? &&
             r == CallbackLoaded(s, w, g)
    requires if s.workers[w].spare.Some? then g == s.workers[w].spare.value else g !in s.fibers
    requires l == loc[Fib(g) := Nowhere]
    ensures PlacesOk(r, l)
  {
    MoveFrame(s, loc, Fib(g), Nowhere, l);
    WorkerFrame(s.workers, loc, w, r.workers[w], r.workers);
    MoveWorkerFrame(r.workers, loc, Fib(g), Nowhere, l);
    if s.workers[w].spare.Some? {
      SparesDrop(s.workers, loc, w, r.workers[w], g, Nowhere, r.workers, l);
    }
  }

  /** The fiber a callback runs in was held by nobody. */
  lemma CallbackLoadedHeld(workers: map<int, Worker>, fibers: map<nat, FState>, loc: Locs, w: int, k: Worker, g: nat,
                           workers': map<int, Worker>, fibers': map<nat, FState>, loc': Locs)
    requires HoldingOk(workers, fibers, loc) && w in workers && workers' == workers[w := k]
    requires HeldBy(workers[w]).None? && k.pc.Loaded? && k.pc.f == g && k.spare.None?
    requires g !in fibers || Has(loc, Fib(g), Spare(w))
    requires fibers' == fibers[g := INIT] && loc' == loc[Fib(g) := Nowhere]
    ensures HoldingOk(workers', fibers', loc')
  {
    assert !Held(workers, g);
    Acquire(workers, fibers, loc, w, k, g, INIT, Nowhere, workers', fibers', loc');
  }

  lemma CallbackLoadedKeeps(s: State, loc: Locs, w: int, g: nat)
    requires InvAt(s, loc) && w in s.workers && At(s, w).Got? && At(s, w).task.CallTask?
    requires if s.workers[w].spare.Some? then g == s.workers[w].spare.value else g !in s.fibers
    ensures Inv(CallbackLoaded(s, w, g))
  {
    var r := CallbackLoaded(s, w, g);
    var l: Locs := loc[Fib(g) := Nowhere];
    CallbackLoadedPlaces(s, loc, w, g, r, l);
    CallbackLoadedHeld(s.workers, s.fibers, loc, w, r.workers[w], g, r.workers, r.fibers, l);
    BusyUpdate(s.workers, w, r.workers[w], r.workers);
    assert InvAt(r, l);
  }

  /** A user callback counts as entered. */
  lemma CallEnteredPlaces(s: State, loc: Locs, w: int, c: nat, r: State, l: Locs)
    requires PlacesOk(s, loc) && w in s.workers && At(s, w).Loaded? && At(s, w).cb == User(c)
    requires At(s, w).f in s.fibers && r == CallbackEntered(s, w) && l == loc[Call(c) := Nowhere]
    ensures PlacesOk(r, l)
  {
    CallsSet(s.calls, loc, c, Nowhere, r.calls, l);
    MoveFrame(s, loc, Call(c), Nowhere, l);
    WorkerFrame(s.workers, loc, w, r.workers[w], r.workers);
    JobsDrop(s.workers, loc, w, r.workers[w], Call(c), Nowhere, r.workers, l);
    MoveWorkerFrame(r.workers, loc, Call(c), Nowhere, l);
  }

  /** Switching to the loaded fiber: its state becomes EXEC and nothing else of it changes. */
  lemma EnteredHeld(workers: map<int, Worker>, fibers: map<nat, FState>, loc: Locs, w: int, k: Worker,
                    workers': map<int, Worker>, fibers': map<nat, FState>)
    requires HoldingOk(workers, fibers, loc) && w in workers && workers' == workers[w := k]
    requires workers[w].pc.Loaded? || workers[w].pc.Got?
    requires HeldBy(workers[w]).Some? && HeldBy(k) == HeldBy(workers[w]) && k.pc.Run? && !k.pc.parked
    requires k.spare == workers[w].spare && (workers[w].pc.Got? ==> !k.pc.viaCallback)
    requires fibers' == fibers[HeldBy(k).value := EXEC]
    ensures HoldingOk(workers', fibers', loc)
  {
    SameLoc(loc, Fib(HeldBy(k).value), Nowhere);
    KeepHeld(workers, fibers, loc, w, k, HeldBy(k).value, EXEC, Nowhere, workers', fibers', loc);
  }

  lemma CallEnteredKeeps(s: State, loc: Locs, w: int, c: nat)
    requires InvAt(s, loc) && w in s.workers && At(s, w).Loaded? && At(s, w).cb == User(c)
    ensures Inv(CallbackEntered(s, w))
  {
    var r := CallbackEntered(s, w);
    var l: Locs := loc[Call(c) := Nowhere];
    CallEnteredPlaces(s, loc, w, c, r, l);
    EnteredHeld(s.workers, s.fibers, loc, w, r.workers[w], r.workers, r.fibers);
    TokenMoves(r.workers, r.fibers, loc, Call(c), Nowhere, l);
    BusyUpdate(s.workers, w, r.workers[w], r.workers);
    assert InvAt(r, l);
  }

  lemma WakeEnteredKeeps(s: State, loc: Locs, w: int)
    requires InvAt(s, loc) && w in s.workers && At(s, w).Loaded? && !At(s, w).cb.User?
    ensures Inv(CallbackEntered(s, w))
  {
    var r := CallbackEntered(s, w);
    WorkerFrame(s.workers, loc, w, r.workers[w], r.workers);
    EnteredHeld(s.workers, s.fibers, loc, w, r.workers[w], r.workers, r.fibers);
    BusyUpdate(s.workers, w, r.workers[w], r.workers);
    assert InvAt(r, loc);
  }

  lemma DecrementedKeeps(s: State, loc: Locs, w: int)
    requires InvAt(s, loc) && w in s.workers && At(s, w).After? && s.active > 0
    ensures Inv(Decremented(s, w))
  {
    var r := Decremented(s, w);
    var f := At(s, w).f;
    HeldFact(s.workers, s.fibers, loc, w, f);
    WorkerFrame(s.workers, loc, w, r.workers[w], r.workers);
    SameLoc(loc, Fib(f), loc[Fib(f)]);
    SameState(s.fibers, f);
    KeepHeld(s.workers, s.fibers, loc, w, r.workers[w], f, s.fibers[f], loc[Fib(f)], r.workers, s.fibers, loc);
    BusyUpdate(s.workers, w, r.workers[w], r.workers);
    assert InvAt(r, loc);
  }

  lemma RequeuedPlaces(s: State, loc: Locs, w: int, f: nat, r: State, l: Locs)
    requires PlacesOk(s, loc) && w in s.workers && At(s, w).Post? && f == At(s, w).f && f in s.fibers
    requires s.fibers[f] == READY && r == Requeued(s, w, f) && Has(loc, Fib(f), Nowhere) &&
             l == loc[Fib(f) := Queue(true)]
    ensures PlacesOk(r, l)
  {
    WorkerFrame(s.workers, loc, w, r.workers[w], r.workers);
    MoveFrame(s, loc, Fib(f), Queue(true), l);
    MoveWorkerFrame(r.workers, loc, Fib(f), Queue(true), l);
    QueuePush(s.queue, loc, FiberTask(f, -1), Fib(f), l);
  }

  /** A fiber that yielded READY goes back to the list. */
  lemma RequeuedKeeps(s: State, loc: Locs, w: int, f: nat)
    requires InvAt(s, loc) && w in s.workers && At(s, w).Post? && f == At(s, w).f && f in s.fibers
    requires s.fibers[f] == READY
    ensures Inv(Requeued(s, w, f))
  {
    var r := Requeued(s, w, f);
    var l: Locs := loc[Fib(f) := Queue(true)];
    HeldFact(s.workers, s.fibers, loc, w, f);
    RequeuedPlaces(s, loc, w, f, r, l);
    SameState(s.fibers, f);
    Release(s.workers, s.fibers, loc, w, r.workers[w], f, READY, Queue(true), r.workers, s.fibers, l);
    BusyUpdate(s.workers, w, r.workers[w], r.workers);
    assert InvAt(r, l);
  }

  lemma SpareWorkers(workers: map<int, Worker>, loc: Locs, w: int, k: Worker, f: nat, workers': map<int, Worker>,
                     l: Locs)
    requires BatchesOk(workers, loc) && JobsOk(workers, loc) && SparesOk(workers, loc)
    requires w in workers && workers' == workers[w := k] && workers[w].spare.None? && k.spare == Some(f)
    requires BatchOf(k) == BatchOf(workers[w]) && JobOf(k) == JobOf(workers[w])
    requires Has(loc, Fib(f), Nowhere) && l == loc[Fib(f) := Spare(w)]
    ensures BatchesOk(workers', l) && JobsOk(workers', l) && SparesOk(workers', l)
  {
    WorkerFrame(workers, loc, w, k, workers');
    MoveWorkerFrame(workers', loc, Fib(f), Spare(w), l);
    SparesAdd(workers, loc, w, k, f, workers', l);
  }

  lemma KeptSparePlaces(s: State, loc: Locs, w: int, f: nat, r: State, l: Locs)
    requires PlacesOk(s, loc) && w in s.workers && s.workers[w].spare.None? && At(s, w).Post?
    requires f == At(s, w).f && f in s.fibers && At(s, w).viaCallback && Ended(s.fibers[f])
    requires r == KeptSpare(s, w, f) && Has(loc, Fib(f), Nowhere) && l == loc[Fib(f) := Spare(w)]
    ensures PlacesOk(r, l)
  {
    SpareWorkers(s.workers, loc, w, r.workers[w], f, r.workers, l);
    MoveFrame(s, loc, Fib(f), Spare(w), l);
  }

  /** A callback fiber that ended is reset and kept by the worker. */
  lemma KeptSpareKeeps(s: State, loc: Locs, w: int, f: nat)
    requires InvAt(s, loc) && w in s.workers && At(s, w).Post? && f == At(s, w).f && f in s.fibers
    requires At(s, w).viaCallback && Ended(s.fibers[f])
    ensures Inv(KeptSpare(s, w, f))
  {
    var r := KeptSpare(s, w, f);
    var l: Locs := loc[Fib(f) := Spare(w)];
    HeldFact(s.workers, s.fibers, loc, w, f);
    KeptSparePlaces(s, loc, w, f, r, l);
    Release(s.workers, s.fibers, loc, w, r.workers[w], f, INIT, Spare(w), r.workers, r.fibers, l);
    BusyUpdate(s.workers, w, r.workers[w], r.workers);
    assert InvAt(r, l);
  }

  /** A fiber that ended, or that yielded with its wake-up registered. */
  lemma LetGoKeeps(s: State, loc: Locs, w: int, f: nat, st: FState)
    requires InvAt(s, loc) && w in s.workers && At(s, w).Post? && f == At(s, w).f && f in s.fibers
    requires if s.fibers[f].EXEC? then st.HOLD? else Ended(s.fibers[f]) && st == s.fibers[f]
    ensures Inv(LetGo(s, w, f, st))
  {
    var r := LetGo(s, w, f, st);
    HeldFact(s.workers, s.fibers, loc, w, f);
    WorkerFrame(s.workers, loc, w, r.workers[w], r.workers);
    SameLoc(loc, Fib(f), loc[Fib(f)]);
    Release(s.workers, s.fibers, loc, w, r.workers[w], f, st, loc[Fib(f)], r.workers, r.fibers, loc);
    BusyUpdate(s.workers, w, r.workers[w], r.workers);
    assert InvAt(r, loc);
  }

  /* ---------- the running fiber ---------- */

  lemma WakePerformedPlaces(s: State, loc: Locs, w: int, f: nat, r: State, l: Locs)
    requires PlacesOk(s, loc) && w in s.workers && At(s, w).Run? && At(s, w).duty == Some(f)
    requires r == WakePerformed(s, w) && l == loc[Fib(f) := Queue(true)]
    ensures PlacesOk(r, l)
  {
    WorkerFrame(s.workers, loc, w, r.workers[w], r.workers);
    MoveFrame(s, loc, Fib(f), Queue(true), l);
    MoveWorkerFrame(r.workers, loc, Fib(f), Queue(true), l);
    JobsDrop(s.workers, loc, w, r.workers[w], Fib(f), Queue(true), r.workers, l);
    QueuePush(s.queue, loc, FiberTask(f, -1), Fib(f), l);
  }

  lemma WakePerformedHeld(workers: map<int, Worker>, fibers: map<nat, FState>, loc: Locs, w: int, k: Worker, f: nat,
                          workers': map<int, Worker>, loc': Locs)
    requires HoldingOk(workers, fibers, loc) && w in workers && workers' == workers[w := k]
    requires workers[w].pc.Run? && workers[w].pc.duty.Some? &&
             k.pc == Run(workers[w].pc.f, workers[w].pc.parked, None, workers[w].pc.viaCallback)
    requires k.spare == workers[w].spare && Has(loc, Fib(f), Job(w)) && loc' == loc[Fib(f) := Queue(true)]
    ensures HoldingOk(workers', fibers, loc')
  {
    var g := workers[w].pc.f;
    SameLoc(loc, Fib(g), Nowhere);
    SameState(fibers, g);
    KeepHeld(workers, fibers, loc, w, k, g, EXEC, Nowhere, workers', fibers, loc);
    TokenMoves(workers', fibers, loc, Fib(f), Queue(true), loc');
  }

  /** A sleeper's callback hands the sleeper back to the scheduler. */
  lemma WakePerformedKeeps(s: State, loc: Locs, w: int, f: nat)
    requires InvAt(s, loc) && w in s.workers && At(s, w).Run? && At(s, w).duty == Some(f)
    ensures Inv(WakePerformed(s, w))
  {
    var r := WakePerformed(s, w);
    var l: Locs := loc[Fib(f) := Queue(true)];
    WakePerformedPlaces(s, loc, w, f, r, l);
    WakePerformedHeld(s.workers, s.fibers, loc, w, r.workers[w], f, r.workers, l);
    BusyUpdate(s.workers, w, r.workers[w], r.workers);
    assert InvAt(r, l);
  }

  /** The running fiber registers a wake-up of itself at place x. */
  lemma ParkPlaces(s: State, loc: Locs, w: int, f: nat, x: Loc, r: State, l: Locs)
    requires PlacesOk(s, loc) && BodyOf(s, w) && f == At(s, w).f && Has(loc, Fib(f), Nowhere) && l == loc[Fib(f) := x]
    requires r.workers == Goto(s, w, Parking(At(s, w))).workers
    requires r.fibers == s.fibers && r.calls == s.calls && r.queue == s.queue && (x.Slot? || x.Timer? || x.Hand?)
    requires SlotsOk(r.slots, l) && TimersOk(r.timers, l) && HandOk(r.hand, r.lost, l)
    ensures PlacesOk(r, l)
  {
    WorkerFrame(s.workers, loc, w, r.workers[w], r.workers);
    MoveFrame(s, loc, Fib(f), x, l);
    MoveWorkerFrame(r.workers, loc, Fib(f), x, l);
  }

  /** While it parks, the fiber stays held and EXEC. */
  lemma ParkHeld(workers: map<int, Worker>, fibers: map<nat, FState>, loc: Locs, w: int, k: Worker, x: Loc,
                 workers': map<int, Worker>, loc': Locs)
    requires HoldingOk(workers, fibers, loc) && w in workers && workers[w].pc.Run? && workers[w].pc.duty.None?
    requires workers' == workers[w := k] && k.spare == workers[w].spare && k.pc == Parking(workers[w].pc)
    requires Token(x) && loc' == loc[Fib(workers[w].pc.f) := x]
    ensures HoldingOk(workers', fibers, loc')
  {
    SameState(fibers, workers[w].pc.f);
    KeepHeld(workers, fibers, loc, w, k, workers[w].pc.f, EXEC, x, workers', fibers, loc');
  }

  lemma ParkedOnEventKeeps(s: State, loc: Locs, w: int, k: Key, f: nat)
    requires InvAt(s, loc) && BodyOf(s, w) && k !in s.slots && f == At(s, w).f
    ensures Inv(ParkedOnEvent(s, w, k))
  {
    var r := ParkedOnEvent(s, w, k);
    var l: Locs := loc[Fib(f) := Slot(k)];
    HeldFact(s.workers, s.fibers, loc, w, f);
    SlotsAdd(s.slots, loc, k, FiberWaiter(f), l);
    SlotCountAdd(s.slots, k, FiberWaiter(f));
    MoveFrame(s, loc, Fib(f), Slot(k), l);
    ParkPlaces(s, loc, w, f, Slot(k), r, l);
    ParkHeld(s.workers, s.fibers, loc, w, r.workers[w], Slot(k), r.workers, l);
    BusyUpdate(s.workers, w, r.workers[w], r.workers);
    assert InvAt(r, l);
  }

  lemma ParkedOnTimerKeeps(s: State, loc: Locs, w: int, t: nat, f: nat)
    requires InvAt(s, loc) && BodyOf(s, w) && t !in s.timers && f == At(s, w).f
    ensures Inv(ParkedOnTimer(s, w, t))
  {
    var r := ParkedOnTimer(s, w, t);
    var l: Locs := loc[Fib(f) := Timer(t)];
    HeldFact(s.workers, s.fibers, loc, w, f);
    TimersAdd(s.timers, loc, t, Wake(f), Fib(f), l);
    MoveFrame(s, loc, Fib(f), Timer(t), l);
    ParkPlaces(s, loc, w, f, Timer(t), r, l);
    ParkHeld(s.workers, s.fibers, loc, w, r.workers[w], Timer(t), r.workers, l);
    BusyUpdate(s.workers, w, r.workers[w], r.workers);
    assert InvAt(r, l);
  }

  lemma ParkedInHandKeeps(s: State, loc: Locs, w: int, f: nat)
    requires InvAt(s, loc) && BodyOf(s, w) && f == At(s, w).f
    ensures Inv(ParkedInHand(s, w))
  {
    var r := ParkedInHand(s, w);
    var l: Locs := loc[Fib(f) := Hand];
    HeldFact(s.workers, s.fibers, loc, w, f);
    HandAdd(s.hand, s.lost, loc, f, l);
    MoveFrame(s, loc, Fib(f), Hand, l);
    ParkPlaces(s, loc, w, f, Hand, r, l);
    ParkHeld(s.workers, s.fibers, loc, w, r.workers[w], Hand, r.workers, l);
    BusyUpdate(s.workers, w, r.workers[w], r.workers);
    assert InvAt(r, l);
  }

  lemma YieldedKeeps(s: State, loc: Locs, w: int, st: FState)
    requires InvAt(s, loc) && w in s.workers && At(s, w).Run? && At(s, w).duty.None?
    requires if At(s, w).parked then st == EXEC else (st.READY? || Ended(st))
    ensures Inv(Yielded(s, w, st))
  {
    var r := Yielded(s, w, st);
    var f := At(s, w).f;
    HeldFact(s.workers, s.fibers, loc, w, f);
    WorkerFrame(s.workers, loc, w, r.workers[w], r.workers);
    SameLoc(loc, Fib(f), loc[Fib(f)]);
    KeepHeld(s.workers, s.fibers, loc, w, r.workers[w], f, st, loc[Fib(f)], r.workers, r.fibers, loc);
    BusyUpdate(s.workers, w, r.workers[w], r.workers);
    assert InvAt(r, loc);
  }

  /* ---------- any thread ---------- */

  /** A step that moves the token of u between the queue, the slots, the timers
      and user code, and touches no worker. */
  lemma MovePlaces(s: State, loc: Locs, u: Work, x: Loc, r: State, l: Locs)
    requires PlacesOk(s, loc) && l == loc[u := x] && r.workers == s.workers
    requires u in loc ==> !loc[u].Batch? && !loc[u].Job? && !loc[u].Spare?
    requires !x.Batch? && !x.Job? && !x.Spare?
    requires DomainOk(r.fibers, r.calls, l) && QueueOk(r.queue, l) && SlotsOk(r.slots, l) && TimersOk(r.timers, l)
    requires CallsOk(r.calls, l) && HandOk(r.hand, r.lost, l)
    ensures PlacesOk(r, l)
  {
    MoveWorkerFrame(s.workers, loc, u, x, l);
  }

  lemma NewFiberHeld(workers: map<int, Worker>, fibers: map<nat, FState>, loc: Locs, g: nat,
                     fibers': map<nat, FState>, loc': Locs)
    requires HoldingOk(workers, fibers, loc) && g !in fibers
    requires fibers' == fibers[g := INIT] && loc' == loc[Fib(g) := Hand]
    ensures HoldingOk(workers, fibers', loc')
  {}

  lemma NewFiberKeeps(s: State, loc: Locs, g: nat)
    requires InvAt(s, loc) && g !in s.fibers
    ensures Inv(s.(fibers := s.fibers[g := INIT], hand := s.hand + {g}))
  {
    var r := s.(fibers := s.fibers[g := INIT], hand := s.hand + {g});
    var l: Locs := loc[Fib(g) := Hand];
    HandAdd(s.hand, s.lost, loc, g, l);
    MoveFrame(s, loc, Fib(g), Hand, l);
    MovePlaces(s, loc, Fib(g), Hand, r, l);
    NewFiberHeld(s.workers, s.fibers, loc, g, r.fibers, l);
    assert InvAt(r, l);
  }

  lemma HandedInKeeps(s: State, loc: Locs, g: nat, pin: int)
    requires InvAt(s, loc) && g in s.hand
    ensures Inv(HandedIn(s, g, pin))
  {
    var r := HandedIn(s, g, pin);
    var l: Locs := loc[Fib(g) := Queue(true)];
    HandDrop(s.hand, s.lost, loc, g, Queue(true), l);
    QueuePush(s.queue, loc, FiberTask(g, pin), Fib(g), l);
    MoveFrame(s, loc, Fib(g), Queue(true), l);
    MovePlaces(s, loc, Fib(g), Queue(true), r, l);
    TokenMoves(s.workers, s.fibers, loc, Fib(g), Queue(true), l);
    assert InvAt(r, l);
  }

  lemma CallPostedKeeps(s: State, loc: Locs, c: nat, pin: int)
    requires InvAt(s, loc) && c !in s.calls
    ensures Inv(CallPosted(s, c, pin))
  {
    var r := CallPosted(s, c, pin);
    var l: Locs := loc[Call(c) := Queue(false)];
    QueuePush(s.queue, loc, CallTask(User(c), pin), Call(c), l);
    CallsSet(s.calls, loc, c, Queue(false), r.calls, l);
    MoveFrame(s, loc, Call(c), Queue(false), l);
    MovePlaces(s, loc, Call(c), Queue(false), r, l);
    TokenMoves(s.workers, s.fibers, loc, Call(c), Queue(false), l);
    assert InvAt(r, l);
  }

  lemma CallEventAddedKeeps(s: State, loc: Locs, k: Key, c: nat)
    requires InvAt(s, loc) && c !in s.calls && k !in s.slots
    ensures Inv(CallEventAdded(s, k, c))
  {
    var r := CallEventAdded(s, k, c);
    var l: Locs := loc[Call(c) := Slot(k)];
    SlotsAdd(s.slots, loc, k, CallWaiter(c), l);
    SlotCountAdd(s.slots, k, CallWaiter(c));
    CallsSet(s.calls, loc, c, Slot(k), r.calls, l);
    MoveFrame(s, loc, Call(c), Slot(k), l);
    MovePlaces(s, loc, Call(c), Slot(k), r, l);
    TokenMoves(s.workers, s.fibers, loc, Call(c), Slot(k), l);
    assert InvAt(r, l);
  }

  lemma CallTimerAddedKeeps(s: State, loc: Locs, t: nat, c: nat)
    requires InvAt(s, loc) && c !in s.calls && t !in s.timers
    ensures Inv(CallTimerAdded(s, t, c))
  {
    var r := CallTimerAdded(s, t, c);
    var l: Locs := loc[Call(c) := Timer(t)];
    TimersAdd(s.timers, loc, t, User(c), Call(c), l);
    CallsSet(s.calls, loc, c, Timer(t), r.calls, l);
    MoveFrame(s, loc, Call(c), Timer(t), l);
    MovePlaces(s, loc, Call(c), Timer(t), r, l);
    TokenMoves(s.workers, s.fibers, loc, Call(c), Timer(t), l);
    assert InvAt(r, l);
  }

  lemma IoTimerAddedKeeps(s: State, loc: Locs, t: nat, k: Key)
    requires InvAt(s, loc) && t !in s.timers
    ensures Inv(s.(timers := s.timers[t := CancelIo(k)]))
  {
    var r := s.(timers := s.timers[t := CancelIo(k)]);
    IoTimerAddedTimers(s.timers, loc, t, k);
    assert InvAt(r, loc);
  }

  lemma IoTimerAddedTimers(timers: map<nat, Callback>, loc: Locs, t: nat, k: Key)
    requires TimersOk(timers, loc) && t !in timers
    ensures TimersOk(timers[t := CancelIo(k)], loc)
  {
    var timers' := timers[t := CancelIo(k)];
    assert TimersOk(timers', loc);
  }

  lemma CallTimerCancelledKeeps(s: State, loc: Locs, t: nat, c: nat)
    requires InvAt(s, loc) && t in s.timers && s.timers[t] == User(c)
    ensures Inv(TimerCancelled(s, t))
  {
    var r := TimerCancelled(s, t);
    var l: Locs := loc[Call(c) := Nowhere];
    TimersDrop(s.timers, loc, t, Nowhere, l);
    CallsSet(s.calls, loc, c, Nowhere, r.calls, l);
    MoveFrame(s, loc, Call(c), Nowhere, l);
    MovePlaces(s, loc, Call(c), Nowhere, r, l);
    TokenMoves(s.workers, s.fibers, loc, Call(c), Nowhere, l);
    assert InvAt(r, l);
  }

  lemma IoTimerCancelledKeeps(s: State, loc: Locs, t: nat)
    requires InvAt(s, loc) && t in s.timers && s.timers[t].CancelIo?
    ensures Inv(TimerCancelled(s, t))
  {
    var r := TimerCancelled(s, t);
    TimersDrop(s.timers, loc, t, Nowhere, loc);
    assert InvAt(r, loc);
  }

  lemma TriggeredPlaces(s: State, loc: Locs, k: Key, u: Work, r: State, l: Locs)
    requires PlacesOk(s, loc) && k in s.slots && u == WaiterWork(s.slots[k]) && r == Triggered(s, k)
    requires l == loc[u := Queue(s.slots[k].FiberWaiter?)]
    ensures PlacesOk(r, l)
  {
    var t := WaiterTask(s.slots[k]);
    SlotsDrop(s.slots, loc, k, Queue(t.FiberTask?), l);
    WaitingCalls(s.calls, loc, u, Queue(t.FiberTask?), l);
    QueuePush(s.queue, loc, t, u, l);
    MoveFrame(s, loc, u, Queue(t.FiberTask?), l);
    MovePlaces(s, loc, u, Queue(t.FiberTask?), r, l);
  }

  /** Delivery, cancelEvent and cancelAll: the waiter moves from the slot to the list. */
  lemma TriggeredKeeps(s: State, loc: Locs, k: Key, u: Work)
    requires InvAt(s, loc) && k in s.slots && u == WaiterWork(s.slots[k])
    ensures Inv(Triggered(s, k))
  {
    var r := Triggered(s, k);
    var l: Locs := loc[u := Queue(s.slots[k].FiberWaiter?)];
    TriggeredPlaces(s, loc, k, u, r, l);
    SlotCountDrop(s.slots, k);
    SlotFact(s.slots, loc, k);
    TokenMoves(s.workers, s.fibers, loc, u, Queue(s.slots[k].FiberWaiter?), l);
    assert InvAt(r, l);
  }

  lemma FiberEventDeletedKeeps(s: State, loc: Locs, k: Key, f: nat)
    requires InvAt(s, loc) && k in s.slots && s.slots[k] == FiberWaiter(f) && s.pending > 0
    ensures Inv(EventDeleted(s, k))
  {
    var r := EventDeleted(s, k);
    var l: Locs := loc[Fib(f) := Lost];
    SlotsDrop(s.slots, loc, k, Lost, l);
    SlotCountDrop(s.slots, k);
    LostAdd(s.hand, s.lost, loc, f, l);
    MoveFrame(s, loc, Fib(f), Lost, l);
    MovePlaces(s, loc, Fib(f), Lost, r, l);
    TokenMoves(s.workers, s.fibers, loc, Fib(f), Lost, l);
    assert InvAt(r, l);
  }

  lemma CallEventDeletedKeeps(s: State, loc: Locs, k: Key, c: nat)
    requires InvAt(s, loc) && k in s.slots && s.slots[k] == CallWaiter(c) && s.pending > 0
    ensures Inv(EventDeleted(s, k))
  {
    var r := EventDeleted(s, k);
    var l: Locs := loc[Call(c) := Nowhere];
    SlotsDrop(s.slots, loc, k, Nowhere, l);
    SlotCountDrop(s.slots, k);
    CallsSet(s.calls, loc, c, Nowhere, r.calls, l);
    MoveFrame(s, loc, Call(c), Nowhere, l);
    MovePlaces(s, loc, Call(c), Nowhere, r, l);
    TokenMoves(s.workers, s.fibers, loc, Call(c), Nowhere, l);
    assert InvAt(r, l);
  }

  /* ---------- the idle fiber ---------- */

  lemma ExpiredPlaces(s: State, loc: Locs, w: int, t: nat, u: Work, r: State, l: Locs)
    requires PlacesOk(s, loc) && IdleOf(s, w) && t in s.timers && Carried(s.timers[t]) == Some(u)
    requires r == Expired(s, w, t) && l == loc[u := Batch(w)]
    ensures PlacesOk(r, l)
  {
    TimersDrop(s.timers, loc, t, Batch(w), l);
    BatchPush(s.workers, loc, w, r.workers[w], s.timers[t], r.workers, l);
    IdleBatchMoves(s.workers, loc, w, r.workers[w], u, Batch(w), r.workers, l);
    MoveFrame(s, loc, u, Batch(w), l);
    WaitingCalls(s.calls, loc, u, Batch(w), l);
  }

  /** A callback that is still waiting somewhere else is still not entered. */
  lemma WaitingCalls(calls: map<nat, bool>, loc: Locs, u: Work, x: Loc, loc': Locs)
    requires CallsOk(calls, loc) && u in loc && Token(loc[u]) && loc' == loc[u := x] && (x.Batch? || x.Queue?)
    ensures CallsOk(calls, loc')
  {}

  lemma IdleHeld(workers: map<int, Worker>, fibers: map<nat, FState>, loc: Locs, w: int, k: Worker, u: Work, x: Loc,
                 workers': map<int, Worker>, loc': Locs)
    requires HoldingOk(workers, fibers, loc) && w in workers && workers' == workers[w := k]
    requires workers[w].pc.Idle? && k.pc.Idle? && loc' == loc[u := x]
    requires u in loc && ((loc[u].Timer? && x.Batch?) || (loc[u].Batch? && x.Queue?))
    ensures HoldingOk(workers', fibers, loc')
  {
    HoldNothing(workers, fibers, loc, w, k, workers');
    TokenMoves(workers', fibers, loc, u, x, loc');
  }

  lemma ExpiredKeeps(s: State, loc: Locs, w: int, t: nat, u: Work)
    requires InvAt(s, loc) && IdleOf(s, w) && t in s.timers && Carried(s.timers[t]) == Some(u)
    ensures Inv(Expired(s, w, t))
  {
    var r := Expired(s, w, t);
    var l: Locs := loc[u := Batch(w)];
    TimerFact(s.timers, loc, t, u);
    ExpiredPlaces(s, loc, w, t, u, r, l);
    IdleHeld(s.workers, s.fibers, loc, w, r.workers[w], u, Batch(w), r.workers, l);
    BusyUpdate(s.workers, w, r.workers[w], r.workers);
    assert InvAt(r, l);
  }

  lemma IoTimerExpiredKeeps(s: State, loc: Locs, w: int, t: nat)
    requires InvAt(s, loc) && IdleOf(s, w) && t in s.timers && s.timers[t].CancelIo?
    ensures Inv(Expired(s, w, t))
  {
    var r := Expired(s, w, t);
    TimersDrop(s.timers, loc, t, Nowhere, loc);
    BatchPush(s.workers, loc, w, r.workers[w], s.timers[t], r.workers, loc);
    WorkerFrame(s.workers, loc, w, r.workers[w], r.workers);
    HoldNothing(s.workers, s.fibers, loc, w, r.workers[w], r.workers);
    BusyUpdate(s.workers, w, r.workers[w], r.workers);
    assert InvAt(r, loc);
  }

  lemma ExpiredPostedPlaces(s: State, loc: Locs, w: int, u: Work, r: State, l: Locs)
    requires PlacesOk(s, loc) && IdleOf(s, w) && At(s, w).batch != [] && Carried(At(s, w).batch[0]) == Some(u)
    requires r == ExpiredPosted(s, w) && l == loc[u := Queue(false)]
    ensures PlacesOk(r, l)
  {
    QueuePush(s.queue, loc, CallTask(At(s, w).batch[0], -1), u, l);
    BatchPop(s.workers, loc, w, r.workers[w], Queue(false), r.workers, l);
    IdleBatchMoves(s.workers, loc, w, r.workers[w], u, Queue(false), r.workers, l);
    MoveFrame(s, loc, u, Queue(false), l);
    WaitingCalls(s.calls, loc, u, Queue(false), l);
  }

  lemma ExpiredPostedKeeps(s: State, loc: Locs, w: int, u: Work)
    requires InvAt(s, loc) && IdleOf(s, w) && At(s, w).batch != [] && Carried(At(s, w).batch[0]) == Some(u)
    ensures Inv(ExpiredPosted(s, w))
  {
    var r := ExpiredPosted(s, w);
    var l: Locs := loc[u := Queue(false)];
    ExpiredPostedPlaces(s, loc, w, u, r, l);
    IdleHeld(s.workers, s.fibers, loc, w, r.workers[w], u, Queue(false), r.workers, l);
    BusyUpdate(s.workers, w, r.workers[w], r.workers);
    assert InvAt(r, l);
  }

  lemma IoTimerPostedKeeps(s: State, loc: Locs, w: int)
    requires InvAt(s, loc) && IdleOf(s, w) && At(s, w).batch != [] && At(s, w).batch[0].CancelIo?
    ensures Inv(ExpiredPosted(s, w))
  {
    var r := ExpiredPosted(s, w);
    QueuePushNothing(s.queue, loc, CallTask(At(s, w).batch[0], -1));
    BatchPop(s.workers, loc, w, r.workers[w], Nowhere, r.workers, loc);
    WorkerFrame(s.workers, loc, w, r.workers[w], r.workers);
    HoldNothing(s.workers, s.fibers, loc, w, r.workers[w], r.workers);
    BusyUpdate(s.workers, w, r.workers[w], r.workers);
    assert InvAt(r, loc);
  }

  lemma IdleLeftKeeps(s: State, loc: Locs, w: int, done: bool)
    requires InvAt(s, loc) && IdleOf(s, w) && At(s, w).batch == []
    requires (s.workers[w].idleDone ==> done) && (done && !s.workers[w].idleDone ==> s.stopping)
    ensures Inv(s.(workers := s.workers[w := s.workers[w].(pc := Scan, idleDone := done)]))
  {
    var r := s.(workers := s.workers[w := s.workers[w].(pc := Scan, idleDone := done)]);
    WorkerFrame(s.workers, loc, w, r.workers[w], r.workers);
    HoldNothing(s.workers, s.fibers, loc, w, r.workers[w], r.workers);
    BusyUpdate(s.workers, w, r.workers[w], r.workers);
    assert InvAt(r, loc);
  }
}
