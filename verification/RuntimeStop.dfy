/** Stopping: what is guaranteed when the workers leave their run loops, and
    what the stop check overlooks. */
module RuntimeStop {
  import opened Wrappers
  import opened Runtime
  import opened RuntimeFrames
  import opened RuntimeInvariant
  import opened RuntimeTheorems
  import opened RuntimeSafety

  predicate AllExited(s: State) {
    (exists w :: w in s.workers) && forall w :: w in s.workers ==> s.workers[w].pc.Exited?
  }

  predicate OnlyPinned(q: seq<Task>) {
    forall i :: 0 <= i < |q| ==> q[i].pin != -1
  }

  ghost predicate Drained(s: State) {
    AllExited(s) ==> OnlyPinned(s.queue)
  }

  /** With every other worker gone nobody runs a fiber, so the last scan can
      have skipped an entry only because of its pin. */
  lemma LastScan(s: State, w: int)
    requires Inv(s) && w in s.workers && At(s, w).Scan? && NoneEligible(s.queue, s.fibers, w)
    requires forall v :: v in s.workers && v != w ==> s.workers[v].pc.Exited?
    ensures OnlyPinned(s.queue)
  {
    var loc :| InvAt(s, loc);
    forall i | 0 <= i < |s.queue|
      ensures s.queue[i].pin != -1
    {
      var t := s.queue[i];
      assert !Eligible(t, s.fibers, w);
    }
  }

  /** A worker leaves only after its idle fiber has seen the stop request. */
  lemma ExitMeansStopping(s: State)
    requires Inv(s) && AllExited(s)
    ensures s.stopping
  {
    var w :| w in s.workers;
    var loc :| InvAt(s, loc);
    assert s.workers[w].idleDone;
  }

  /** With every worker gone nothing is added to the list any more. */
  lemma NothingAdded(s: State, e: Step)
    requires s.stopping && AllExited(s) && Enabled(s, e)
    ensures e.NewFiber? || e.SettlePending? || e.RequestStop?
  {
    assert forall w :: !BodyOf(s, w) && !IdleOf(s, w);
    assert forall a :: !MayAct(s, a);
  }

  lemma DrainedStep(s: State, e: Step)
    requires Inv(s) && Drained(s) && Enabled(s, e)
    ensures Drained(Apply(s, e))
  {
    if AllExited(Apply(s, e)) {
      if AllExited(s) {
        ExitMeansStopping(s);
        NothingAdded(s, e);
      } else {
        ExitIsAScan(s, e);
        LastScan(s, e.w);
      }
    }
  }

  /** Only an empty scan takes a worker out of its loop. */
  lemma ExitIsAScan(s: State, e: Step)
    requires Enabled(s, e) && !AllExited(s) && AllExited(Apply(s, e))
    ensures e.ScanEmpty? && Apply(s, e).queue == s.queue
    ensures forall v :: v in s.workers && v != e.w ==> s.workers[v].pc.Exited?
  {
    Frames(s, e);
    ExitOfOne(s.workers, Apply(s, e).workers, Mover(e));
  }

  /** Of workers who all have left after one of them moved, all others had left before. */
  lemma ExitOfOne(ws: map<int, Worker>, ws': map<int, Worker>, m: Option<int>)
    requires if m.None? then ws' == ws else m.value in ws && m.value in ws' && ws' == ws[m.value := ws'[m.value]]
    requires forall w :: w in ws' ==> ws'[w].pc.Exited?
    ensures m.Some? || forall w :: w in ws ==> ws[w].pc.Exited?
    ensures m.Some? ==> forall v :: v in ws && v != m.value ==> ws[v].pc.Exited?
  {
    if m.Some? {
      forall v | v in ws && v != m.value
        ensures ws[v].pc.Exited?
      {
        assert v in ws' && ws'[v] == ws[v];
      }
    }
  }

  lemma DrainedNext(run: seq<State>, i: nat)
    requires IsRun(run) && i < |run| - 1 && Drained(run[i])
    ensures Drained(run[i + 1])
  {
    RunKeeps(run, i);
    var e := StepAt(run, i);
    DrainedStep(run[i], e);
  }

  lemma {:induction false} DrainedAlong(run: seq<State>, i: nat)
    requires IsRun(run) && i < |run|
    ensures Drained(run[i])
  {
    if i == 0 {
      assert !AllExited(run[0]);
    } else {
      DrainedAlong(run, i - 1);
      DrainedNext(run, i - 1);
    }
  }

  /** Once every worker has left run, only entries pinned to some thread can be
      left in the list; with unpinned tasks it is empty. */
  lemma ExitLeavesOnlyPinned(s: State)
    requires Reachable(s) && AllExited(s)
    ensures OnlyPinned(s.queue)
    ensures (forall i :: 0 <= i < |s.queue| ==> s.queue[i].pin == -1) ==> s.queue == []
  {
    var run :| IsRun(run) && run[|run| - 1] == s;
    DrainedAlong(run, |run| - 1);
  }

  /* ---------- what the stop check overlooks ---------- */

  /** The two places work can be in without being counted, queued, registered or
      timed: re-queueing a READY fiber, and queueing expired callbacks. */
  predicate InWindow(s: State, w: int) {
    && w in s.workers
    && ((At(s, w).Post? && At(s, w).f in s.fibers && s.fibers[At(s, w).f] == READY)
        || exists i :: 0 <= i < |BatchOf(s.workers[w])| && Carried(BatchOf(s.workers[w])[i]).Some?)
  }

  /** The fiber still has something to do that the scheduler knows of. */
  ghost predicate Working(s: State, f: nat) {
    && f in s.fibers
    && ((exists p :: TokenAt(s, Fib(f), p) && !p.AtHand?)
        || exists w :: HasStatus(s, f, Holding(w)) && !Ended(s.fibers[f]))
  }

  ghost predicate Outstanding(s: State) {
    (exists f :: Working(s, f)) || (exists c :: c in s.calls && !s.calls[c])
  }

  lemma NobodyBusy(workers: map<int, Worker>)
    requires |BusySet(workers)| == 0
    ensures forall w :: w in workers ==> !Busy(workers[w].pc)
  {
    assert forall w :: w in workers ==> w !in BusySet(workers);
  }

  /** When the stop check succeeds, no token is in the list, a slot, a timer or
      a worker's hands. */
  lemma StopCheckPlaces(s: State, loc: Locs, u: Work, p: Place)
    requires InvAt(s, loc) && StopCheck(s) && TokenAt(s, u, p)
    ensures p.AtHand? || (p.AtBatch? && InWindow(s, p.w))
  {
    NobodyBusy(s.workers);
    NoSlots(s.slots);
  }

  lemma NoSlots(slots: map<Key, Waiter>)
    ensures |slots| == 0 ==> forall k :: k !in slots
  {
    if k :| k in slots {
      SlotCountDrop(slots, k);
    }
  }

  lemma WindowIsWork(s: State, loc: Locs, w: int)
    requires InvAt(s, loc) && InWindow(s, w)
    ensures Outstanding(s)
  {
    if At(s, w).Post? {
      assert HasStatus(s, At(s, w).f, Holding(w));
      assert Working(s, At(s, w).f);
    } else {
      var b := BatchOf(s.workers[w]);
      var i :| 0 <= i < |b| && Carried(b[i]).Some?;
      var u := Carried(b[i]).value;
      assert TokenAt(s, u, AtBatch(w, i));
      TokenMatches(s, loc, u, AtBatch(w, i));
      match u
      case Fib(f) => assert Working(s, f);
      case Call(c) => assert c in s.calls && !s.calls[c];
    }
  }

  lemma WorkIsInWindow(s: State, loc: Locs) returns (w: int)
    requires InvAt(s, loc) && StopCheck(s) && Outstanding(s)
    ensures InWindow(s, w)
  {
    if c :| c in s.calls && !s.calls[c] {
      var p := TokenExists(s, loc, Call(c));
      StopCheckPlaces(s, loc, Call(c), p);
      w := p.w;
    } else {
      var f :| Working(s, f);
      if p :| TokenAt(s, Fib(f), p) && !p.AtHand? {
        StopCheckPlaces(s, loc, Fib(f), p);
        w := p.w;
      } else {
        w :| HasStatus(s, f, Holding(w)) && !Ended(s.fibers[f]);
        HeldFact(s.workers, s.fibers, loc, w, f);
        NobodyBusy(s.workers);
      }
    }
  }

  /** A successful stop check means that all work is done exactly when no worker
      is in one of the two windows. */
  lemma StopCheckIsExact(s: State)
    requires Reachable(s) && StopCheck(s)
    ensures Outstanding(s) <==> exists w :: InWindow(s, w)
  {
    ReachableInv(s);
    var loc :| InvAt(s, loc);
    if Outstanding(s) {
      var w := WorkIsInWindow(s, loc);
    }
    if w :| InWindow(s, w) {
      WindowIsWork(s, loc, w);
    }
  }

  /* ---------- two runs that show the window is real ---------- */

  /** States with two threads, 0 and 1, and one fiber, 7. */
  function Two(st: FState, q: seq<Task>, p0: Pc, d0: bool, p1: Pc, d1: bool,
               slots: map<Key, Waiter>, active: nat, pending: nat): (s: State)
  {
    State(map[7 := st], map[], q, map[0 := Worker(p0, None, d0), 1 := Worker(p1, None, d1)],
          slots, map[], {}, {}, active, pending, 0, true)
  }

  const TASK_7 := FiberTask(7, -1)
  const RUN_7 := Run(7, false, None, false)

  /* One step of a run, with only its own part of the step relation in view. */

  lemma ReachTaken(s: State, w: int, i: nat)
    requires Reachable(s) && w in s.workers && At(s, w).Scan? && FirstEligible(s.queue, s.fibers, w, i)
    ensures Reachable(Taken(s, w, i))
  {
    ReachStep(s, Take(w, i));
  }

  lemma ReachSwappedIn(s: State, w: int)
    requires Reachable(s) && w in s.workers && At(s, w).Got? && At(s, w).task.FiberTask?
    ensures Reachable(SwappedIn(s, w))
  {
    ReachStep(s, SwapIn(w));
  }

  lemma ReachYieldedReady(s: State, w: int)
    requires Reachable(s) && BodyOf(s, w)
    ensures Reachable(Yielded(s, w, READY))
  {
    ReachStep(s, YieldToReady(w));
  }

  lemma ReachDecremented(s: State, w: int)
    requires Reachable(s) && w in s.workers && At(s, w).After? && s.active > 0
    ensures Reachable(Decremented(s, w))
  {
    ReachStep(s, Decrement(w));
  }

  lemma ReachConcluded(s: State, w: int)
    requires Reachable(s) && w in s.workers && At(s, w).Post? && At(s, w).f in s.fibers
    ensures Reachable(Concluded(s, w))
  {
    ReachStep(s, Conclude(w));
  }

  lemma ReachIdle(s: State, w: int)
    requires Reachable(s) && w in s.workers && At(s, w).Scan? && s.queue == []
    ensures Reachable(WentIdle(s, w))
  {
    ReachStep(s, ScanEmpty(w));
  }

  lemma ReachIdleStop(s: State, w: int, r: State)
    requires Reachable(s) && IdleOf(s, w) && At(s, w).batch == [] && StopCheck(s)
    requires r == s.(workers := s.workers[w := s.workers[w].(pc := Scan, idleDone := true)])
    ensures Reachable(r)
  {
    ReachStep(s, IdleStop(w));
  }

  lemma ReachParked(s: State, w: int, k: Key)
    requires Reachable(s) && BodyOf(s, w) && k !in s.slots
    ensures Reachable(Yielded(ParkedOnEvent(s, w, k), w, EXEC))
  {
    ReachStep(s, ParkOnEvent(w, k));
    ReachStep(ParkedOnEvent(s, w, k), YieldToHold(w));
  }

  lemma ReachNewFiber(s: State, g: nat)
    requires Reachable(s) && g !in s.fibers
    ensures Reachable(s.(fibers := s.fibers[g := INIT], hand := s.hand + {g}))
  {
    ReachStep(s, NewFiber(g));
  }

  lemma ReachHandedIn(s: State, g: nat, pin: int)
    requires Reachable(s) && g in s.hand && !s.stopping
    ensures Reachable(HandedIn(s, g, pin))
  {
    ReachStep(s, HandIn(Outside, g, pin));
  }

  lemma ReachStopRequested(s: State)
    requires Reachable(s)
    ensures Reachable(s.(stopping := true))
  {
    ReachStep(s, RequestStop);
  }

  /** Fiber 7 is queued, and stopping has been requested. */
  lemma ReachQueued() returns (s: State)
    ensures s == Two(INIT, [TASK_7], Scan, false, Scan, false, map[], 0, 0) && Reachable(s)
  {
    var w := map[0 := Worker(Scan, None, false), 1 := Worker(Scan, None, false)];
    var a := State(map[], map[], [], w, map[], map[], {}, {}, 0, 0, 0, false);
    ReachInitial(a);
    s := Two(INIT, [TASK_7], Scan, false, Scan, false, map[], 0, 0);
    ReachNewFiber(a, 7);
    ReachHandedIn(a.(fibers := map[7 := INIT], hand := {7}), 7, -1);
    ReachStopRequested(s.(stopping := false));
  }

  lemma TakenOn0(st: FState, d: bool)
    requires st != EXEC && Reachable(Two(st, [TASK_7], Scan, d, Scan, d, map[], 0, 0))
    ensures Reachable(Two(st, [], Got(TASK_7), d, Scan, d, map[], 1, 0))
  {
    var a := Two(st, [TASK_7], Scan, d, Scan, d, map[], 0, 0);
    ReachTaken(a, 0, 0);
    assert Taken(a, 0, 0) == Two(st, [], Got(TASK_7), d, Scan, d, map[], 1, 0);
  }

  /** Thread 0 takes the queued fiber and switches to it. */
  lemma RunsOn0(st: FState, d: bool)
    requires st != EXEC && Reachable(Two(st, [TASK_7], Scan, d, Scan, d, map[], 0, 0))
    ensures Reachable(Two(EXEC, [], RUN_7, d, Scan, d, map[], 1, 0))
  {
    TakenOn0(st, d);
    var b := Two(st, [], Got(TASK_7), d, Scan, d, map[], 1, 0);
    ReachSwappedIn(b, 0);
    assert SwappedIn(b, 0) == Two(EXEC, [], RUN_7, d, Scan, d, map[], 1, 0) by {
      assert b.fibers[7 := EXEC] == map[7 := EXEC];
    }
  }

  lemma YieldsOn0()
    requires Reachable(Two(EXEC, [], RUN_7, false, Scan, false, map[], 1, 0))
    ensures Reachable(Two(READY, [], After(7, false), false, Scan, false, map[], 1, 0))
  {
    var c := Two(EXEC, [], RUN_7, false, Scan, false, map[], 1, 0);
    ReachYieldedReady(c, 0);
    assert Yielded(c, 0, READY) == Two(READY, [], After(7, false), false, Scan, false, map[], 1, 0);
  }

  /** The fiber yields READY; the thread has counted it out and not yet queued it
      again. */
  lemma ReadyOn0()
    requires Reachable(Two(INIT, [TASK_7], Scan, false, Scan, false, map[], 0, 0))
    ensures Reachable(Two(READY, [], Post(7, false), false, Scan, false, map[], 0, 0))
  {
    RunsOn0(INIT, false);
    YieldsOn0();
    var d := Two(READY, [], After(7, false), false, Scan, false, map[], 1, 0);
    ReachDecremented(d, 0);
    assert Decremented(d, 0) == Two(READY, [], Post(7, false), false, Scan, false, map[], 0, 0);
  }

  /** The stop check succeeds although fiber 7 is to run once more. */
  lemma StopCheckMissesReadyFiber() returns (s: State)
    ensures s == Two(READY, [], Post(7, false), false, Scan, false, map[], 0, 0) && Reachable(s)
    ensures StopCheck(s) && Working(s, 7)
  {
    var a := ReachQueued();
    ReadyOn0();
    s := Two(READY, [], Post(7, false), false, Scan, false, map[], 0, 0);
    assert HasStatus(s, 7, Holding(0));
  }

  /** Thread 1 sees the stop condition in that window and its idle fiber ends,
      before thread 0 has queued the fiber again. */
  lemma Thread1Stops(a: State)
    requires a == Two(READY, [], Post(7, false), false, Scan, false, map[], 0, 0) && Reachable(a)
    ensures Reachable(Two(READY, [TASK_7], Scan, false, Scan, true, map[], 0, 0))
  {
    ReachIdle(a, 1);
    var b := Two(READY, [], Post(7, false), false, Idle([]), false, map[], 0, 0);
    assert WentIdle(a, 1) == b;
    var c := Two(READY, [], Post(7, false), false, Scan, true, map[], 0, 0);
    ReachIdleStop(b, 1, c);
    ReachConcluded(c, 0);
    assert Concluded(c, 0) == Two(READY, [TASK_7], Scan, false, Scan, true, map[], 0, 0);
  }

  /** The fiber runs again on thread 1, while thread 0 goes idle. */
  lemma RunsOn1(a: State)
    requires a == Two(READY, [TASK_7], Scan, false, Scan, true, map[], 0, 0) && Reachable(a)
    ensures Reachable(Two(EXEC, [], Idle([]), false, RUN_7, true, map[], 1, 0))
  {
    ReachTaken(a, 1, 0);
    var b := Two(READY, [], Scan, false, Got(TASK_7), true, map[], 1, 0);
    assert Taken(a, 1, 0) == b;
    ReachIdle(b, 0);
    var c := Two(READY, [], Idle([]), false, Got(TASK_7), true, map[], 1, 0);
    assert WentIdle(b, 0) == c;
    ReachSwappedIn(c, 1);
    assert SwappedIn(c, 1) == Two(EXEC, [], Idle([]), false, RUN_7, true, map[], 1, 0);
  }

  /** The fiber yields on thread 1, which counts down before it puts the fiber back. */
  lemma YieldsOn1(d: State)
    requires d == Two(EXEC, [], Idle([]), false, RUN_7, true, map[], 1, 0) && Reachable(d)
    ensures Reachable(Two(READY, [], Idle([]), false, Post(7, false), true, map[], 0, 0))
  {
    ReachYieldedReady(d, 1);
    var e := Two(READY, [], Idle([]), false, After(7, false), true, map[], 1, 0);
    assert Yielded(d, 1, READY) == e;
    ReachDecremented(e, 1);
    assert Decremented(e, 1) == Two(READY, [], Idle([]), false, Post(7, false), true, map[], 0, 0);
  }

  /** In the second window thread 0 stops too: both idle fibers have ended. */
  lemma Thread0Stops(d: State)
    requires d == Two(EXEC, [], Idle([]), false, RUN_7, true, map[], 1, 0) && Reachable(d)
    ensures Reachable(Two(READY, [TASK_7], Scan, true, Scan, true, map[], 0, 0))
  {
    YieldsOn1(d);
    var f := Two(READY, [], Idle([]), false, Post(7, false), true, map[], 0, 0);
    var g := Two(READY, [], Scan, true, Post(7, false), true, map[], 0, 0);
    ReachIdleStop(f, 0, g);
    ReachConcluded(g, 1);
    assert Concluded(g, 1) == Two(READY, [TASK_7], Scan, true, Scan, true, map[], 0, 0);
  }

  lemma ParkYields(k: Key, m: map<Key, Waiter>)
    requires Reachable(Two(EXEC, [], RUN_7, true, Scan, true, map[], 1, 0)) && m == map[k := FiberWaiter(7)]
    ensures Reachable(Two(EXEC, [], After(7, false), true, Scan, true, m, 1, 1))
  {
    var c := Two(EXEC, [], RUN_7, true, Scan, true, map[], 1, 0);
    ReachParked(c, 0, k);
    assert Yielded(ParkedOnEvent(c, 0, k), 0, EXEC) == Two(EXEC, [], After(7, false), true, Scan, true, m, 1, 1);
  }

  /** Thread 0 runs the fiber once more; it parks on an event. */
  lemma ParksOn0(k: Key, m: map<Key, Waiter>)
    requires Reachable(Two(READY, [TASK_7], Scan, true, Scan, true, map[], 0, 0)) && m == map[k := FiberWaiter(7)]
    ensures Reachable(Two(HOLD, [], Scan, true, Scan, true, m, 0, 1))
  {
    RunsOn0(READY, true);
    ParkYields(k, m);
    ParkConcluded(m);
  }

  lemma ParkConcluded(m: map<Key, Waiter>)
    requires Reachable(Two(EXEC, [], After(7, false), true, Scan, true, m, 1, 1))
    ensures Reachable(Two(HOLD, [], Scan, true, Scan, true, m, 0, 1))
  {
    var e := Two(EXEC, [], After(7, false), true, Scan, true, m, 1, 1);
    ReachDecremented(e, 0);
    var f := Two(EXEC, [], Post(7, false), true, Scan, true, m, 0, 1);
    assert Decremented(e, 0) == f;
    ReachConcluded(f, 0);
    assert Concluded(f, 0) == LetGo(f, 0, 7, HOLD);
    assert LetGo(f, 0, 7, HOLD) == Two(HOLD, [], Scan, true, Scan, true, m, 0, 1);
  }

  /** Both threads leave although the fiber is parked on an event: no wake-up of
      it can ever be delivered. */
  lemma ParkedFiberCanBeStranded() returns (s: State)
    ensures Reachable(s) && AllExited(s) && s.queue == []
    ensures 7 in s.fibers && s.fibers[7] == HOLD && TokenAt(s, Fib(7), AtSlot(Key(3, false)))
  {
    var a := StopCheckMissesReadyFiber();
    Thread1Stops(a);
    RunsOn1(Two(READY, [TASK_7], Scan, false, Scan, true, map[], 0, 0));
    Thread0Stops(Two(EXEC, [], Idle([]), false, RUN_7, true, map[], 1, 0));
    var k := Key(3, false);
    var m := map[k := FiberWaiter(7)];
    ParksOn0(k, m);
    s := BothLeave(m);
  }

  lemma BothLeave(m: map<Key, Waiter>) returns (s: State)
    requires Reachable(Two(HOLD, [], Scan, true, Scan, true, m, 0, 1))
    ensures s == Two(HOLD, [], Exited, true, Exited, true, m, 0, 1) && Reachable(s) && AllExited(s)
  {
    var a := Two(HOLD, [], Scan, true, Scan, true, m, 0, 1);
    ReachIdle(a, 0);
    var b := Two(HOLD, [], Exited, true, Scan, true, m, 0, 1);
    assert WentIdle(a, 0) == b;
    ReachIdle(b, 1);
    s := Two(HOLD, [], Exited, true, Exited, true, m, 0, 1);
    assert WentIdle(b, 1) == s;
    assert 0 in s.workers;
  }

  /** After the last worker has left, this is all that can be unfinished: tasks
      pinned to a thread, waits for an event or a timer, and fibers in the hands
      of user code. */
  lemma ExitAccounting(s: State, u: Work, p: Place)
    requires Reachable(s) && AllExited(s) && TokenAt(s, u, p)
    ensures p.AtSlot? || p.AtTimer? || p.AtHand? || (p.AtQueue? && s.queue[p.i].pin != -1)
  {
    ExitLeavesOnlyPinned(s);
  }
}
