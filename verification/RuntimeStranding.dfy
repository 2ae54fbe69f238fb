/** From a last stop check made inside a window there is always a way on that leaves a fiber parked for good. */
module RuntimeStranding {
  import opened Wrappers
  import opened Runtime
  import opened RuntimeFrames
  import opened RuntimeInvariant
  import opened RuntimeSafety
  import opened RuntimeStop
  import opened RuntimeExit

  /** Steps lead from o to s. */
  ghost predicate Leads(o: State, s: State) {
    exists path: seq<State> :: IsPath(path) && path[0] == o && path[|path| - 1] == s
  }

  ghost predicate IsPath(path: seq<State>) {
    path != [] && forall i :: 0 <= i < |path| - 1 ==> Linked(path, i)
  }

  lemma LeadsNowhere(o: State)
    ensures Leads(o, o)
  {
    assert IsPath([o]) && [o][0] == o && [o][|[o]| - 1] == o;
  }

  lemma LeadsStep(o: State, s: State, e: Step)
    requires Leads(o, s) && Enabled(s, e)
    ensures Leads(o, Apply(s, e))
  {
    var path: seq<State> :| IsPath(path) && path[0] == o && path[|path| - 1] == s;
    var more := path + [Apply(s, e)];
    forall i | 0 <= i < |more| - 1
      ensures Linked(more, i)
    {
      assert i < |path| - 1 ==> Linked(path, i);
    }
    assert IsPath(more) && more[0] == o && more[|more| - 1] == Apply(s, e);
  }

  /** From s to r at most worker x has moved. */
  predicate Beside(s: State, r: State, x: int) {
    && s.workers.Keys == r.workers.Keys && x in s.workers
    && (forall y :: y in s.workers && y != x ==> r.workers[y] == s.workers[y])
    && r.workers[x].idleDone == s.workers[x].idleDone
  }

  /* The steps of worker x with fiber f, one by one. */

  lemma Requeues(o: State, s: State, x: int, f: nat) returns (r: State)
    requires Leads(o, s) && x in s.workers && At(s, x).Post? && At(s, x).f == f && f in s.fibers && s.fibers[f].READY?
    ensures Leads(o, r) && Beside(s, r, x) && At(r, x).Scan? && r.queue == s.queue + [FiberTask(f, -1)]
    ensures r.fibers == s.fibers && r.slots == s.slots && r.active == s.active
  {
    LeadsStep(o, s, Conclude(x));
    r := Requeued(s, x, f);
  }

  lemma LetsGo(o: State, s: State, x: int, f: nat) returns (r: State)
    requires Leads(o, s) && x in s.workers && At(s, x).Post? && At(s, x).f == f && f in s.fibers && !s.fibers[f].READY?
    ensures Leads(o, r) && Beside(s, r, x) && At(r, x).Scan? && r.queue == s.queue
    ensures r.fibers.Keys == s.fibers.Keys && r.slots == s.slots && r.active == s.active
  {
    LeadsStep(o, s, Conclude(x));
    r := if !Ended(s.fibers[f]) then LetGo(s, x, f, HOLD)
         else if At(s, x).viaCallback then KeptSpare(s, x, f)
         else LetGo(s, x, f, s.fibers[f]);
  }

  lemma Takes(o: State, s: State, x: int, f: nat) returns (r: State)
    requires Leads(o, s) && x in s.workers && At(s, x).Scan? && s.queue == [FiberTask(f, -1)]
    requires f in s.fibers && s.fibers[f].READY?
    ensures Leads(o, r) && Beside(s, r, x) && At(r, x) == Got(FiberTask(f, -1)) && r.queue == []
    ensures r.fibers == s.fibers && r.slots == s.slots && r.active == s.active + 1
  {
    LeadsStep(o, s, Take(x, 0));
    r := Taken(s, x, 0);
  }

  lemma Runs(o: State, s: State, x: int, f: nat) returns (r: State)
    requires Leads(o, s) && x in s.workers && At(s, x) == Got(FiberTask(f, -1)) && f in s.fibers
    ensures Leads(o, r) && Beside(s, r, x) && At(r, x) == Run(f, false, None, false) && r.queue == s.queue
    ensures r.fibers == s.fibers[f := EXEC] && r.slots == s.slots && r.active == s.active
  {
    LeadsStep(o, s, SwapIn(x));
    r := SwappedIn(s, x);
  }

  lemma Parks(o: State, s: State, x: int, f: nat, k: Key) returns (r: State)
    requires Leads(o, s) && x in s.workers && At(s, x) == Run(f, false, None, false) && f in s.fibers && k !in s.slots
    ensures Leads(o, r) && Beside(s, r, x) && At(r, x) == Run(f, true, None, false) && r.queue == s.queue
    ensures r.fibers == s.fibers && r.slots == s.slots[k := FiberWaiter(f)] && r.active == s.active
  {
    LeadsStep(o, s, ParkOnEvent(x, k));
    r := ParkedOnEvent(s, x, k);
  }

  lemma Holds(o: State, s: State, x: int, f: nat) returns (r: State)
    requires Leads(o, s) && x in s.workers && At(s, x) == Run(f, true, None, false) && f in s.fibers
    ensures Leads(o, r) && Beside(s, r, x) && At(r, x) == After(f, false) && r.queue == s.queue
    ensures r.fibers == s.fibers[f := EXEC] && r.slots == s.slots && r.active == s.active
  {
    LeadsStep(o, s, YieldToHold(x));
    r := Yielded(s, x, EXEC);
  }

  lemma Ends(o: State, s: State, x: int, f: nat) returns (r: State)
    requires Leads(o, s) && x in s.workers && At(s, x) == Run(f, false, None, false) && f in s.fibers
    ensures Leads(o, r) && Beside(s, r, x) && At(r, x) == After(f, false) && r.queue == s.queue
    ensures r.fibers == s.fibers[f := TERM] && r.slots == s.slots && r.active == s.active
  {
    LeadsStep(o, s, Finish(x, true));
    r := Yielded(s, x, TERM);
  }

  lemma CountsDown(o: State, s: State, x: int, f: nat) returns (r: State)
    requires Leads(o, s) && x in s.workers && At(s, x) == After(f, false) && s.active > 0
    ensures Leads(o, r) && Beside(s, r, x) && At(r, x) == Post(f, false) && r.queue == s.queue
    ensures r.fibers == s.fibers && r.slots == s.slots && r.active == s.active - 1
  {
    LeadsStep(o, s, Decrement(x));
    r := Decremented(s, x);
  }

  lemma Leaves(o: State, s: State, x: int) returns (r: State)
    requires Leads(o, s) && x in s.workers && At(s, x).Scan? && s.workers[x].idleDone && s.queue == []
    ensures Leads(o, r) && Beside(s, r, x) && At(r, x).Exited? && r.queue == []
    ensures r.fibers == s.fibers && r.slots == s.slots && r.active == s.active
  {
    LeadsStep(o, s, ScanEmpty(x));
    r := WentIdle(s, x);
  }

  /* Put together. */

  lemma BesideBeside(a: State, b: State, c: State, x: int)
    requires Beside(a, b, x) && Beside(b, c, x)
    ensures Beside(a, c, x)
  {
  }

  /** A READY fiber in the window gets to run again. */
  lemma RunsAgain(o: State, s: State, x: int, f: nat) returns (r: State)
    requires Leads(o, s) && x in s.workers && At(s, x).Post? && At(s, x).f == f && f in s.fibers && s.fibers[f].READY?
    requires s.queue == [] && s.active == 0
    ensures Leads(o, r) && Beside(s, r, x) && At(r, x) == Run(f, false, None, false) && r.queue == []
    ensures r.fibers == s.fibers[f := EXEC] && r.slots == s.slots && r.active == 1
  {
    var a := Requeues(o, s, x, f);
    var b := Takes(o, a, x, f);
    BesideBeside(s, a, b, x);
    r := Runs(o, b, x, f);
    BesideBeside(s, b, r, x);
  }

  /** The worker is done with a fiber that has yielded or ended. */
  lemma WrapsUp(o: State, s: State, x: int, f: nat) returns (r: State)
    requires Leads(o, s) && x in s.workers && At(s, x) == After(f, false) && s.active == 1 && s.queue == []
    requires f in s.fibers && !s.fibers[f].READY?
    ensures Leads(o, r) && Beside(s, r, x) && At(r, x).Scan? && r.queue == []
    ensures r.fibers.Keys == s.fibers.Keys && r.slots == s.slots && r.active == 0
  {
    var a := CountsDown(o, s, x, f);
    r := LetsGo(o, a, x, f);
    BesideBeside(s, a, r, x);
  }

  /** The fiber in the window runs again and parks on an event. */
  lemma ParksAgain(o: State, s: State, x: int, f: nat, k: Key) returns (r: State)
    requires Leads(o, s) && x in s.workers && At(s, x).Post? && At(s, x).f == f && f in s.fibers && s.fibers[f].READY?
    requires s.queue == [] && s.active == 0 && k !in s.slots
    ensures Leads(o, r) && Beside(s, r, x) && At(r, x).Scan? && r.queue == []
    ensures r.fibers.Keys == s.fibers.Keys && r.slots == s.slots[k := FiberWaiter(f)] && r.active == 0
  {
    var a := RunsAgain(o, s, x, f);
    var b := Parks(o, a, x, f, k);
    BesideBeside(s, a, b, x);
    var c := Holds(o, b, x, f);
    BesideBeside(s, b, c, x);
    r := WrapsUp(o, c, x, f);
    BesideBeside(s, c, r, x);
  }

  /** A fiber in the window runs again and ends. */
  lemma EndsAgain(o: State, s: State, x: int, f: nat) returns (r: State)
    requires Leads(o, s) && x in s.workers && At(s, x).Post? && At(s, x).f == f && f in s.fibers && s.fibers[f].READY?
    requires s.queue == [] && s.active == 0
    ensures Leads(o, r) && Beside(s, r, x) && At(r, x).Scan? && r.queue == []
    ensures r.fibers.Keys == s.fibers.Keys && r.slots == s.slots && r.active == 0
  {
    var a := RunsAgain(o, s, x, f);
    var b := Ends(o, a, x, f);
    BesideBeside(s, a, b, x);
    r := WrapsUp(o, b, x, f);
    BesideBeside(s, b, r, x);
  }

  /** Every idle fiber has ended, and the workers only have to put down what they hold. */
  predicate Winding(s: State) {
    && s.queue == [] && s.active == 0
    && forall w :: w in s.workers ==> WindingWorker(s.workers[w], s.fibers)
  }

  predicate WindingWorker(k: Worker, fibers: map<nat, FState>) {
    k.idleDone && (k.pc.Scan? || k.pc.Exited? || (k.pc.Post? && k.pc.f in fibers))
  }

  lemma WindingOn(s: State, r: State, x: int)
    requires Winding(s) && Beside(s, r, x) && (At(r, x).Scan? || At(r, x).Exited?)
    requires r.queue == [] && r.active == 0 && r.fibers.Keys == s.fibers.Keys
    ensures Winding(r)
  {
    forall w | w in r.workers
      ensures WindingWorker(r.workers[w], r.fibers)
    {
      assert WindingWorker(s.workers[w], s.fibers);
    }
  }

  /** How much the workers still have to do. */
  function Weight(k: Worker): (n: nat) {
    if k.pc.Exited? then 0 else if k.pc.Scan? then 1 else 2
  }

  function Heavy(s: State, n: nat): (ws: set<int>) {
    set w | w in s.workers && Weight(s.workers[w]) >= n
  }

  lemma Lighter(s: State, r: State, x: int, n: nat)
    requires Beside(s, r, x) && Weight(r.workers[x]) < n <= Weight(s.workers[x])
    ensures |Heavy(r, n)| < |Heavy(s, n)|
  {
    forall w
      ensures w in Heavy(r, n) <==> w in Heavy(s, n) - {x}
    {
      assert w in s.workers <==> w in r.workers;
    }
    assert Heavy(r, n) == Heavy(s, n) - {x} && x in Heavy(s, n);
  }

  lemma Settles(o: State, s: State, x: int) returns (r: State)
    requires Leads(o, s) && Winding(s) && x in s.workers && At(s, x).Post?
    ensures Leads(o, r) && Winding(r) && r.slots == s.slots && |Heavy(r, 2)| < |Heavy(s, 2)|
  {
    assert WindingWorker(s.workers[x], s.fibers);
    var f := At(s, x).f;
    if s.fibers[f].READY? {
      r := EndsAgain(o, s, x, f);
    } else {
      r := LetsGo(o, s, x, f);
    }
    WindingOn(s, r, x);
    Lighter(s, r, x, 2);
  }

  lemma GoesHome(o: State, s: State, x: int) returns (r: State)
    requires Leads(o, s) && Winding(s) && x in s.workers && At(s, x).Scan? && Heavy(s, 2) == {}
    ensures Leads(o, r) && Winding(r) && r.slots == s.slots && Heavy(r, 2) == {} && |Heavy(r, 1)| < |Heavy(s, 1)|
  {
    assert WindingWorker(s.workers[x], s.fibers);
    r := Leaves(o, s, x);
    WindingOn(s, r, x);
    Lighter(s, r, x, 1);
    assert forall w :: w in r.workers && Weight(r.workers[w]) >= 2 ==> w in Heavy(s, 2);
  }

  lemma NoneHeavy(s: State)
    requires Winding(s) && forall w :: w in s.workers ==> !At(s, w).Post?
    ensures Heavy(s, 2) == {}
  {
    forall w | w in s.workers
      ensures Weight(s.workers[w]) < 2
    {
      assert WindingWorker(s.workers[w], s.fibers);
      assert !At(s, w).Post?;
    }
  }

  /** From there all of them can leave, with every wait for an event still registered. */
  lemma {:induction false} WindsDown(o: State, s: State) returns (r: State)
    requires Leads(o, s) && Winding(s)
    ensures Leads(o, r) && r.slots == s.slots && forall w :: w in r.workers ==> r.workers[w].pc.Exited?
    decreases |Heavy(s, 2)|, |Heavy(s, 1)|
  {
    if x :| x in s.workers && At(s, x).Post? {
      var a := Settles(o, s, x);
      r := WindsDown(o, a);
    } else {
      NoneHeavy(s);
      if x :| x in s.workers && At(s, x).Scan? {
        var a := GoesHome(o, s, x);
        r := WindsDown(o, a);
      } else {
        r := s;
        assert forall w :: w in s.workers ==> WindingWorker(s.workers[w], s.fibers);
      }
    }
  }

  lemma OtherWinds(s: State, loc: Locs, w: int)
    requires InvAt(s, loc) && w in s.workers && s.workers[w].idleDone && !At(s, w).Idle? && !Busy(At(s, w))
    ensures WindingWorker(s.workers[w], s.fibers)
  {
    if At(s, w).Post? {
      HeldFact(s.workers, s.fibers, loc, w, At(s, w).f);
    }
  }

  lemma OthersWind(s: State, x: int)
    requires Inv(s) && NoneIdleAgain(s) && StopCheck(s)
    requires forall w :: w in s.workers && w != x ==> s.workers[w].idleDone
    ensures s.slots == map[] && forall w :: w in s.workers && w != x ==> WindingWorker(s.workers[w], s.fibers)
  {
    var loc :| InvAt(s, loc);
    NobodyBusy(s.workers);
    NoSlots(s.slots);
    forall w | w in s.workers && w != x
      ensures WindingWorker(s.workers[w], s.fibers)
    {
      OtherWinds(s, loc, w);
    }
  }

  /** After the last stop check the workers only have to put down what they hold. */
  lemma WindingAtLastStop(s: State, e: Step)
    requires Inv(s) && NoneIdleAgain(s) && Enabled(s, e) && LastStop(s, Apply(s, e))
    ensures Winding(Apply(s, e)) && s.slots == map[]
  {
    LastStopIsACheck(s, e);
    OthersWind(s, e.w);
  }

  /** At the last stop check the window is that of a READY fiber: nobody else is idle any more. */
  lemma WindowAtLastStop(s: State, e: Step, v: int)
    requires NoneIdleAgain(s) && Enabled(s, e) && LastStop(s, Apply(s, e)) && InWindow(s, v)
    ensures var r := Apply(s, e);
            && r.slots == s.slots && r.fibers == s.fibers && v in r.workers
            && At(r, v).Post? && At(r, v).f in r.fibers && r.fibers[At(r, v).f].READY?
  {
    LastStopIsACheck(s, e);
  }

  /** After a last stop check made inside a window, all workers can leave with a fiber parked for good. */
  lemma WindowCanStrand(s: State, e: Step, v: int) returns (t: State, f: nat)
    requires Inv(s) && NoneIdleAgain(s) && Enabled(s, e) && LastStop(s, Apply(s, e)) && InWindow(s, v)
    ensures Leads(Apply(s, e), t) && (forall w :: w in t.workers ==> t.workers[w].pc.Exited?)
    ensures TokenAt(t, Fib(f), AtSlot(Key(0, false)))
  {
    WindingAtLastStop(s, e);
    WindowAtLastStop(s, e, v);
    var o := Apply(s, e);
    LeadsNowhere(o);
    f := At(o, v).f;
    var a := ParksAgain(o, o, v, f, Key(0, false));
    WindingOn(o, a, v);
    t := WindsDown(o, a);
  }

  /** Work that nobody will do. */
  ghost predicate LeftBehind(s: State) {
    exists u, p :: TokenAt(s, u, p) && !p.AtHand?
  }

  lemma {:induction false} QuietOn(path: seq<State>, i: nat)
    requires IsPath(path) && i < |path| && Quiet(path[0])
    ensures Quiet(path[i])
  {
    if i > 0 {
      QuietOn(path, i - 1);
      QuietOne(path, i - 1);
    }
  }

  lemma QuietOne(path: seq<State>, i: nat)
    requires IsPath(path) && i < |path| - 1 && Quiet(path[i])
    ensures Quiet(path[i + 1])
  {
    assert Linked(path, i);
    var e :| Enabled(path[i], e) && path[i + 1] == Apply(path[i], e);
    QuietKeeps(path[i], e);
  }

  lemma QuietLeaves(o: State, t: State)
    requires Quiet(o) && Leads(o, t)
    ensures !LeftBehind(t)
  {
    var path: seq<State> :| IsPath(path) && path[0] == o && path[|path| - 1] == t;
    QuietOn(path, |path| - 1);
    if LeftBehind(t) {
      var u, p :| TokenAt(t, u, p) && !p.AtHand?;
      QuietTokens(t, u, p);
    }
  }

  /** At the last stop check no other window is possible. */
  lemma OnlyRequeueing(s: State, e: Step)
    requires NoneIdleAgain(s) && Enabled(s, e) && LastStop(s, Apply(s, e))
    ensures forall v :: InWindow(s, v) ==> Requeueing(s, v)
  {
    forall v | InWindow(s, v)
      ensures Requeueing(s, v)
    {
      WindowAtLastStop(s, e, v);
      LastStopIsACheck(s, e);
    }
  }

  lemma ReachableNoneIdleAgain(s: State)
    requires Reachable(s)
    ensures NoneIdleAgain(s)
  {
    var run :| IsRun(run) && run[|run| - 1] == s;
    NoneIdleAgainAlong(run, |run| - 1);
  }

  /** A worker that has counted a READY fiber out and not queued it again. */
  predicate Requeueing(s: State, v: int) {
    v in s.workers && At(s, v).Post? && At(s, v).f in s.fibers && s.fibers[At(s, v).f] == READY
  }

  /** The workers can leave work behind if and only if the last stop check is made while a worker has counted a
      READY fiber out and not queued it again. */
  lemma LastStopIsSafe(s: State, e: Step)
    requires Reachable(s) && Enabled(s, e) && LastStop(s, Apply(s, e))
    ensures (exists t :: Leads(Apply(s, e), t) && AllExited(t) && LeftBehind(t)) <==> exists v :: Requeueing(s, v)
  {
    ReachableInv(s);
    ReachableNoneIdleAgain(s);
    if v :| Requeueing(s, v) {
      var t, f := WindowCanStrand(s, e, v);
      StrandedAtEnd(Apply(s, e), t, f);
    } else {
      OnlyRequeueing(s, e);
      LastStopIsQuiet(s, e);
      forall t | Leads(Apply(s, e), t)
        ensures !LeftBehind(t)
      {
        QuietLeaves(Apply(s, e), t);
      }
    }
  }

  lemma StrandedAtEnd(o: State, t: State, f: nat)
    requires Leads(o, t) && AllDone(o) && (forall w :: w in t.workers ==> t.workers[w].pc.Exited?)
    requires TokenAt(t, Fib(f), AtSlot(Key(0, false)))
    ensures AllExited(t) && LeftBehind(t)
  {
    var path: seq<State> :| IsPath(path) && path[0] == o && path[|path| - 1] == t;
    SomebodyStays(path, |path| - 1);
  }

  lemma {:induction false} SomebodyStays(path: seq<State>, i: nat)
    requires IsPath(path) && i < |path| && exists w :: w in path[0].workers
    ensures exists w :: w in path[i].workers
  {
    if i > 0 {
      SomebodyStays(path, i - 1);
      assert Linked(path, i - 1);
      var e :| Enabled(path[i - 1], e) && path[i] == Apply(path[i - 1], e);
      Frames(path[i - 1], e);
      var w :| w in path[i - 1].workers;
      assert w in path[i].workers;
    }
  }
}
