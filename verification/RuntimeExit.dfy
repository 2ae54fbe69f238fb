/** When the workers leave work behind: exactly if the last successful stop check was made while a READY fiber
    was about to be queued. */
module RuntimeExit {
  import opened Wrappers
  import opened Runtime
  import opened RuntimeFrames
  import opened RuntimeInvariant
  import opened RuntimeTheorems
  import opened RuntimeSafety
  import opened RuntimeStop

  /** Every worker's idle fiber has ended. */
  predicate AllDone(s: State) {
    (exists w :: w in s.workers) && forall w :: w in s.workers ==> s.workers[w].idleDone
  }

  /** From s to r the last idle fiber ends. */
  predicate LastStop(s: State, r: State) {
    !AllDone(s) && AllDone(r)
  }

  /** A worker that has nothing in its hands that will go back into the list. */
  predicate QuietWorker(k: Worker, fibers: map<nat, FState>) {
    && k.idleDone
    && (k.pc.Scan? || k.pc.Exited? || (k.pc.Post? && k.pc.f in fibers && !fibers[k.pc.f].READY?))
  }

  /** Nothing is queued, registered or timed, and no worker will change that. */
  predicate Quiet(s: State) {
    && s.stopping && s.queue == [] && s.slots == map[] && s.timers == map[] && s.owed == 0
    && forall w :: w in s.workers ==> QuietWorker(s.workers[w], s.fibers)
  }

  lemma QuietSteps(s: State, e: Step)
    requires Quiet(s) && Enabled(s, e)
    ensures e.ScanEmpty? || e.Conclude? || e.NewFiber? || e.RequestStop?
  {
    assert forall w :: !BodyOf(s, w) && !IdleOf(s, w);
    assert forall a :: !MayAct(s, a) && !MayTrigger(s, a);
  }

  lemma QuietConclude(s: State, w: int)
    requires Quiet(s) && Enabled(s, Conclude(w))
    ensures Quiet(Concluded(s, w))
  {
    assert QuietWorker(s.workers[w], s.fibers);
  }

  lemma QuietKeeps(s: State, e: Step)
    requires Quiet(s) && Enabled(s, e)
    ensures Quiet(Apply(s, e))
  {
    QuietSteps(s, e);
    match e
    case ScanEmpty(w) => assert QuietWorker(s.workers[w], s.fibers);
    case Conclude(w) => QuietConclude(s, w);
    case NewFiber(_) =>
    case RequestStop =>
    case _ =>
  }

  /** A worker whose idle fiber has ended does not go idle again. */
  predicate NoneIdleAgain(s: State) {
    forall w :: w in s.workers && s.workers[w].idleDone ==> !s.workers[w].pc.Idle?
  }

  lemma NoneIdleAgainKeeps(s: State, e: Step)
    requires NoneIdleAgain(s) && Enabled(s, e)
    ensures NoneIdleAgain(Apply(s, e))
  {
    Frames(s, e);
  }

  lemma {:induction false} NoneIdleAgainAlong(run: seq<State>, i: nat)
    requires IsRun(run) && i < |run|
    ensures NoneIdleAgain(run[i])
  {
    if i > 0 {
      NoneIdleAgainAlong(run, i - 1);
      var e := StepAt(run, i - 1);
      NoneIdleAgainKeeps(run[i - 1], e);
    }
  }

  /** The last idle fiber ends by a successful stop check. */
  lemma LastStopIsACheck(s: State, e: Step)
    requires Enabled(s, e) && LastStop(s, Apply(s, e))
    ensures e.IdleStop? && StopCheck(s)
    ensures forall v :: v in s.workers && v != e.w ==> s.workers[v].idleDone
  {
    Frames(s, e);
    DoneByOne(s.workers, Apply(s, e).workers, Mover(e));
  }

  lemma DoneByOne(ws: map<int, Worker>, ws': map<int, Worker>, m: Option<int>)
    requires if m.None? then ws' == ws else m.value in ws && m.value in ws' && ws' == ws[m.value := ws'[m.value]]
    requires forall w :: w in ws' ==> ws'[w].idleDone
    ensures m.None? ==> forall w :: w in ws ==> ws[w].idleDone
    ensures m.Some? ==> forall v :: v in ws && v != m.value ==> ws[v].idleDone
  {
    if m.Some? {
      forall v | v in ws && v != m.value
        ensures ws[v].idleDone
      {
        assert v in ws' && ws'[v] == ws[v];
      }
    }
  }

  /** A worker not busy, not idle and not in a window. */
  lemma OtherIsQuiet(s: State, loc: Locs, v: int)
    requires InvAt(s, loc) && v in s.workers && s.workers[v].idleDone && !s.workers[v].pc.Idle?
    requires !Busy(s.workers[v].pc) && !InWindow(s, v)
    ensures QuietWorker(s.workers[v], s.fibers)
  {
    if At(s, v).Post? {
      HeldFact(s.workers, s.fibers, loc, v, At(s, v).f);
    }
  }

  /** With no worker in a window at the last stop check, all is quiet from then on. */
  lemma LastStopIsQuiet(s: State, e: Step)
    requires Inv(s) && NoneIdleAgain(s) && Enabled(s, e) && LastStop(s, Apply(s, e))
    requires forall v :: !InWindow(s, v)
    ensures Quiet(Apply(s, e))
  {
    LastStopIsACheck(s, e);
    var loc :| InvAt(s, loc);
    var r := Apply(s, e);
    NobodyBusy(s.workers);
    NoSlots(s.slots);
    forall v | v in r.workers
      ensures QuietWorker(r.workers[v], r.fibers)
    {
      if v != e.w {
        OtherIsQuiet(s, loc, v);
      }
    }
  }

  lemma QuietAfter(run: seq<State>, i: nat)
    requires IsRun(run) && i < |run| - 1 && LastStop(run[i], run[i + 1]) && forall v :: !InWindow(run[i], v)
    ensures Quiet(run[i + 1])
  {
    RunKeeps(run, i);
    NoneIdleAgainAlong(run, i);
    var e := StepAt(run, i);
    LastStopIsQuiet(run[i], e);
  }

  lemma QuietNext(run: seq<State>, j: nat)
    requires IsRun(run) && j < |run| - 1 && Quiet(run[j])
    ensures Quiet(run[j + 1])
  {
    var e := StepAt(run, j);
    QuietKeeps(run[j], e);
  }

  lemma {:induction false} QuietAlong(run: seq<State>, i: nat, j: nat)
    requires IsRun(run) && i <= j < |run| && Quiet(run[i])
    ensures Quiet(run[j])
  {
    if i < j {
      QuietAlong(run, i, j - 1);
      QuietNext(run, j - 1);
    }
  }

  /** In a quiet state the only wake-ups are in the hands of user code. */
  lemma QuietTokens(s: State, u: Work, p: Place)
    requires Quiet(s) && TokenAt(s, u, p)
    ensures p.AtHand?
  {
    assert p.AtJob? || p.AtBatch? ==> QuietWorker(s.workers[p.w], s.fibers);
  }

  /** A run in which all idle fibers end has a last stop. */
  lemma {:induction false} LastStopExists(run: seq<State>, j: nat) returns (i: nat)
    requires IsRun(run) && j < |run| && AllDone(run[j])
    ensures i < j && LastStop(run[i], run[i + 1])
  {
    assert j > 0 by {
      assert !AllDone(run[0]);
    }
    i := j - 1;
    if AllDone(run[i]) {
      i := LastStopExists(run, i);
    }
  }

  lemma ExitedIsDone(s: State)
    requires Inv(s) && AllExited(s)
    ensures AllDone(s)
  {
    var loc :| InvAt(s, loc);
    var w :| w in s.workers;
  }

  lemma AllDoneAtEnd(run: seq<State>)
    requires IsRun(run) && AllExited(run[|run| - 1])
    ensures AllDone(run[|run| - 1])
  {
    RunKeeps(run, |run| - 1);
    ExitedIsDone(run[|run| - 1]);
  }

  /** A last stop check made with no worker in a window leaves nothing behind: at every later moment the only
      wake-ups are in the hands of user code. */
  lemma NothingLeftBehind(run: seq<State>, i: nat, j: nat, u: Work, p: Place)
    requires IsRun(run) && i < j < |run| && LastStop(run[i], run[i + 1]) && forall v :: !InWindow(run[i], v)
    requires TokenAt(run[j], u, p)
    ensures p.AtHand?
  {
    QuietAfter(run, i);
    QuietAlong(run, i + 1, j);
    QuietTokens(run[j], u, p);
  }

  /** If the workers leave work behind, the last stop check was made with a worker in a window. */
  lemma StrandedMeansWindow(run: seq<State>, u: Work, p: Place) returns (i: nat, w: int)
    requires IsRun(run) && AllExited(run[|run| - 1]) && TokenAt(run[|run| - 1], u, p) && !p.AtHand?
    ensures i < |run| - 1 && LastStop(run[i], run[i + 1]) && InWindow(run[i], w)
  {
    AllDoneAtEnd(run);
    i := LastStopExists(run, |run| - 1);
    w := WindowAt(run, i, u, p);
  }

  lemma WindowAt(run: seq<State>, i: nat, u: Work, p: Place) returns (w: int)
    requires IsRun(run) && i < |run| - 1 && LastStop(run[i], run[i + 1])
    requires TokenAt(run[|run| - 1], u, p) && !p.AtHand?
    ensures InWindow(run[i], w)
  {
    if w' :| InWindow(run[i], w') {
      w := w';
    } else {
      NothingLeftBehind(run, i, |run| - 1, u, p);
    }
  }
}
