/** What holds in every state any run of the runtime can reach. */
module RuntimeTheorems {
  import opened Runtime
  import opened RuntimeInvariant
  import opened RuntimeSteps

  /* ---------- the invariant over whole runs ---------- */

  lemma InitialInv(s: State)
    requires Initial(s)
    ensures Inv(s)
  {
    assert forall w :: w in s.workers ==> !Busy(s.workers[w].pc);
    var loc: Locs := map[];
    assert InvAt(s, loc);
  }

  lemma TakenInv(s: State, loc: Locs, w: int, i: nat)
    requires InvAt(s, loc) && w in s.workers && At(s, w).Scan? && FirstEligible(s.queue, s.fibers, w, i)
    ensures Inv(Taken(s, w, i))
  {
    var t := s.queue[i];
    if t.FiberTask? {
      TakeFiberKeeps(s, loc, w, i, t.f);
    } else if Carried(t.cb).Some? {
      TakeCallKeeps(s, loc, w, i, Carried(t.cb).value);
    } else {
      TakeCancelKeeps(s, loc, w, i);
    }
  }

  lemma CallbackEnteredInv(s: State, loc: Locs, w: int)
    requires InvAt(s, loc) && w in s.workers && At(s, w).Loaded?
    ensures Inv(CallbackEntered(s, w))
  {
    var cb := At(s, w).cb;
    if cb.User? {
      CallEnteredKeeps(s, loc, w, cb.c);
    } else {
      WakeEnteredKeeps(s, loc, w);
    }
  }

  lemma ConcludedInv(s: State, loc: Locs, w: int)
    requires InvAt(s, loc) && w in s.workers && At(s, w).Post? && At(s, w).f in s.fibers
    ensures Inv(Concluded(s, w))
  {
    var f, r := At(s, w).f, Concluded(s, w);
    HeldFact(s.workers, s.fibers, loc, w, f);
    if s.fibers[f].READY? {
      RequeuedKeeps(s, loc, w, f);
    } else if Ended(s.fibers[f]) && At(s, w).viaCallback {
      KeptSpareKeeps(s, loc, w, f);
    } else {
      LetGoKeeps(s, loc, w, f, r.fibers[f]);
    }
  }

  lemma TimerCancelledInv(s: State, loc: Locs, t: nat)
    requires InvAt(s, loc) && t in s.timers && !s.timers[t].Wake?
    ensures Inv(TimerCancelled(s, t))
  {
    var cb := s.timers[t];
    if cb.User? {
      CallTimerCancelledKeeps(s, loc, t, cb.c);
    } else {
      IoTimerCancelledKeeps(s, loc, t);
    }
  }

  lemma EventDeletedInv(s: State, loc: Locs, k: Key)
    requires InvAt(s, loc) && k in s.slots && s.pending > 0
    ensures Inv(EventDeleted(s, k))
  {
    var wt := s.slots[k];
    if wt.FiberWaiter? {
      FiberEventDeletedKeeps(s, loc, k, wt.f);
    } else {
      CallEventDeletedKeeps(s, loc, k, wt.c);
    }
  }

  lemma ExpiredInv(s: State, loc: Locs, w: int, t: nat)
    requires InvAt(s, loc) && IdleOf(s, w) && t in s.timers
    ensures Inv(Expired(s, w, t))
  {
    var u := Carried(s.timers[t]);
    if u.Some? {
      ExpiredKeeps(s, loc, w, t, u.value);
    } else {
      IoTimerExpiredKeeps(s, loc, w, t);
    }
  }

  /** A number not in a finite set. */
  lemma {:induction false} Unused(used: set<nat>) returns (t: nat)
    ensures forall x :: x in used ==> x < t
  {
    if used == {} {
      t := 0;
    } else {
      var x :| x in used;
      var u := Unused(used - {x});
      t := if x < u then u else x + 1;
      assert forall y :: y in used ==> y == x || y in used - {x};
    }
  }

  /** As if a timer of its own were set for the copy, and expired. */
  lemma RecurringExpiredKeeps(s: State, loc: Locs, w: int, c: nat)
    requires InvAt(s, loc) && IdleOf(s, w) && c !in s.calls
    ensures Inv(RecurringExpired(s, w, c))
  {
    var t := Unused(s.timers.Keys);
    CallTimerAddedKeeps(s, loc, t, c);
    ExpiredAgain(CallTimerAdded(s, t, c), w, t);
    RecurringIs(s, w, t, c);
  }

  lemma ExpiredAgain(s: State, w: int, t: nat)
    requires Inv(s) && IdleOf(s, w) && t in s.timers
    ensures Inv(Expired(s, w, t))
  {
    var loc :| InvAt(s, loc);
    ExpiredInv(s, loc, w, t);
  }

  lemma RecurringIs(s: State, w: int, t: nat, c: nat)
    requires IdleOf(s, w) && t !in s.timers
    ensures Expired(CallTimerAdded(s, t, c), w, t) == RecurringExpired(s, w, c)
  {
    assert CallTimerAdded(s, t, c).timers - {t} == s.timers;
  }

  lemma ExpiredPostedInv(s: State, loc: Locs, w: int)
    requires InvAt(s, loc) && IdleOf(s, w) && At(s, w).batch != []
    ensures Inv(ExpiredPosted(s, w))
  {
    var u := Carried(At(s, w).batch[0]);
    if u.Some? {
      ExpiredPostedKeeps(s, loc, w, u.value);
    } else {
      IoTimerPostedKeeps(s, loc, w);
    }
  }

  lemma SchedulerStepKeeps(s: State, loc: Locs, e: Step)
    requires InvAt(s, loc) && Enabled(s, e)
    requires e.Take? || e.ScanEmpty? || e.SwapIn? || e.LoadCallback? || e.SwapInCallback? || e.Decrement? || e.Conclude?
    ensures Inv(Apply(s, e))
  {
    match e
    case Take(w, i) => TakenInv(s, loc, w, i);
    case ScanEmpty(w) => WentIdleKeeps(s, loc, w);
    case SwapIn(w) => SwappedInKeeps(s, loc, w);
    case LoadCallback(w, g) => CallbackLoadedKeeps(s, loc, w, g);
    case SwapInCallback(w) => CallbackEnteredInv(s, loc, w);
    case Decrement(w) => DecrementedKeeps(s, loc, w);
    case Conclude(w) => ConcludedInv(s, loc, w);
  }

  lemma ParkStepKeeps(s: State, loc: Locs, e: Step)
    requires InvAt(s, loc) && Enabled(s, e) && (e.DoWake? || e.ParkOnEvent? || e.ParkOnTimer? || e.ParkInHand?)
    ensures Inv(Apply(s, e))
  {
    var f := At(s, e.w).f;
    match e
    case DoWake(w) =>
      var g := At(s, w).duty.value;
      WakePerformedKeeps(s, loc, w, g);
    case ParkOnEvent(w, k) => ParkedOnEventKeeps(s, loc, w, k, f);
    case ParkOnTimer(w, t) => ParkedOnTimerKeeps(s, loc, w, t, f);
    case ParkInHand(w) => ParkedInHandKeeps(s, loc, w, f);
  }

  lemma YieldStepKeeps(s: State, loc: Locs, e: Step)
    requires InvAt(s, loc) && Enabled(s, e) && (e.YieldToHold? || e.YieldToReady? || e.Finish?)
    ensures Inv(Apply(s, e))
  {
    var w := e.w;
    var st := if e.YieldToHold? then EXEC else if e.YieldToReady? then READY else if e.ok then TERM else EXCEPT;
    HeldFact(s.workers, s.fibers, loc, w, At(s, w).f);
    YieldedKeeps(s, loc, w, st);
  }

  lemma SettledKeeps(s: State, loc: Locs)
    requires InvAt(s, loc) && s.owed > 0 && s.pending > 0
    ensures Inv(s.(owed := s.owed - 1, pending := s.pending - 1))
  {
    assert InvAt(s.(owed := s.owed - 1, pending := s.pending - 1), loc);
  }

  lemma StopRequestedKeeps(s: State, loc: Locs)
    requires InvAt(s, loc)
    ensures Inv(s.(stopping := true))
  {
    assert InvAt(s.(stopping := true), loc);
  }

  lemma PostStepKeeps(s: State, loc: Locs, e: Step)
    requires InvAt(s, loc) && Enabled(s, e) && (e.HandIn? || e.PostCall?)
    ensures Inv(Apply(s, e))
  {
    match e
    case HandIn(_, g, pin) => HandedInKeeps(s, loc, g, pin);
    case PostCall(_, c, pin) => CallPostedKeeps(s, loc, c, pin);
  }

  lemma SharedStepKeeps(s: State, loc: Locs, e: Step)
    requires InvAt(s, loc) && Enabled(s, e) && (e.NewFiber? || e.SettlePending? || e.RequestStop?)
    ensures Inv(Apply(s, e))
  {
    match e
    case NewFiber(g) => NewFiberKeeps(s, loc, g);
    case SettlePending => SettledKeeps(s, loc);
    case RequestStop => StopRequestedKeeps(s, loc);
  }

  lemma AddStepKeeps(s: State, loc: Locs, e: Step)
    requires InvAt(s, loc) && Enabled(s, e) && (e.AddCallEvent? || e.AddCallTimer? || e.AddIoTimer?)
    ensures Inv(Apply(s, e))
  {
    match e
    case AddCallEvent(_, k, c) => CallEventAddedKeeps(s, loc, k, c);
    case AddCallTimer(_, t, c) => CallTimerAddedKeeps(s, loc, t, c);
    case AddIoTimer(_, t, k) => IoTimerAddedKeeps(s, loc, t, k);
  }

  lemma EventStepKeeps(s: State, loc: Locs, e: Step)
    requires InvAt(s, loc) && Enabled(s, e) && (e.CancelTimer? || e.Trigger? || e.DelEvent?)
    ensures Inv(Apply(s, e))
  {
    match e
    case CancelTimer(_, t) => TimerCancelledInv(s, loc, t);
    case Trigger(_, k) =>
      var u := WaiterWork(s.slots[k]);
      TriggeredKeeps(s, loc, k, u);
    case DelEvent(_, k) => EventDeletedInv(s, loc, k);
  }

  lemma IdleStepKeeps(s: State, loc: Locs, e: Step)
    requires InvAt(s, loc) && Enabled(s, e)
    requires e.Expire? || e.ExpireRecurring? || e.PostExpired? || e.IdleStop? || e.IdleYield?
    ensures Inv(Apply(s, e))
  {
    match e
    case Expire(w, t) => ExpiredInv(s, loc, w, t);
    case ExpireRecurring(w, _, c) => RecurringExpiredKeeps(s, loc, w, c);
    case PostExpired(w) => ExpiredPostedInv(s, loc, w);
    case IdleStop(w) => IdleLeftKeeps(s, loc, w, true);
    case IdleYield(w) => IdleLeftKeeps(s, loc, w, s.workers[w].idleDone);
  }

  lemma StepKeeps(s: State, e: Step)
    requires Inv(s) && Enabled(s, e)
    ensures Inv(Apply(s, e))
  {
    var loc :| InvAt(s, loc);
    if e.Take? || e.ScanEmpty? || e.SwapIn? || e.LoadCallback? || e.SwapInCallback? || e.Decrement? || e.Conclude? {
      SchedulerStepKeeps(s, loc, e);
    } else if e.DoWake? || e.ParkOnEvent? || e.ParkOnTimer? || e.ParkInHand? {
      ParkStepKeeps(s, loc, e);
    } else if e.YieldToHold? || e.YieldToReady? || e.Finish? {
      YieldStepKeeps(s, loc, e);
    } else if e.AddCallEvent? || e.AddCallTimer? || e.AddIoTimer? {
      AddStepKeeps(s, loc, e);
    } else if e.CancelTimer? || e.Trigger? || e.DelEvent? {
      EventStepKeeps(s, loc, e);
    } else if e.Expire? || e.ExpireRecurring? || e.PostExpired? || e.IdleStop? || e.IdleYield? {
      IdleStepKeeps(s, loc, e);
    } else if e.HandIn? || e.PostCall? {
      PostStepKeeps(s, loc, e);
    } else {
      SharedStepKeeps(s, loc, e);
    }
  }

  /** The step a run takes at i. */
  lemma StepAt(run: seq<State>, i: nat) returns (e: Step)
    requires IsRun(run) && i < |run| - 1
    ensures Enabled(run[i], e) && run[i + 1] == Apply(run[i], e)
  {
    assert Linked(run, i);
    e :| Enabled(run[i], e) && run[i + 1] == Apply(run[i], e);
  }

  lemma NextKeeps(run: seq<State>, i: nat)
    requires IsRun(run) && 0 < i < |run| && Inv(run[i - 1])
    ensures Inv(run[i])
  {
    assert Linked(run, i - 1);
    var e :| Enabled(run[i - 1], e) && run[i] == Apply(run[i - 1], e);
    StepKeeps(run[i - 1], e);
  }

  lemma {:induction false} RunKeeps(run: seq<State>, i: nat)
    requires IsRun(run) && i < |run|
    ensures Inv(run[i])
  {
    if i == 0 {
      InitialInv(run[0]);
    } else {
      RunKeeps(run, i - 1);
      NextKeeps(run, i);
    }
  }
}
