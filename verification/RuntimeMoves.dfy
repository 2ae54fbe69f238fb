/** How fibers and workers go from state to state, and what no step but a few can change. */
module RuntimeMoves {
  import opened Wrappers
  import opened Runtime
  import opened RuntimeFrames
  import opened RuntimeInvariant
  import opened RuntimeTheorems
  import opened RuntimeSafety

  /* ---------- fibers ---------- */

  /** The states of a fiber: switched to from INIT, HOLD or READY; left in EXEC by the yield, which the worker turns
      into HOLD; READY, TERM or EXCEPT by its own doing; and a finished callback fiber is reset. */
  predicate Turns(st: FState, st': FState) {
    match st
    case INIT => st'.EXEC?
    case HOLD => st'.EXEC?
    case READY => st'.EXEC?
    case EXEC => st'.HOLD? || st'.READY? || st'.TERM? || st'.EXCEPT?
    case TERM => st'.INIT?
    case EXCEPT => st'.INIT?
  }

  ghost predicate FiberGoes(fs: map<nat, FState>, gs: map<nat, FState>, f: nat) {
    f in fs ==> f in gs && (gs[f] == fs[f] || Turns(fs[f], gs[f]))
  }

  lemma SwapFiber(s: State, loc: Locs, e: Step, f: nat)
    requires InvAt(s, loc) && Enabled(s, e) && (e.SwapIn? || e.SwapInCallback?)
    ensures FiberGoes(s.fibers, Apply(s, e).fibers, f)
  {
    HeldFact(s.workers, s.fibers, loc, e.w, if e.SwapIn? then At(s, e.w).task.f else At(s, e.w).f);
  }

  lemma LoadFiber(s: State, loc: Locs, e: Step, f: nat)
    requires InvAt(s, loc) && Enabled(s, e) && e.LoadCallback?
    ensures FiberGoes(s.fibers, Apply(s, e).fibers, f)
  {
    if s.workers[e.w].spare.Some? {
      SpareFact(s.workers, s.fibers, s.calls, loc, e.w, e.g);
    }
    LoadedFiber(s, e, f);
  }

  lemma LoadedFiber(s: State, e: Step, f: nat)
    requires Enabled(s, e) && e.LoadCallback? && (e.g in s.fibers ==> s.fibers[e.g] == INIT)
    ensures FiberGoes(s.fibers, Apply(s, e).fibers, f)
  {
  }

  lemma YieldFiber(s: State, loc: Locs, e: Step, f: nat)
    requires InvAt(s, loc) && Enabled(s, e) && (e.YieldToHold? || e.YieldToReady? || e.Finish?)
    ensures FiberGoes(s.fibers, Apply(s, e).fibers, f)
  {
    HeldFact(s.workers, s.fibers, loc, e.w, At(s, e.w).f);
  }

  lemma ConcludeFiber(s: State, loc: Locs, e: Step, f: nat)
    requires InvAt(s, loc) && Enabled(s, e) && e.Conclude?
    ensures FiberGoes(s.fibers, Apply(s, e).fibers, f)
  {
    HeldFact(s.workers, s.fibers, loc, e.w, At(s, e.w).f);
    ConcludedIs(s, e.w, Concluded(s, e.w));
  }

  /** What the worker makes of a fiber that is back: a READY one goes back into the list, for any thread; one that
      waits is HOLD; a finished callback fiber is kept, reset, and any other finished one is left as it is. */
  ghost predicate Disposed(s: State, w: int, f: nat, viaCallback: bool, r: State)
    requires f in s.fibers && w in s.workers
  {
    var st := s.fibers[f];
    && f in r.fibers && w in r.workers && At(r, w).Scan? && r.fibers == s.fibers[f := r.fibers[f]]
    && r.queue == (if st.READY? then s.queue + [FiberTask(f, -1)] else s.queue)
    && (st.READY? ==> r.fibers[f] == READY)
    && (!st.READY? && !Ended(st) ==> r.fibers[f] == HOLD)
    && (Ended(st) ==> if viaCallback then r.fibers[f] == INIT && r.workers[w].spare == Some(f)
                      else r.fibers[f] == st && r.workers[w].spare == s.workers[w].spare)
  }

  lemma ConcludedIs(s: State, w: int, r: State)
    requires w in s.workers && At(s, w).Post? && At(s, w).f in s.fibers && r == Concluded(s, w)
    ensures Disposed(s, w, At(s, w).f, At(s, w).viaCallback, r)
  {
  }

  lemma OtherFiber(s: State, e: Step, f: nat)
    requires Enabled(s, e) && !e.SwapIn? && !e.SwapInCallback? && !e.LoadCallback?
    requires !e.YieldToHold? && !e.YieldToReady? && !e.Finish? && !e.Conclude?
    ensures FiberGoes(s.fibers, Apply(s, e).fibers, f)
  {
  }

  lemma FiberStep(s: State, loc: Locs, e: Step, f: nat)
    requires InvAt(s, loc) && Enabled(s, e)
    ensures FiberGoes(s.fibers, Apply(s, e).fibers, f)
  {
    if e.SwapIn? || e.SwapInCallback? {
      SwapFiber(s, loc, e, f);
    } else if e.LoadCallback? {
      LoadFiber(s, loc, e, f);
    } else if e.YieldToHold? || e.YieldToReady? || e.Finish? {
      YieldFiber(s, loc, e, f);
    } else if e.Conclude? {
      ConcludeFiber(s, loc, e, f);
    } else {
      OtherFiber(s, e, f);
    }
  }

  /** In every run every fiber turns from state to state like this. */
  lemma FiberTurns(run: seq<State>, i: nat, f: nat)
    requires IsRun(run) && i < |run| - 1
    ensures FiberGoes(run[i].fibers, run[i + 1].fibers, f)
  {
    RunKeeps(run, i);
    var loc :| InvAt(run[i], loc);
    var e := StepAt(run, i);
    FiberStep(run[i], loc, e, f);
  }

  /** What a fiber is when it has given up the thread: READY or not as it asked for, and TERM if it ran to its end,
      EXCEPT if it threw. */
  lemma YieldIs(s: State, e: Step)
    requires Enabled(s, e) && (e.YieldToHold? || e.YieldToReady? || e.Finish?)
    ensures var f, r := At(s, e.w).f, Apply(s, e);
            && f in r.fibers && At(r, e.w) == After(f, At(s, e.w).viaCallback)
            && (e.YieldToHold? ==> r.fibers[f] == EXEC) && (e.YieldToReady? ==> r.fibers[f] == READY)
            && (e.Finish? ==> r.fibers[f] == if e.ok then TERM else EXCEPT)
  {
  }

  lemma ConcludeIs(s: State, w: int)
    requires Enabled(s, Conclude(w))
    ensures Disposed(s, w, At(s, w).f, At(s, w).viaCallback, Apply(s, Conclude(w)))
  {
    ConcludedIs(s, w, Concluded(s, w));
  }

  /* ---------- workers ---------- */

  /** The places a worker goes to from each place. */
  ghost predicate Walks(pc: Pc, pc': Pc) {
    match pc
    case Scan => pc'.Got? || pc' == Idle([]) || pc'.Exited?
    case Got(t) => if t.FiberTask? then pc' == Run(t.f, false, None, false) else pc'.Loaded? && pc'.cb == t.cb
    case Loaded(f, cb) => pc' == Run(f, false, if cb.Wake? then Some(cb.f) else None, true)
    case Run(f, parked, duty, via) =>
      || (duty.Some? && pc' == Run(f, parked, None, via))
      || (duty.None? && !parked && pc' == Run(f, true, None, via))
      || ((parked || duty.None?) && pc' == After(f, via))
    case After(f, via) => pc' == Post(f, via)
    case Post(_, _) => pc'.Scan?
    case Idle(b) =>
      || (pc'.Idle? && |pc'.batch| == |b| + 1 && b <= pc'.batch)
      || (b != [] && pc' == Idle(b[1..]))
      || (b == [] && pc'.Scan?)
    case Exited => false
  }

  lemma WalkScan(s: State, e: Step)
    requires Enabled(s, e) && (e.Take? || e.ScanEmpty? || e.SwapIn? || e.LoadCallback? || e.SwapInCallback?)
    ensures e.w in Apply(s, e).workers && Walks(At(s, e.w), At(Apply(s, e), e.w))
  {
  }

  lemma WalkBack(s: State, e: Step)
    requires Enabled(s, e) && (e.Decrement? || e.Conclude?)
    ensures e.w in Apply(s, e).workers && Walks(At(s, e.w), At(Apply(s, e), e.w))
  {
    if e.Conclude? {
      ConcludedIs(s, e.w, Concluded(s, e.w));
    }
  }

  lemma WalkRun(s: State, e: Step)
    requires Enabled(s, e) && (e.DoWake? || e.ParkOnEvent? || e.ParkOnTimer? || e.ParkInHand?)
    ensures e.w in Apply(s, e).workers && Walks(At(s, e.w), At(Apply(s, e), e.w))
  {
  }

  lemma WalkYield(s: State, e: Step)
    requires Enabled(s, e) && (e.YieldToHold? || e.YieldToReady? || e.Finish?)
    ensures e.w in Apply(s, e).workers && Walks(At(s, e.w), At(Apply(s, e), e.w))
  {
  }

  lemma WalkIdle(s: State, e: Step)
    requires Enabled(s, e)
    requires e.Expire? || e.ExpireRecurring? || e.PostExpired? || e.IdleStop? || e.IdleYield?
    ensures e.w in Apply(s, e).workers && Walks(At(s, e.w), At(Apply(s, e), e.w))
  {
  }

  /** Every step of a worker takes it from its place to one of these, and never leaves it where it was. */
  lemma WorkerWalks(s: State, e: Step)
    requires Enabled(s, e) && Mover(e).Some?
    ensures var w := Mover(e).value;
            && w in s.workers && w in Apply(s, e).workers
            && Walks(At(s, w), At(Apply(s, e), w)) && At(Apply(s, e), w) != At(s, w)
  {
    if e.Take? || e.ScanEmpty? || e.SwapIn? || e.LoadCallback? || e.SwapInCallback? {
      WalkScan(s, e);
    } else if e.Decrement? || e.Conclude? {
      WalkBack(s, e);
    } else if e.DoWake? || e.ParkOnEvent? || e.ParkOnTimer? || e.ParkInHand? {
      WalkRun(s, e);
    } else if e.YieldToHold? || e.YieldToReady? || e.Finish? {
      WalkYield(s, e);
    } else {
      WalkIdle(s, e);
    }
  }

  /* ---------- timers and slots ---------- */

  lemma ConcludedElse(s: State, w: int, r: State)
    requires w in s.workers && At(s, w).Post? && At(s, w).f in s.fibers && r == Concluded(s, w)
    ensures r.timers == s.timers && r.slots == s.slots && r.hand == s.hand && r.lost == s.lost
  {
  }

  lemma TimersStay(s: State, e: Step)
    requires Enabled(s, e) && !(e.ParkOnTimer? || e.AddCallTimer? || e.AddIoTimer? || e.CancelTimer? || e.Expire?)
    ensures Apply(s, e).timers == s.timers
  {
    if e.Conclude? {
      ConcludedElse(s, e.w, Concluded(s, e.w));
    }
  }

  lemma SlotsStay(s: State, e: Step)
    requires Enabled(s, e) && !(e.ParkOnEvent? || e.AddCallEvent? || e.Trigger? || e.DelEvent?)
    ensures Apply(s, e).slots == s.slots
  {
    if e.Conclude? {
      ConcludedElse(s, e.w, Concluded(s, e.w));
    }
  }

  /** The steps that set, take out or leave the timers, and how. */
  lemma TimersStep(s: State, e: Step)
    requires Enabled(s, e)
    ensures var r := Apply(s, e);
            match e
            case ParkOnTimer(w, t) => r.timers == s.timers[t := Wake(At(s, w).f)]
            case AddCallTimer(_, t, c) => r.timers == s.timers[t := User(c)]
            case AddIoTimer(_, t, k) => r.timers == s.timers[t := CancelIo(k)]
            case CancelTimer(_, t) => r.timers == s.timers - {t}
            case Expire(_, t) => r.timers == s.timers - {t}
            case _ => r.timers == s.timers
  {
    if !(e.ParkOnTimer? || e.AddCallTimer? || e.AddIoTimer? || e.CancelTimer? || e.Expire?) {
      TimersStay(s, e);
    }
  }

  /** The steps that fill, empty or leave the slots, and how. */
  lemma SlotsStep(s: State, e: Step)
    requires Enabled(s, e)
    ensures var r := Apply(s, e);
            match e
            case ParkOnEvent(w, k) => r.slots == s.slots[k := FiberWaiter(At(s, w).f)]
            case AddCallEvent(_, k, c) => r.slots == s.slots[k := CallWaiter(c)]
            case Trigger(_, k) => r.slots == s.slots - {k}
            case DelEvent(_, k) => r.slots == s.slots - {k}
            case _ => r.slots == s.slots
  {
    if !(e.ParkOnEvent? || e.AddCallEvent? || e.Trigger? || e.DelEvent?) {
      SlotsStay(s, e);
    }
  }

  lemma HandsStay(s: State, e: Step)
    requires Enabled(s, e) && !(e.NewFiber? || e.ParkInHand? || e.HandIn? || e.DelEvent?)
    ensures Apply(s, e).hand == s.hand && Apply(s, e).lost == s.lost
  {
    if e.Conclude? {
      ConcludedElse(s, e.w, Concluded(s, e.w));
    }
  }

  /** The steps that give a fiber to user code or take it, the one that drops it for good, and that no other does. */
  lemma HandsStep(s: State, e: Step)
    requires Enabled(s, e)
    ensures var r := Apply(s, e);
            match e
            case NewFiber(g) => r.hand == s.hand + {g} && r.lost == s.lost
            case ParkInHand(w) => r.hand == s.hand + {At(s, w).f} && r.lost == s.lost
            case HandIn(_, g, _) => r.hand == s.hand - {g} && r.lost == s.lost
            case DelEvent(_, k) =>
              r.hand == s.hand && r.lost == if s.slots[k].FiberWaiter? then s.lost + {s.slots[k].f} else s.lost
            case _ => r.hand == s.hand && r.lost == s.lost
  {
    if !(e.NewFiber? || e.ParkInHand? || e.HandIn? || e.DelEvent?) {
      HandsStay(s, e);
    }
  }

  /** Expired callbacks go into the list in the order in which they expired: one joins the end of the batch, or the
      first one leaves it for the end of the list. */
  lemma BatchInOrder(s: State, e: Step, w: int)
    requires Enabled(s, e) && IdleOf(s, w) && w in Apply(s, e).workers && At(Apply(s, e), w).Idle?
    ensures var b, b', r := At(s, w).batch, At(Apply(s, e), w).batch, Apply(s, e);
            || b' == b
            || (e.Expire? && e.t in s.timers && b' == b + [s.timers[e.t]])
            || (e.ExpireRecurring? && b' == b + [User(e.c)])
            || (e.PostExpired? && b != [] && b' == b[1..] && r.queue == s.queue + [CallTask(b[0], -1)])
  {
    Frames(s, e);
  }
}
