/** What a step leaves alone: all workers but one, and the order of the list. */
module RuntimeFrames {
  import opened Wrappers
  import opened Runtime

  /** The worker whose program counter a step moves. */
  function Mover(e: Step): (w: Option<int>) {
    match e
    case Take(w, _) => Some(w)
    case ScanEmpty(w) => Some(w)
    case SwapIn(w) => Some(w)
    case LoadCallback(w, _) => Some(w)
    case SwapInCallback(w) => Some(w)
    case Decrement(w) => Some(w)
    case Conclude(w) => Some(w)
    case DoWake(w) => Some(w)
    case ParkOnEvent(w, _) => Some(w)
    case ParkOnTimer(w, _) => Some(w)
    case ParkInHand(w) => Some(w)
    case YieldToHold(w) => Some(w)
    case YieldToReady(w) => Some(w)
    case Finish(w, _) => Some(w)
    case Expire(w, _) => Some(w)
    case ExpireRecurring(w, _, _) => Some(w)
    case PostExpired(w) => Some(w)
    case IdleStop(w) => Some(w)
    case IdleYield(w) => Some(w)
    case _ => None
  }

  /** How a worker may go from x to y in step e: only an empty scan ends its loop or lets it go idle, and only a
      successful stop check ends its idle fiber. */
  predicate WorkerStep(x: Worker, y: Worker, e: Step) {
    && (y.pc.Exited? ==> e.ScanEmpty? && x.idleDone)
    && y.idleDone == (x.idleDone || e.IdleStop?)
    && (y.pc.Idle? ==> !x.idleDone || x.pc.Idle?)
    && (e.IdleStop? ==> y.pc.Scan?)
  }

  /** At most the mover's worker changes, and that as WorkerStep says. */
  predicate WorkersStep(s: State, r: State, e: Step) {
    match Mover(e)
    case None => r.workers == s.workers
    case Some(w) => w in s.workers && w in r.workers && r.workers == s.workers[w := r.workers[w]]
                    && WorkerStep(s.workers[w], r.workers[w], e)
  }

  /** Nothing but the entry a Take names leaves the list, and entries are added at its end. */
  predicate QueueStep(s: State, r: State, e: Step) {
    if e.Take? then e.i < |s.queue| && r.queue == s.queue[..e.i] + s.queue[e.i + 1..]
    else s.queue <= r.queue
  }

  lemma TakeFrames(s: State, e: Step)
    requires Enabled(s, e) && (e.Take? || e.ScanEmpty? || e.SwapIn?)
    ensures WorkersStep(s, Apply(s, e), e) && QueueStep(s, Apply(s, e), e)
  {
    match e
    case Take(w, i) =>
    case ScanEmpty(w) =>
    case SwapIn(w) =>
  }

  lemma CallbackFrames(s: State, e: Step)
    requires Enabled(s, e) && (e.LoadCallback? || e.SwapInCallback?)
    ensures WorkersStep(s, Apply(s, e), e) && QueueStep(s, Apply(s, e), e)
  {
    match e
    case LoadCallback(w, g) =>
    case SwapInCallback(w) =>
  }

  lemma DecrementFrames(s: State, e: Step)
    requires Enabled(s, e) && e.Decrement?
    ensures WorkersStep(s, Apply(s, e), e) && QueueStep(s, Apply(s, e), e)
  {
  }

  lemma ConcludeFrames(s: State, e: Step)
    requires Enabled(s, e) && e.Conclude?
    ensures WorkersStep(s, Apply(s, e), e) && QueueStep(s, Apply(s, e), e)
  {
    var f := At(s, e.w).f;
    if s.fibers[f].READY? {
      assert Apply(s, e) == Requeued(s, e.w, f);
    } else if !Ended(s.fibers[f]) {
      assert Apply(s, e) == LetGo(s, e.w, f, HOLD);
    } else if At(s, e.w).viaCallback {
      assert Apply(s, e) == KeptSpare(s, e.w, f);
    } else {
      assert Apply(s, e) == LetGo(s, e.w, f, s.fibers[f]);
    }
  }

  lemma ParkFrames(s: State, e: Step)
    requires Enabled(s, e) && (e.DoWake? || e.ParkOnEvent? || e.ParkOnTimer? || e.ParkInHand?)
    ensures WorkersStep(s, Apply(s, e), e) && QueueStep(s, Apply(s, e), e)
  {
    match e
    case DoWake(w) =>
    case ParkOnEvent(w, k) =>
    case ParkOnTimer(w, t) =>
    case ParkInHand(w) =>
  }

  lemma YieldFrames(s: State, e: Step)
    requires Enabled(s, e) && (e.YieldToHold? || e.YieldToReady? || e.Finish?)
    ensures WorkersStep(s, Apply(s, e), e) && QueueStep(s, Apply(s, e), e)
  {
    match e
    case YieldToHold(w) =>
    case YieldToReady(w) =>
    case Finish(w, ok) =>
  }

  lemma IdleFrames(s: State, e: Step)
    requires Enabled(s, e)
    requires e.Expire? || e.ExpireRecurring? || e.PostExpired? || e.IdleStop? || e.IdleYield?
    ensures WorkersStep(s, Apply(s, e), e) && QueueStep(s, Apply(s, e), e)
  {
    match e
    case Expire(w, t) =>
    case ExpireRecurring(w, t, c) =>
    case PostExpired(w) =>
    case IdleStop(w) =>
    case IdleYield(w) =>
  }

  lemma SharedFrames(s: State, e: Step)
    requires Enabled(s, e) && Mover(e).None?
    ensures WorkersStep(s, Apply(s, e), e) && QueueStep(s, Apply(s, e), e)
  {
    match e
    case NewFiber(g) =>
    case HandIn(a, g, pin) =>
    case PostCall(a, c, pin) =>
    case AddCallEvent(a, k, c) =>
    case AddCallTimer(a, t, c) =>
    case AddIoTimer(w, t, k) =>
    case CancelTimer(a, t) =>
    case Trigger(a, k) =>
    case SettlePending =>
    case DelEvent(a, k) =>
    case RequestStop =>
    case _ =>
  }

  lemma Frames(s: State, e: Step)
    requires Enabled(s, e)
    ensures WorkersStep(s, Apply(s, e), e) && QueueStep(s, Apply(s, e), e)
  {
    if Mover(e).None? {
      SharedFrames(s, e);
    } else if e.Take? || e.ScanEmpty? || e.SwapIn? {
      TakeFrames(s, e);
    } else if e.LoadCallback? || e.SwapInCallback? {
      CallbackFrames(s, e);
    } else if e.Decrement? {
      DecrementFrames(s, e);
    } else if e.Conclude? {
      ConcludeFrames(s, e);
    } else if e.DoWake? || e.ParkOnEvent? || e.ParkOnTimer? || e.ParkInHand? {
      ParkFrames(s, e);
    } else if e.YieldToHold? || e.YieldToReady? || e.Finish? {
      YieldFrames(s, e);
    } else {
      IdleFrames(s, e);
    }
  }
}
