/** Nobody is ever stuck: what every worker, running fiber and idle fiber can do next. */
module RuntimeProgress {
  import opened Wrappers
  import opened Runtime
  import opened RuntimeFrames
  import opened RuntimeInvariant
  import opened RuntimeTheorems
  import opened RuntimeSafety

  /** The first entry a thread may run from i on, if there is one. */
  lemma {:induction false} FirstOrNone(q: seq<Task>, fibers: map<nat, FState>, w: int, i: nat) returns (j: nat)
    requires i <= |q| && forall x :: 0 <= x < i ==> !Eligible(q[x], fibers, w)
    ensures NoneEligible(q, fibers, w) || FirstEligible(q, fibers, w, j)
    decreases |q| - i
  {
    j := i;
    if i < |q| && !Eligible(q[i], fibers, w) {
      j := FirstOrNone(q, fibers, w, i + 1);
    }
  }

  lemma ScanCanMove(s: State, w: int) returns (e: Step)
    requires w in s.workers && At(s, w).Scan?
    ensures Enabled(s, e) && Mover(e) == Some(w)
  {
    var i := FirstOrNone(s.queue, s.fibers, w, 0);
    e := if NoneEligible(s.queue, s.fibers, w) then ScanEmpty(w) else Take(w, i);
  }

  lemma CallbackCanMove(s: State, w: int) returns (e: Step)
    requires w in s.workers && At(s, w).Got? && At(s, w).task.CallTask?
    ensures Enabled(s, e) && Mover(e) == Some(w)
  {
    var g := Unused(s.fibers.Keys);
    e := LoadCallback(w, if s.workers[w].spare.Some? then s.workers[w].spare.value else g);
  }

  lemma BusyIsCounted(s: State, w: int)
    requires Inv(s) && w in s.workers && Busy(At(s, w))
    ensures s.active > 0
  {
    assert w in BusySet(s.workers);
  }

  lemma HeldIsThere(s: State, w: int, f: nat)
    requires Inv(s) && w in s.workers && HeldBy(s.workers[w]) == Some(f)
    ensures f in s.fibers
  {
    var loc :| InvAt(s, loc);
    HeldFact(s.workers, s.fibers, loc, w, f);
  }

  /** In every reachable state every worker that has not left can take a step. */
  lemma WorkerCanMove(s: State, w: int) returns (e: Step)
    requires Reachable(s) && w in s.workers && !At(s, w).Exited?
    ensures Enabled(s, e) && Mover(e) == Some(w)
  {
    ReachableInv(s);
    match At(s, w)
    case Scan => e := ScanCanMove(s, w);
    case Got(t) =>
      if t.FiberTask? {
        e := SwapIn(w);
      } else {
        e := CallbackCanMove(s, w);
      }
    case Loaded(_, _) => e := SwapInCallback(w);
    case Run(_, parked, duty, _) =>
      e := if duty.Some? then DoWake(w) else if parked then YieldToHold(w) else YieldToReady(w);
    case After(_, _) =>
      BusyIsCounted(s, w);
      e := Decrement(w);
    case Post(f, _) =>
      HeldIsThere(s, w, f);
      e := Conclude(w);
    case Idle(b) => e := if b != [] then PostExpired(w) else IdleYield(w);
  }

  /** The code of a running fiber can wait for a free event or timer, keep itself, yield, finish or throw. */
  lemma BodyCan(s: State, w: int)
    requires BodyOf(s, w)
    ensures Enabled(s, ParkInHand(w)) && Enabled(s, YieldToReady(w))
    ensures forall ok :: Enabled(s, Finish(w, ok))
    ensures forall k :: k !in s.slots ==> Enabled(s, ParkOnEvent(w, k))
    ensures forall t :: t !in s.timers ==> Enabled(s, ParkOnTimer(w, t))
    ensures forall t, k :: t !in s.timers ==> Enabled(s, AddIoTimer(w, t, k))
  {
  }

  lemma SlotIsCounted(s: State, k: Key)
    requires Reachable(s) && k in s.slots
    ensures s.pending > 0
  {
    CountersAreExact(s);
  }

  /** Scheduling and posting. */
  ghost predicate CanSchedule(s: State, a: Actor) {
    && (forall g, pin :: g in s.hand ==> Enabled(s, HandIn(a, g, pin)))
    && (forall c, pin :: c !in s.calls ==> Enabled(s, PostCall(a, c, pin)))
  }

  /** Adding and cancelling timers. */
  ghost predicate CanTime(s: State, a: Actor) {
    && (forall t, c :: t !in s.timers && c !in s.calls ==> Enabled(s, AddCallTimer(a, t, c)))
    && (forall t :: t in s.timers && !s.timers[t].Wake? ==> Enabled(s, CancelTimer(a, t)))
  }

  /** Adding, triggering and deleting events. */
  ghost predicate CanWatch(s: State, a: Actor) {
    && (forall k, c :: k !in s.slots && c !in s.calls ==> Enabled(s, AddCallEvent(a, k, c)))
    && (forall k :: k in s.slots ==> Enabled(s, Trigger(a, k)) && Enabled(s, DelEvent(a, k)))
  }

  lemma CanScheduleAlways(s: State, a: Actor)
    requires MayAct(s, a)
    ensures CanSchedule(s, a) && CanTime(s, a)
  {
  }

  lemma CanWatchAlways(s: State, a: Actor)
    requires Reachable(s) && MayAct(s, a)
    ensures CanWatch(s, a)
  {
    forall k | k in s.slots
      ensures Enabled(s, Trigger(a, k)) && Enabled(s, DelEvent(a, k))
    {
      SlotIsCounted(s, k);
      SlotCan(s, a, k);
    }
    forall k, c | k !in s.slots && c !in s.calls
      ensures Enabled(s, AddCallEvent(a, k, c))
    {
      EventCan(s, a, k, c);
    }
  }

  lemma SlotCan(s: State, a: Actor, k: Key)
    requires MayAct(s, a) && k in s.slots && s.pending > 0
    ensures Enabled(s, Trigger(a, k)) && Enabled(s, DelEvent(a, k))
  {
  }

  lemma EventCan(s: State, a: Actor, k: Key, c: nat)
    requires MayAct(s, a) && k !in s.slots && c !in s.calls
    ensures Enabled(s, AddCallEvent(a, k, c))
  {
  }

  /** The code of a running fiber, and until the stop is asked for code outside the scheduler, can schedule what it
      has, post callbacks, add and cancel timers, and add, trigger and delete events. */
  lemma ActorsCan(s: State, a: Actor)
    requires Reachable(s) && if a.Outside? then !s.stopping else BodyOf(s, a.w)
    ensures CanSchedule(s, a) && CanTime(s, a) && CanWatch(s, a)
  {
    CanScheduleAlways(s, a);
    CanWatchAlways(s, a);
  }

  /** Fibers can be made, and the stop can be asked for, at any time. */
  lemma AnyoneCan(s: State)
    ensures Enabled(s, RequestStop) && forall g :: g !in s.fibers ==> Enabled(s, NewFiber(g))
  {
  }

  /** An idle worker can deliver every event and run every timer, recurring or not, and stops if it may. */
  lemma IdleCan(s: State, w: int)
    requires IdleOf(s, w)
    ensures forall k :: k in s.slots ==> Enabled(s, Trigger(By(w), k))
    ensures forall t :: t in s.timers ==> Enabled(s, Expire(w, t))
    ensures forall t, c :: t in s.timers && s.timers[t].User? && c !in s.calls ==> Enabled(s, ExpireRecurring(w, t, c))
    ensures At(s, w).batch == [] && StopCheck(s) ==> Enabled(s, IdleStop(w))
  {
  }

  /** A trigger can always be counted down. */
  lemma OwedCanBeSettled(s: State)
    requires Reachable(s) && s.owed > 0
    ensures Enabled(s, SettlePending)
  {
    CountersAreExact(s);
  }
}
