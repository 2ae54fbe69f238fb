/** do_io: the hooked calls that wait for one event of one descriptor, their timeouts, and the threads that
    deliver events and run timer callbacks meanwhile. */
module DoIo {
  import opened Wrappers

  /** Where a timer callback is: queued; past its look at the shared record; past setting it. */
  datatype Stage = Queued | Checked | Cancelling

  datatype Result = Value | TimedOut | AddFailed

  /** Where a call is: about to call the original function; to set its timer; to add its event; parked;
      awake again; or back with a result. */
  datatype Pc = Trying | Arming | Registering | Parked | Awake | Done(r: Result)

  /** armed: a timer of this call is in the timer set. callbacks: those taken out of it and not finished.
      cancelled: the shared record. wakes: how often the fiber is scheduled. expiries: how many timers of the
      call have expired. */
  datatype Call = Call(pc: Pc, timeout: bool, armed: bool, callbacks: seq<Stage>, cancelled: bool, wakes: nat,
                       expiries: nat)

  /** slot: the call whose fiber waits for the event, if the event bit is set. aborted: an assertion failed. */
  datatype State = State(calls: map<nat, Call>, slot: Option<nat>, aborted: bool)

  const NO_CALLS := State(map[], None, false)

  datatype Step =
    | Begin(c: nat, timeout: bool)
    | Attempt(c: nat, again: bool)
    | SetTimer(c: nat)
    | AddEvent(c: nat, ok: bool)
    | Deliver
    | Expire(c: nat)
    | Check(c: nat, i: nat)
    | Mark(c: nat, i: nat)
    | Cancel(c: nat, i: nat)
    | Resume(c: nat)
    | Proceed(c: nat)

  /** The stage of a callback, if there is one. */
  predicate At(k: Call, i: nat, st: Stage) {
    i < |k.callbacks| && k.callbacks[i] == st
  }

  predicate Ready(k: Call, a: Step) {
    match a
    case Begin(_, _) => false
    case Attempt(_, _) => k.pc.Trying?
    case SetTimer(_) => k.pc.Arming?
    case AddEvent(_, _) => k.pc.Registering?
    case Deliver => false
    case Expire(_) => k.armed
    case Check(_, i) => At(k, i, Queued)
    case Mark(_, i) => At(k, i, Checked)
    case Cancel(_, i) => At(k, i, Cancelling)
    case Resume(_) => k.pc.Parked? && k.wakes > 0
    case Proceed(_) => k.pc.Awake?
  }

  predicate Enabled(s: State, a: Step) {
    && !s.aborted
    && match a
       case Begin(c, _) => c !in s.calls
       case Deliver => s.slot.Some? && s.slot.value in s.calls
       case _ => a.c in s.calls && Ready(s.calls[a.c], a)
  }

  function Removed(cs: seq<Stage>, i: nat): (r: seq<Stage>)
    requires i < |cs|
  {
    cs[..i] + cs[i + 1..]
  }

  /** A callback past its look at the record holds it, and will get to cancelEvent. */
  predicate Active(k: Call) {
    exists i :: 0 <= i < |k.callbacks| && !k.callbacks[i].Queued?
  }

  /** The record lives while the call or such a callback holds it. */
  predicate Alive(k: Call) {
    !k.pc.Done? || Active(k)
  }

  /** What a step does to the call it belongs to. */
  function Own(k: Call, a: Step): (k': Call)
    requires Ready(k, a)
  {
    match a
    case Attempt(_, again) => k.(pc := if again then Arming else Done(Value))
    case SetTimer(_) => k.(pc := Registering, armed := k.timeout)
    case AddEvent(_, ok) => if ok then k.(pc := Parked) else k.(pc := Done(AddFailed), armed := false)
    case Expire(_) => k.(armed := false, callbacks := k.callbacks + [Queued], expiries := k.expiries + 1)
    case Check(_, i) =>
      if !Alive(k) || k.cancelled then k.(callbacks := Removed(k.callbacks, i))
      else k.(callbacks := k.callbacks[i := Checked])
    case Mark(_, i) => k.(cancelled := true, callbacks := k.callbacks[i := Cancelling])
    case Cancel(_, i) => k.(callbacks := Removed(k.callbacks, i))
    case Resume(_) => k.(pc := Awake, wakes := k.wakes - 1)
    case Proceed(_) => k.(armed := false, pc := if k.cancelled then Done(TimedOut) else Trying)
  }

  function Put(s: State, c: nat, k: Call): (s': State) {
    s.(calls := s.calls[c := k])
  }

  /** Event bit off, and the fiber in the slot scheduled, whoever's it is; nothing if the bit is not set. */
  function Woken(s: State): (s': State) {
    if s.slot.Some? && s.slot.value in s.calls then
      var k := s.calls[s.slot.value];
      Put(s, s.slot.value, k.(wakes := k.wakes + 1)).(slot := None)
    else s
  }

  function Apply(s: State, a: Step): (s': State)
    requires Enabled(s, a)
  {
    match a
    case Begin(c, timeout) => Put(s, c, Call(Trying, timeout, false, [], false, 0, 0))
    case Deliver => Woken(s)
    case AddEvent(c, ok) =>
      if s.slot.Some? then s.(aborted := true)
      else Put(s, c, Own(s.calls[c], a)).(slot := if ok then Some(c) else None)
    case Cancel(c, _) => Woken(Put(s, c, Own(s.calls[c], a)))
    case _ => Put(s, a.c, Own(s.calls[a.c], a))
  }

  /** The states of a run. */
  ghost predicate IsRun(run: seq<State>) {
    |run| >= 1 && run[0] == NO_CALLS && forall i :: 0 <= i < |run| - 1 ==> Next(run[i], run[i + 1])
  }

  ghost predicate Next(s: State, s': State) {
    exists a :: Enabled(s, a) && s' == Apply(s, a)
  }

  ghost predicate Reachable(s: State) {
    exists run :: IsRun(run) && run[|run| - 1] == s
  }

  /** What holds of a call at every moment; waiting says whether its fiber is in the slot. */
  ghost predicate CallOk(k: Call, waiting: bool) {
    // parked exactly while one of the two is outstanding: the event, or a wake-up
    && k.wakes + (if waiting then 1 else 0) == (if k.pc.Parked? then 1 else 0)
    && (k.armed ==> k.timeout && (k.pc.Registering? || k.pc.Parked? || k.pc.Awake?))
    && (k.callbacks != [] || k.cancelled ==> k.timeout && k.expiries > 0)
    && (k.pc == Done(TimedOut) ==> k.cancelled)
    // the callback of this round's timer is there until the record is marked
    && (k.timeout && !k.cancelled && (k.pc.Registering? || k.pc.Parked? || k.pc.Awake?) ==>
          k.armed || k.callbacks != [])
    && (forall i :: 0 <= i < |k.callbacks| && k.callbacks[i].Cancelling? ==> k.cancelled)
  }

  /** Two calls, of which one waits and the other would. */
  ghost predicate Clash(s: State) {
    exists c, d :: c in s.calls && d in s.calls && c != d && s.calls[c].pc.Registering? && s.slot == Some(d)
  }

  ghost predicate Inv(s: State) {
    && (s.slot.Some? ==> s.slot.value in s.calls)
    && (forall c :: c in s.calls ==> CallOk(s.calls[c], s.slot == Some(c)))
    && (s.aborted ==> Clash(s))
  }

  lemma OwnKeeps(k: Call, a: Step, waiting: bool)
    requires CallOk(k, waiting) && Ready(k, a)
    ensures CallOk(Own(k, a), if a.AddEvent? then a.ok else waiting)
  {
  }

  lemma WokenKeeps(s: State)
    requires Inv(s) && !s.aborted
    ensures Inv(Woken(s))
  {
  }

  lemma StepKeeps(s: State, a: Step)
    requires Inv(s) && Enabled(s, a)
    ensures Inv(Apply(s, a))
  {
    match a
    case Begin(c, timeout) =>
    case Deliver => WokenKeeps(s);
    case AddEvent(c, ok) =>
      OwnKeeps(s.calls[c], a, s.slot == Some(c));
    case Cancel(c, i) =>
      OwnKeeps(s.calls[c], a, s.slot == Some(c));
      WokenKeeps(Put(s, c, Own(s.calls[c], a)));
    case _ => OwnKeeps(s.calls[a.c], a, s.slot == Some(a.c));
  }

  lemma {:induction false} RunKeeps(run: seq<State>, i: nat)
    requires IsRun(run) && i < |run|
    ensures Inv(run[i])
  {
    if i > 0 {
      RunKeeps(run, i - 1);
      assert Next(run[i - 1], run[i]);
      var a :| Enabled(run[i - 1], a) && run[i] == Apply(run[i - 1], a);
      StepKeeps(run[i - 1], a);
    }
  }

  lemma ReachableInv(s: State)
    requires Reachable(s)
    ensures Inv(s)
  {
    var run :| IsRun(run) && run[|run| - 1] == s;
    RunKeeps(run, |run| - 1);
  }

  /** On every return the event and the timer are gone, and the fiber is not scheduled any more. A timeout is
      reported only after a timer of this call expired, whatever the callbacks of other calls do. */
  lemma ReturnIsClean(s: State, c: nat)
    requires Reachable(s) && c in s.calls && s.calls[c].pc.Done?
    ensures s.slot != Some(c) && !s.calls[c].armed && s.calls[c].wakes == 0
    ensures s.calls[c].pc.r.TimedOut? ==> s.calls[c].timeout && s.calls[c].expiries > 0
  {
    ReachableInv(s);
  }

  /** A parked call is woken exactly once: by the event or by a callback, never by both. */
  lemma OneWakePerPark(s: State, c: nat)
    requires Reachable(s) && c in s.calls
    ensures var k, waiting := s.calls[c], s.slot == Some(c);
            && (k.pc.Parked? <==> (waiting && k.wakes == 0) || (!waiting && k.wakes == 1))
            && (!k.pc.Parked? ==> !waiting && k.wakes == 0)
  {
    ReachableInv(s);
  }

  /** The assertion in addEvent fails only for a second call while another one waits. */
  lemma AbortNeedsTwo(s: State)
    requires Reachable(s) && s.aborted
    ensures exists c, d :: c in s.calls && d in s.calls && c != d && s.calls[c].pc.Registering? && s.calls[d].pc.Parked?
  {
    ReachableInv(s);
    var c, d :| c in s.calls && d in s.calls && c != d && s.calls[c].pc.Registering? && s.slot == Some(d);
  }

  /** Steps of the timer set and of timer callbacks. */
  predicate OfTimers(a: Step) {
    a.Expire? || a.Check? || a.Mark? || a.Cancel?
  }

  /** A run in which only timers and their callbacks act. */
  ghost predicate TimerRun(run: seq<State>) {
    |run| >= 1 && forall i :: 0 <= i < |run| - 1 ==> TimerNext(run[i], run[i + 1])
  }

  ghost predicate TimerNext(s: State, s': State) {
    exists a :: OfTimers(a) && Enabled(s, a) && s' == Apply(s, a)
  }

  /** Timers can still end the wait for the event. */
  ghost predicate CanTimeOut(s: State) {
    exists run: seq<State> :: TimerRun(run) && run[0] == s && run[|run| - 1].slot.None?
  }

  lemma After(s: State, a: Step)
    requires OfTimers(a) && Enabled(s, a) && CanTimeOut(Apply(s, a))
    ensures CanTimeOut(s)
  {
    var run: seq<State> :| TimerRun(run) && run[0] == Apply(s, a) && run[|run| - 1].slot.None?;
    var run' := [s] + run;
    forall i | 0 <= i < |run'| - 1
      ensures TimerNext(run'[i], run'[i + 1])
    {
      if i > 0 {
        assert TimerNext(run[i - 1], run[i]);
      }
    }
    assert TimerRun(run') && run'[0] == s && run'[|run'| - 1] == run[|run| - 1];
  }

  /** A timer or a callback of the call will get to cancelEvent if it is let. */
  predicate WillCancel(k: Call) {
    Active(k) || (!k.cancelled && !k.pc.Done? && (k.armed || k.callbacks != []))
  }

  lemma {:induction false} CallbackCancels(s: State, c: nat, i: nat)
    requires Inv(s) && !s.aborted && c in s.calls && i < |s.calls[c].callbacks|
    requires s.calls[c].callbacks[i].Queued? ==> !s.calls[c].cancelled && !s.calls[c].pc.Done?
    ensures CanTimeOut(s)
    decreases if s.calls[c].callbacks[i].Queued? then 2 else if s.calls[c].callbacks[i].Checked? then 1 else 0
  {
    match s.calls[c].callbacks[i]
    case Queued =>
      StepKeeps(s, Check(c, i));
      CallbackCancels(Apply(s, Check(c, i)), c, i);
      After(s, Check(c, i));
    case Checked =>
      StepKeeps(s, Mark(c, i));
      CallbackCancels(Apply(s, Mark(c, i)), c, i);
      After(s, Mark(c, i));
    case Cancelling =>
      var s' := Apply(s, Cancel(c, i));
      assert TimerRun([s']) && [s'][0] == s';
      After(s, Cancel(c, i));
  }

  lemma OneCancels(s: State, c: nat)
    requires Inv(s) && !s.aborted && c in s.calls && WillCancel(s.calls[c])
    ensures CanTimeOut(s)
  {
    var k := s.calls[c];
    if Active(k) {
      var i :| 0 <= i < |k.callbacks| && !k.callbacks[i].Queued?;
      CallbackCancels(s, c, i);
    } else if k.callbacks != [] {
      CallbackCancels(s, c, 0);
    } else {
      StepKeeps(s, Expire(c));
      CallbackCancels(Apply(s, Expire(c)), c, 0);
      After(s, Expire(c));
    }
  }

  /** No timer and no callback will get to cancelEvent. */
  ghost predicate NoneCancels(s: State) {
    forall c :: c in s.calls ==> !WillCancel(s.calls[c])
  }

  lemma OwnIdle(k: Call, a: Step, waiting: bool)
    requires CallOk(k, waiting) && !WillCancel(k) && Ready(k, a) && OfTimers(a)
    ensures !WillCancel(Own(k, a)) && !a.Cancel?
  {
  }

  /** Then no number of timer steps ends the wait. */
  lemma {:induction false} NoCancel(run: seq<State>, i: nat)
    requires TimerRun(run) && i < |run| && Inv(run[0]) && NoneCancels(run[0])
    ensures Inv(run[i]) && NoneCancels(run[i]) && run[i].slot == run[0].slot
  {
    if i > 0 {
      NoCancel(run, i - 1);
      assert TimerNext(run[i - 1], run[i]);
      var a :| OfTimers(a) && Enabled(run[i - 1], a) && run[i] == Apply(run[i - 1], a);
      OwnIdle(run[i - 1].calls[a.c], a, run[i - 1].slot == Some(a.c));
      StepKeeps(run[i - 1], a);
    }
  }

  /** The wait of a call can still be ended by timers, exactly if one of the calls, this or another, has a
      callback past its look at the record, or an unmarked record with a timer or a callback. */
  lemma TimeoutGuard(s: State)
    requires Reachable(s) && !s.aborted && s.slot.Some?
    ensures CanTimeOut(s) <==> exists d :: d in s.calls && WillCancel(s.calls[d])
  {
    ReachableInv(s);
    if d :| d in s.calls && WillCancel(s.calls[d]) {
      OneCancels(s, d);
    } else if CanTimeOut(s) {
      var run: seq<State> :| TimerRun(run) && run[0] == s && run[|run| - 1].slot.None?;
      NoCancel(run, |run| - 1);
    }
  }

  /** A wait that the call's own timeout can still end, or no wait. */
  predicate Guarded(s: State, c: nat) {
    c in s.calls && s.slot == Some(c) && s.calls[c].timeout ==> !s.calls[c].cancelled || Active(s.calls[c])
  }

  /** A guarded wait with a timeout ends by timers if they are let. */
  lemma GuardedEnds(s: State, c: nat)
    requires Reachable(s) && !s.aborted && c in s.calls && s.slot == Some(c)
    requires s.calls[c].timeout && Guarded(s, c)
    ensures CanTimeOut(s)
  {
    ReachableInv(s);
    OneCancels(s, c);
  }

  lemma OwnGuard(k: Call, a: Step, waiting: bool)
    requires CallOk(k, waiting) && Ready(k, a) && !a.AddEvent? && !a.Cancel? && (!k.cancelled || Active(k))
    ensures !Own(k, a).cancelled || Active(Own(k, a)) || !waiting
  {
    var k' := Own(k, a);
    if a.Mark? {
      assert k'.callbacks[a.i].Cancelling?;
    } else if Active(k) {
      var j :| 0 <= j < |k.callbacks| && !k.callbacks[j].Queued?;
      if a.Check? && k.cancelled {
        assert k'.callbacks[if j < a.i then j else j - 1] == k.callbacks[j];
      } else if waiting {
        assert k'.callbacks[j] == k.callbacks[j];
      }
    }
  }

  /** The one step that can lose the timeout of a call: parking with its record already marked. */
  lemma GuardLost(s: State, c: nat, a: Step)
    requires Inv(s) && c in s.calls && Guarded(s, c) && Enabled(s, a)
    ensures !Guarded(Apply(s, a), c) <==>
            && a == AddEvent(c, true) && s.slot.None?
            && s.calls[c].timeout && s.calls[c].cancelled && !Active(s.calls[c])
  {
    var k := s.calls[c];
    if !a.Begin? && !a.Deliver? && !a.AddEvent? && !a.Cancel? && a.c == c && s.slot == Some(c) && k.timeout {
      OwnGuard(k, a, true);
    }
  }

  lemma ReachStep(s: State, a: Step)
    requires Reachable(s) && Enabled(s, a)
    ensures Reachable(Apply(s, a))
  {
    var run :| IsRun(run) && run[|run| - 1] == s;
    var run' := run + [Apply(s, a)];
    forall i | 0 <= i < |run'| - 1
      ensures Next(run'[i], run'[i + 1])
    {
      if i < |run| - 1 {
        assert Next(run[i], run[i + 1]);
      }
    }
    assert IsRun(run') && run'[|run'| - 1] == Apply(s, a);
  }

  /** A call that has set its timer, if it has one, and is about to add its event. */
  lemma Registers(s: State, c: nat, timeout: bool)
    requires Reachable(s) && !s.aborted && c !in s.calls
    ensures Reachable(Put(s, c, Call(Registering, timeout, timeout, [], false, 0, 0)))
  {
    var a := Apply(s, Begin(c, timeout));
    ReachStep(s, Begin(c, timeout));
    var b := Apply(a, Attempt(c, true));
    ReachStep(a, Attempt(c, true));
    ReachStep(b, SetTimer(c));
    assert Apply(b, SetTimer(c)) == Put(s, c, Call(Registering, timeout, timeout, [], false, 0, 0));
  }

  lemma StartIsReachable()
    ensures Reachable(NO_CALLS)
  {
    assert IsRun([NO_CALLS]) && [NO_CALLS][0] == NO_CALLS;
  }

  /** Only call 0, in the slot or not. */
  function One(k: Call, waiting: bool): (s: State) {
    State(map[0 := k], if waiting then Some(0) else None, false)
  }

  lemma OneStep(k: Call, waiting: bool, a: Step, k': Call)
    requires Reachable(One(k, waiting)) && Ready(k, a) && a.c == 0 && !a.AddEvent? && !a.Cancel? && Own(k, a) == k'
    ensures Reachable(One(k', waiting))
  {
    ReachStep(One(k, waiting), a);
    assert Apply(One(k, waiting), a) == One(k', waiting);
  }

  /** The life of one callback. */
  lemma OneCallback()
    ensures [] + [Queued] == [Queued] && [Queued][0 := Checked] == [Checked]
    ensures [Checked][0 := Cancelling] == [Cancelling] && Removed([Cancelling], 0) == []
  {
  }

  /** The timer of call 0 expires, and its callback looks at the record. */
  lemma TimerChecked(pc: Pc, waiting: bool)
    requires !pc.Done? && Reachable(One(Call(pc, true, true, [], false, 0, 0), waiting))
    ensures Reachable(One(Call(pc, true, false, [Checked], false, 0, 1), waiting))
  {
    OneCallback();
    var k := Call(pc, true, false, [Queued], false, 0, 1);
    OneStep(Call(pc, true, true, [], false, 0, 0), waiting, Expire(0), k);
    OneStep(k, waiting, Check(0, 0), k.(callbacks := [Checked]));
  }

  /** The callback marks the record and finds no event to cancel. */
  lemma CallbackEnds()
    requires Reachable(One(Call(Registering, true, false, [Checked], false, 0, 1), false))
    ensures Reachable(One(Call(Registering, true, false, [], true, 0, 1), false))
  {
    OneCallback();
    var k := Call(Registering, true, false, [Cancelling], true, 0, 1);
    OneStep(Call(Registering, true, false, [Checked], false, 0, 1), false, Mark(0, 0), k);
    ReachStep(One(k, false), Cancel(0, 0));
    assert Apply(One(k, false), Cancel(0, 0)) == One(Call(Registering, true, false, [], true, 0, 1), false);
  }

  /** It happens: the timer fires between setting it and adding the event, and the call waits for good. */
  lemma TimeoutCanBeLost() returns (s: State)
    ensures Reachable(s) && !s.aborted && s.slot == Some(0) && 0 in s.calls && s.calls[0].timeout
    ensures !CanTimeOut(s)
  {
    StartIsReachable();
    Registers(NO_CALLS, 0, true);
    assert Put(NO_CALLS, 0, Call(Registering, true, true, [], false, 0, 0)) ==
           One(Call(Registering, true, true, [], false, 0, 0), false);
    TimerChecked(Registering, false);
    CallbackEnds();
    var c := One(Call(Registering, true, false, [], true, 0, 1), false);
    ReachStep(c, AddEvent(0, true));
    s := One(Call(Parked, true, false, [], true, 0, 1), true);
    assert Apply(c, AddEvent(0, true)) == s;
    TimeoutGuard(s);
  }

  /** It happens: a second call adds the event the first one waits for. */
  lemma SecondCallAborts() returns (s: State)
    ensures Reachable(s) && s.aborted
  {
    StartIsReachable();
    Registers(NO_CALLS, 0, false);
    var a := Put(NO_CALLS, 0, Call(Registering, false, false, [], false, 0, 0));
    ReachStep(a, AddEvent(0, true));
    var b := Apply(a, AddEvent(0, true));
    Registers(b, 1, false);
    var c := Put(b, 1, Call(Registering, false, false, [], false, 0, 0));
    ReachStep(c, AddEvent(1, true));
    s := Apply(c, AddEvent(1, true));
  }

  /** Call 0 waits, and the callback of its timer is past its look at the record. */
  lemma WaitsChecked()
    ensures Reachable(One(Call(Parked, true, false, [Checked], false, 0, 1), true))
  {
    StartIsReachable();
    Registers(NO_CALLS, 0, true);
    var a := Put(NO_CALLS, 0, Call(Registering, true, true, [], false, 0, 0));
    ReachStep(a, AddEvent(0, true));
    assert Apply(a, AddEvent(0, true)) == One(Call(Parked, true, true, [], false, 0, 0), true);
    TimerChecked(Parked, true);
  }

  /** Then the event comes, and the call returns its value. The callback is still there. */
  lemma ReturnsEarly()
    ensures Reachable(One(Call(Done(Value), true, false, [Checked], false, 0, 1), false))
  {
    WaitsChecked();
    var k := Call(Parked, true, false, [Checked], false, 0, 1);
    ReachStep(One(k, true), Deliver);
    assert Apply(One(k, true), Deliver) == One(k.(wakes := 1), false);
    OneStep(k.(wakes := 1), false, Resume(0), k.(pc := Awake));
    OneStep(k.(pc := Awake), false, Proceed(0), k.(pc := Trying));
    OneStep(k.(pc := Trying), false, Attempt(0, false), k.(pc := Done(Value)));
  }

  /** It happens: the callback of a call that has returned ends the wait of another call, which has no timeout. */
  lemma LateCancel() returns (s: State)
    ensures Reachable(s) && 0 in s.calls && 1 in s.calls && s.slot == Some(1) && Enabled(s, Cancel(0, 0))
    ensures s.calls[0].pc == Done(Value) && !s.calls[1].timeout
    ensures var s' := Apply(s, Cancel(0, 0)); s'.slot.None? && s'.calls[1] == s.calls[1].(wakes := 1)
  {
    ReturnsEarly();
    var a := One(Call(Done(Value), true, false, [Checked], false, 0, 1), false);
    Registers(a, 1, false);
    var b := Put(a, 1, Call(Registering, false, false, [], false, 0, 0));
    ReachStep(b, AddEvent(1, true));
    var c := Apply(b, AddEvent(1, true));
    ReachStep(c, Mark(0, 0));
    s := Apply(c, Mark(0, 0));
  }

  /** A wake-up by another call's callback does no harm: no step but a mark of its own touches the record of a
      call, and a call whose record is not marked tries again. */
  lemma OthersOnlyWake(s: State, c: nat, a: Step)
    requires Inv(s) && c in s.calls && Enabled(s, a) && (a.Deliver? || a.c != c)
    ensures var k, k' := s.calls[c], Apply(s, a).calls[c];
            && k' == k.(wakes := k'.wakes)
            && (k'.wakes != k.wakes <==> s.slot == Some(c) && (a.Deliver? || a.Cancel?))
            && (k'.wakes != k.wakes ==> k'.wakes == 1 && Apply(s, a).slot.None?)
  {
  }

  /** A step that marks the record of a call is one of its own callbacks. */
  lemma MarkIsOwn(s: State, c: nat, a: Step)
    requires Inv(s) && Enabled(s, a) && c in Apply(s, a).calls && Apply(s, a).calls[c].cancelled
    requires c in s.calls ==> !s.calls[c].cancelled
    ensures a.Mark? && a.c == c
  {
    if c in s.calls && (a.Deliver? || a.c != c) {
      OthersOnlyWake(s, c, a);
    }
  }

  /** In every run, a record found marked was marked by a callback of its own call: a call times out by itself
      or not at all, however often the callbacks of others wake it. */
  lemma {:induction false} TimesOutByItself(run: seq<State>, j: nat, c: nat) returns (m: nat, i: nat)
    requires IsRun(run) && j < |run| && c in run[j].calls && run[j].calls[c].cancelled
    ensures m < j && Enabled(run[m], Mark(c, i)) && run[m + 1] == Apply(run[m], Mark(c, i))
  {
    assert j > 0;
    if c in run[j - 1].calls && run[j - 1].calls[c].cancelled {
      m, i := TimesOutByItself(run, j - 1, c);
    } else {
      m := j - 1;
      i := MarkedHere(run, m, c);
    }
  }

  lemma MarkedHere(run: seq<State>, m: nat, c: nat) returns (i: nat)
    requires IsRun(run) && m < |run| - 1 && c in run[m + 1].calls && run[m + 1].calls[c].cancelled
    requires c in run[m].calls ==> !run[m].calls[c].cancelled
    ensures Enabled(run[m], Mark(c, i)) && run[m + 1] == Apply(run[m], Mark(c, i))
  {
    RunKeeps(run, m);
    assert Next(run[m], run[m + 1]);
    var a :| Enabled(run[m], a) && run[m + 1] == Apply(run[m], a);
    MarkIsOwn(run[m], c, a);
    i := a.i;
  }

  /* ---------- what a call returns ---------- */

  /** How a call goes on from one place to the next; marked says whether its record is marked. */
  predicate Goes(pc: Pc, pc': Pc, marked: bool) {
    match pc
    case Trying => pc' == Arming || pc' == Done(Value)
    case Arming => pc' == Registering
    case Registering => pc' == Parked || pc' == Done(AddFailed)
    case Parked => pc' == Awake
    case Awake => pc' == if marked then Done(TimedOut) else Trying
    case Done(_) => false
  }

  /** The timer of a call is set only on the way to its event, and only if the call has a timeout; it expires at most
      once. */
  predicate TimerGoes(k: Call, k': Call) {
    && (!k.armed && k'.armed ==> k.timeout && k.pc == Arming && k'.pc == Registering)
    && (k.pc == Arming && k'.pc == Registering ==> k'.armed == k.timeout)
    && (k'.expiries != k.expiries ==> k.armed && !k'.armed && k'.expiries == k.expiries + 1)
  }

  lemma StepGoes(s: State, a: Step, c: nat)
    requires Inv(s) && Enabled(s, a) && c in s.calls
    ensures c in Apply(s, a).calls
    ensures var k, k' := s.calls[c], Apply(s, a).calls[c];
            (k'.pc == k.pc || Goes(k.pc, k'.pc, k.cancelled)) && TimerGoes(k, k')
    ensures Apply(s, a).calls[c].timeout == s.calls[c].timeout
  {
    if a.Deliver? || a.c != c {
      OthersOnlyWake(s, c, a);
    }
  }

  /** In every run a call goes from place to place like this. Awake with its record marked it returns a timeout, and
      with it not marked it tries again; once it has returned nothing changes its result. */
  lemma CallGoes(run: seq<State>, i: nat, c: nat)
    requires IsRun(run) && i < |run| - 1 && c in run[i].calls
    ensures c in run[i + 1].calls
    ensures var k, k' := run[i].calls[c], run[i + 1].calls[c];
            (k'.pc == k.pc || Goes(k.pc, k'.pc, k.cancelled)) && TimerGoes(k, k')
  {
    RunKeeps(run, i);
    assert Next(run[i], run[i + 1]);
    var a :| Enabled(run[i], a) && run[i + 1] == Apply(run[i], a);
    StepGoes(run[i], a, c);
  }

  /** A step of a timer or a callback, or of the fiber of call c. */
  predicate OnItsOwn(a: Step, c: nat) {
    OfTimers(a) || ((a.Resume? || a.Proceed?) && a.c == c)
  }

  ghost predicate OwnNext(s: State, s': State, c: nat) {
    exists a :: OnItsOwn(a, c) && Enabled(s, a) && s' == Apply(s, a)
  }

  ghost predicate OwnRun(run: seq<State>, c: nat) {
    |run| >= 1 && forall i :: 0 <= i < |run| - 1 ==> OwnNext(run[i], run[i + 1], c)
  }

  predicate TimedOutAt(s: State, c: nat) {
    c in s.calls && s.calls[c].pc == Done(TimedOut)
  }

  /** The call can still return a timeout, with no event and no other call taking part. */
  ghost predicate CanReturnTimeout(s: State, c: nat) {
    exists run: seq<State> :: OwnRun(run, c) && run[0] == s && TimedOutAt(run[|run| - 1], c)
  }

  lemma OwnAfter(s: State, a: Step, c: nat)
    requires OnItsOwn(a, c) && Enabled(s, a) && CanReturnTimeout(Apply(s, a), c)
    ensures CanReturnTimeout(s, c)
  {
    var run: seq<State> :| OwnRun(run, c) && run[0] == Apply(s, a) && TimedOutAt(run[|run| - 1], c);
    var run' := [s] + run;
    forall i | 0 <= i < |run'| - 1
      ensures OwnNext(run'[i], run'[i + 1], c)
    {
      if i > 0 {
        assert OwnNext(run[i - 1], run[i], c);
      }
    }
    assert OwnRun(run', c) && run'[0] == s && run'[|run'| - 1] == run[|run| - 1];
  }

  /** Woken with its record marked, the call returns a timeout. */
  lemma WokenReturns(s: State, c: nat)
    requires !s.aborted && c in s.calls && s.calls[c].pc.Parked? && s.calls[c].wakes > 0 && s.calls[c].cancelled
    ensures CanReturnTimeout(s, c)
  {
    var t := Apply(s, Resume(c));
    var u := Apply(t, Proceed(c));
    assert OwnRun([u], c) && [u][0] == u && TimedOutAt(u, c);
    OwnAfter(t, Proceed(c), c);
    OwnAfter(s, Resume(c), c);
  }

  /** A callback that gets to cancelEvent ends the wait of c: its own one, or any one if its record is marked. */
  lemma {:induction false} CallbackReturns(s: State, c: nat, d: nat, i: nat)
    requires Inv(s) && !s.aborted && c in s.calls && d in s.calls && s.slot == Some(c)
    requires (d == c || s.calls[c].cancelled) && i < |s.calls[d].callbacks|
    requires s.calls[d].callbacks[i].Queued? ==> !s.calls[d].cancelled && !s.calls[d].pc.Done?
    ensures CanReturnTimeout(s, c)
    decreases if s.calls[d].callbacks[i].Queued? then 2 else if s.calls[d].callbacks[i].Checked? then 1 else 0
  {
    match s.calls[d].callbacks[i]
    case Queued =>
      StepKeeps(s, Check(d, i));
      CallbackReturns(Apply(s, Check(d, i)), c, d, i);
      OwnAfter(s, Check(d, i), c);
    case Checked =>
      StepKeeps(s, Mark(d, i));
      CallbackReturns(Apply(s, Mark(d, i)), c, d, i);
      OwnAfter(s, Mark(d, i), c);
    case Cancelling =>
      WokenReturns(Apply(s, Cancel(d, i)), c);
      OwnAfter(s, Cancel(d, i), c);
  }

  lemma TimerReturns(s: State, c: nat, d: nat)
    requires Inv(s) && !s.aborted && c in s.calls && d in s.calls && s.slot == Some(c)
    requires (d == c || s.calls[c].cancelled) && WillCancel(s.calls[d])
    ensures CanReturnTimeout(s, c)
  {
    var k := s.calls[d];
    if Active(k) {
      var i :| 0 <= i < |k.callbacks| && !k.callbacks[i].Queued?;
      CallbackReturns(s, c, d, i);
    } else if k.callbacks != [] {
      CallbackReturns(s, c, d, 0);
    } else {
      StepKeeps(s, Expire(d));
      CallbackReturns(Apply(s, Expire(d)), c, d, 0);
      OwnAfter(s, Expire(d), c);
    }
  }

  /** With nobody left to cancel, the call stays where it is. */
  lemma {:induction false} StaysParked(run: seq<State>, i: nat, c: nat)
    requires OwnRun(run, c) && i < |run| && Inv(run[0]) && NoneCancels(run[0]) && run[0].slot == Some(c)
    ensures Inv(run[i]) && NoneCancels(run[i]) && run[i].slot == Some(c)
  {
    if i > 0 {
      StaysParked(run, i - 1, c);
      assert OwnNext(run[i - 1], run[i], c);
      var a :| OnItsOwn(a, c) && Enabled(run[i - 1], a) && run[i] == Apply(run[i - 1], a);
      assert CallOk(run[i - 1].calls[c], true);
      OwnIdle(run[i - 1].calls[a.c], a, run[i - 1].slot == Some(a.c));
      StepKeeps(run[i - 1], a);
    }
  }

  lemma {:induction false} TimeoutStays(run: seq<State>, i: nat, c: nat)
    requires OwnRun(run, c) && i < |run| && Inv(run[0]) && c in run[0].calls
    ensures Inv(run[i]) && c in run[i].calls && run[i].calls[c].timeout == run[0].calls[c].timeout
  {
    if i > 0 {
      TimeoutStays(run, i - 1, c);
      assert OwnNext(run[i - 1], run[i], c);
      var a :| OnItsOwn(a, c) && Enabled(run[i - 1], a) && run[i] == Apply(run[i - 1], a);
      StepGoes(run[i - 1], a, c);
      StepKeeps(run[i - 1], a);
    }
  }

  /** A waiting call can still return a timeout by timers alone, exactly if it has one and its record is not marked
      yet, or somebody is left to cancel the event. */
  lemma TimeoutIsReturned(s: State, c: nat)
    requires Reachable(s) && !s.aborted && c in s.calls && s.slot == Some(c)
    ensures CanReturnTimeout(s, c) <==>
            && s.calls[c].timeout
            && (!s.calls[c].cancelled || exists d :: d in s.calls && WillCancel(s.calls[d]))
  {
    ReachableInv(s);
    if s.calls[c].timeout && !s.calls[c].cancelled {
      TimerReturns(s, c, c);
    } else if s.calls[c].timeout && exists d :: d in s.calls && WillCancel(s.calls[d]) {
      var d :| d in s.calls && WillCancel(s.calls[d]);
      TimerReturns(s, c, d);
    } else if CanReturnTimeout(s, c) {
      var run: seq<State> :| OwnRun(run, c) && run[0] == s && TimedOutAt(run[|run| - 1], c);
      NoTimeout(run, c);
    }
  }

  lemma NoTimeout(run: seq<State>, c: nat)
    requires OwnRun(run, c) && Inv(run[0]) && c in run[0].calls && run[0].slot == Some(c)
    requires !run[0].calls[c].timeout || NoneCancels(run[0])
    ensures !TimedOutAt(run[|run| - 1], c)
  {
    if !run[0].calls[c].timeout {
      TimeoutStays(run, |run| - 1, c);
    } else {
      StaysParked(run, |run| - 1, c);
    }
  }

  /* ---------- nobody is stuck ---------- */

  /** In every reachable state a call that has not returned can go on, or its event can come. */
  lemma CallCanMove(s: State, c: nat) returns (a: Step)
    requires Reachable(s) && !s.aborted && c in s.calls && !s.calls[c].pc.Done?
    ensures Enabled(s, a) && if a.Deliver? then s.slot == Some(c) else !a.Begin? && !OfTimers(a) && a.c == c
  {
    ReachableInv(s);
    match s.calls[c].pc
    case Trying => a := Attempt(c, true);
    case Arming => a := SetTimer(c);
    case Registering => a := AddEvent(c, true);
    case Parked => a := if s.slot == Some(c) then Deliver else Resume(c);
    case Awake => a := Proceed(c);
  }

  /** The world can do to a call whatever it may: a new call with or without a timeout, a value or not, an event taken
      or refused, a timer that expires, and every callback on its way. */
  lemma AnythingCanHappen(s: State, c: nat)
    requires !s.aborted
    ensures c !in s.calls ==> forall timeout :: Enabled(s, Begin(c, timeout))
    ensures c in s.calls && s.calls[c].pc.Trying? ==> forall again :: Enabled(s, Attempt(c, again))
    ensures c in s.calls && s.calls[c].pc.Registering? ==> forall ok :: Enabled(s, AddEvent(c, ok))
    ensures c in s.calls && s.calls[c].armed ==> Enabled(s, Expire(c))
    ensures c in s.calls ==> forall i: nat :: i < |s.calls[c].callbacks| ==>
              Enabled(s, Check(c, i)) || Enabled(s, Mark(c, i)) || Enabled(s, Cancel(c, i))
  {
  }

  /** A callback goes on behind its look exactly if the record is not marked and still there: held by the call, or by
      another callback of it that is past its look. */
  lemma CheckGoesOn(s: State, c: nat, i: nat)
    requires Enabled(s, Check(c, i))
    ensures var k, k' := s.calls[c], Apply(s, Check(c, i)).calls[c];
            if !k.cancelled && (!k.pc.Done? || exists j :: 0 <= j < |k.callbacks| && !k.callbacks[j].Queued?)
            then k' == k.(callbacks := k.callbacks[i := Checked])
            else k' == k.(callbacks := k.callbacks[..i] + k.callbacks[i + 1..])
  {
  }
}
