/** Which thread a piece of work is for: only a caller's choice ties it to one, and then that thread gets it. */
module RuntimePins {
  import opened Wrappers
  import opened Runtime
  import opened RuntimeFrames
  import opened RuntimeInvariant
  import opened RuntimeTheorems
  import opened RuntimeStop

  /** The step schedules that entry: the fiber or callback a caller gives, for the thread the caller gives. */
  predicate Hands(e: Step, t: Task) {
    || (e.HandIn? && t == FiberTask(e.g, e.pin))
    || (e.PostCall? && t == CallTask(User(e.c), e.pin))
  }

  /** Every entry is one the list had, one that a caller gives with this step, or one for any thread. */
  ghost predicate PinsFrom(q: seq<Task>, r: seq<Task>, e: Step) {
    forall i :: 0 <= i < |r| ==> r[i] in q || Hands(e, r[i]) || r[i].pin == -1
  }

  lemma ConcludePins(s: State, e: Step)
    requires Enabled(s, e) && e.Conclude?
    ensures PinsFrom(s.queue, Apply(s, e).queue, e)
  {
  }

  lemma WakePins(s: State, e: Step)
    requires Enabled(s, e) && (e.DoWake? || e.PostExpired?)
    ensures PinsFrom(s.queue, Apply(s, e).queue, e)
  {
  }

  lemma SharedPins(s: State, e: Step)
    requires Enabled(s, e) && (e.HandIn? || e.PostCall? || e.Trigger?)
    ensures PinsFrom(s.queue, Apply(s, e).queue, e)
  {
  }

  lemma TakePins(s: State, e: Step)
    requires Enabled(s, e) && e.Take?
    ensures PinsFrom(s.queue, Apply(s, e).queue, e)
  {
  }

  /** The other steps leave the list alone. */
  lemma ListStays(s: State, e: Step)
    requires Enabled(s, e) && !e.Take? && !e.Conclude? && !e.DoWake? && !e.PostExpired?
    requires !e.HandIn? && !e.PostCall? && !e.Trigger?
    ensures Apply(s, e).queue == s.queue
  {
  }

  lemma StepPins(s: State, e: Step)
    requires Enabled(s, e)
    ensures PinsFrom(s.queue, Apply(s, e).queue, e)
  {
    if e.Take? {
      TakePins(s, e);
    } else if e.Conclude? {
      ConcludePins(s, e);
    } else if e.DoWake? || e.PostExpired? {
      WakePins(s, e);
    } else if e.HandIn? || e.PostCall? || e.Trigger? {
      SharedPins(s, e);
    } else {
      ListStays(s, e);
    }
  }

  /** Whatever is tied to a thread was scheduled for it by a caller: what an event or a timer wakes, what yields and
      what a sleep hands back may run anywhere. */
  lemma {:induction false} PinComesFromCaller(run: seq<State>, j: nat, t: Task) returns (m: nat, e: Step)
    requires IsRun(run) && j < |run| && t in run[j].queue && t.pin != -1
    ensures m < j && Enabled(run[m], e) && run[m + 1] == Apply(run[m], e) && Hands(e, t)
  {
    if t in run[j - 1].queue {
      m, e := PinComesFromCaller(run, j - 1, t);
    } else {
      m := j - 1;
      e := PinnedHere(run, m, t);
    }
  }

  lemma PinnedHere(run: seq<State>, m: nat, t: Task) returns (e: Step)
    requires IsRun(run) && m < |run| - 1 && t in run[m + 1].queue && t !in run[m].queue && t.pin != -1
    ensures Enabled(run[m], e) && run[m + 1] == Apply(run[m], e) && Hands(e, t)
  {
    e := StepAt(run, m);
    StepPins(run[m], e);
    var i :| 0 <= i < |run[m + 1].queue| && run[m + 1].queue[i] == t;
  }

  /* ---------- work for any thread ---------- */

  /** Callers that choose no thread. */
  predicate Plain(e: Step) {
    (e.HandIn? ==> e.pin == -1) && (e.PostCall? ==> e.pin == -1)
  }

  ghost predicate PlainNext(s: State, r: State) {
    exists e :: Enabled(s, e) && r == Apply(s, e) && Plain(e)
  }

  ghost predicate PlainLinked(run: seq<State>, i: nat)
    requires i < |run| - 1
  {
    PlainNext(run[i], run[i + 1])
  }

  /** A run in which no caller chooses a thread. */
  ghost predicate PlainRun(run: seq<State>) {
    IsRun(run) && forall i :: 0 <= i < |run| - 1 ==> PlainLinked(run, i)
  }

  predicate NonePinned(q: seq<Task>) {
    forall i :: 0 <= i < |q| ==> q[i].pin == -1
  }

  lemma PlainStep(s: State, r: State)
    requires PlainNext(s, r) && NonePinned(s.queue)
    ensures NonePinned(r.queue)
  {
    var e :| Enabled(s, e) && r == Apply(s, e) && Plain(e);
    StepPins(s, e);
  }

  lemma {:induction false} NothingPinned(run: seq<State>, j: nat)
    requires PlainRun(run) && j < |run|
    ensures NonePinned(run[j].queue)
  {
    if j > 0 {
      NothingPinned(run, j - 1);
      assert PlainLinked(run, j - 1);
      PlainStep(run[j - 1], run[j]);
    }
  }

  /** If no caller chooses a thread, nothing is ever tied to one, and the list is empty once all workers have left. */
  lemma PlainRunEndsEmpty(run: seq<State>)
    requires PlainRun(run)
    ensures forall j :: 0 <= j < |run| ==> NonePinned(run[j].queue)
    ensures AllExited(run[|run| - 1]) ==> run[|run| - 1].queue == []
  {
    forall j | 0 <= j < |run|
      ensures NonePinned(run[j].queue)
    {
      NothingPinned(run, j);
    }
    if AllExited(run[|run| - 1]) {
      ExitLeavesOnlyPinned(run[|run| - 1]);
    }
  }

  /** A waiter woken by its event may be taken by every worker, as soon as it has finished parking. */
  lemma WokenForAnyone(s: State, a: Actor, k: Key, w: int)
    requires Enabled(s, Trigger(a, k))
    ensures var r := Apply(s, Trigger(a, k));
            && |r.queue| == |s.queue| + 1 && TaskWork(r.queue[|s.queue|]) == Some(WaiterWork(s.slots[k]))
            && (Eligible(r.queue[|s.queue|], r.fibers, w) <==>
                !(s.slots[k].FiberWaiter? && s.slots[k].f in s.fibers && s.fibers[s.slots[k].f].EXEC?))
  {
  }

  /* ---------- work for one thread ---------- */

  ghost predicate Queued(q: seq<Task>, u: Option<Work>) {
    exists x :: 0 <= x < |q| && TaskWork(q[x]) == u
  }

  /** That work is not in the list twice. */
  predicate Once(q: seq<Task>, u: Option<Work>) {
    forall x, y :: 0 <= x < y < |q| && TaskWork(q[x]) == u ==> TaskWork(q[y]) != u
  }

  lemma OnceInList(run: seq<State>, i: nat, u: Option<Work>)
    requires IsRun(run) && i < |run| && u.Some?
    ensures Once(run[i].queue, u)
  {
    RunKeeps(run, i);
    var loc :| InvAt(run[i], loc);
    assert QueueOk(run[i].queue, loc);
  }

  /** If its work is still there after another entry went, or this one, then this one did not go. */
  lemma NotTheOneTaken(q: seq<Task>, i: nat, t: Task)
    requires i < |q| && t in q && Once(q, TaskWork(t)) && Queued(q[..i] + q[i + 1..], TaskWork(t))
    ensures t in q[..i] + q[i + 1..]
  {
    var r := q[..i] + q[i + 1..];
    var x :| 0 <= x < |q| && q[x] == t;
    var y :| 0 <= y < |r| && TaskWork(r[y]) == TaskWork(t);
    assert r[y] == q[if y < i then y else y + 1];
  }

  lemma StaysInList(run: seq<State>, i: nat, t: Task)
    requires IsRun(run) && i < |run| - 1 && t in run[i].queue && TaskWork(t).Some?
    requires Queued(run[i + 1].queue, TaskWork(t)) && Once(run[i].queue, TaskWork(t))
    ensures t in run[i + 1].queue
  {
    var e := StepAt(run, i);
    Frames(run[i], e);
    if e.Take? {
      NotTheOneTaken(run[i].queue, e.i, t);
    }
  }

  /** An entry stays as long as its work is in the list. */
  lemma {:induction false} StaysAlong(run: seq<State>, i: nat, j: nat, t: Task)
    requires IsRun(run) && i <= j < |run| && t in run[i].queue && TaskWork(t).Some?
    requires forall m :: i <= m <= j ==> Queued(run[m].queue, TaskWork(t))
    ensures t in run[j].queue
  {
    if i < j {
      StaysAlong(run, i, j - 1, t);
      OnceInList(run, j - 1, TaskWork(t));
      StaysInList(run, j - 1, t);
    }
  }

  lemma HandedIsThere(s: State, e: Step, t: Task)
    requires Enabled(s, e) && Hands(e, t)
    ensures Apply(s, e).queue == s.queue + [t] && TaskWork(t).Some?
  {
  }

  /** Work a caller schedules for a thread is taken by that thread: whoever takes it while it has been in the list
      all the time since. */
  lemma TakenByItsThread(run: seq<State>, m: nat, e: Step, t: Task, j: nat, w: int, x: nat)
    requires IsRun(run) && m < j < |run| - 1 && Enabled(run[m], e) && run[m + 1] == Apply(run[m], e) && Hands(e, t)
    requires t.pin != -1 && forall i :: m < i <= j ==> Queued(run[i].queue, TaskWork(t))
    requires Enabled(run[j], Take(w, x)) && TaskWork(run[j].queue[x]) == TaskWork(t)
    ensures w == t.pin
  {
    HandedIsThere(run[m], e, t);
    assert run[m + 1].queue[|run[m].queue|] == t;
    StaysAlong(run, m + 1, j, t);
    var y :| 0 <= y < |run[j].queue| && run[j].queue[y] == t;
    OnceInList(run, j, TaskWork(t));
  }
}
