/** The properties of every reachable state of the runtime, stated on the state
    itself. */
module RuntimeSafety {
  import opened Wrappers
  import opened Runtime
  import opened RuntimeInvariant
  import opened RuntimeTheorems

  ghost predicate Reachable(s: State) {
    exists run :: IsRun(run) && run[|run| - 1] == s
  }

  lemma ReachableInv(s: State)
    requires Reachable(s)
    ensures Inv(s)
  {
    var run :| IsRun(run) && run[|run| - 1] == s;
    LastInv(run, s);
  }

  lemma LastInv(run: seq<State>, s: State)
    requires IsRun(run) && run[|run| - 1] == s
    ensures Inv(s)
  {
    RunKeeps(run, |run| - 1);
  }

  lemma ReachStep(s: State, e: Step)
    requires Reachable(s) && Enabled(s, e)
    ensures Reachable(Apply(s, e))
  {
    var run :| IsRun(run) && run[|run| - 1] == s;
    var more := run + [Apply(s, e)];
    assert Next(s, Apply(s, e));
    forall i | 0 <= i < |more| - 1
      ensures Linked(more, i)
    {
      assert i < |run| - 1 ==> Linked(run, i);
    }
    assert IsRun(more) && more[|more| - 1] == Apply(s, e);
  }

  lemma ReachInitial(s: State)
    requires Initial(s)
    ensures Reachable(s)
  {
    assert IsRun([s]) && [s][|[s]| - 1] == s;
  }

  /* ---------- one wake-up token per unit of work ---------- */

  /** A concrete position in the state that will make a unit of work run. */
  datatype Place = AtQueue(i: nat) | AtSlot(k: Key) | AtTimer(t: nat) | AtBatch(w: int, i: nat) | AtJob(w: int) | AtHand

  ghost predicate TokenAt(s: State, u: Work, p: Place) {
    match p
    case AtQueue(i) => i < |s.queue| && TaskWork(s.queue[i]) == Some(u)
    case AtSlot(k) => k in s.slots && WaiterWork(s.slots[k]) == u
    case AtTimer(t) => t in s.timers && Carried(s.timers[t]) == Some(u)
    case AtBatch(w, i) => w in s.workers && i < |BatchOf(s.workers[w])| && Carried(BatchOf(s.workers[w])[i]) == Some(u)
    case AtJob(w) => w in s.workers && JobOf(s.workers[w]) == Some(u)
    case AtHand => u.Fib? && u.f in s.hand
  }

  /** The kind of place, which loc determines. */
  ghost predicate Matches(p: Place, l: Loc) {
    match p
    case AtQueue(_) => l.Queue?
    case AtSlot(k) => l == Slot(k)
    case AtTimer(t) => l == Timer(t)
    case AtBatch(w, _) => l == Batch(w)
    case AtJob(w) => l == Job(w)
    case AtHand => l == Hand
  }

  lemma TokenMatches(s: State, loc: Locs, u: Work, p: Place)
    requires PlacesOk(s, loc) && TokenAt(s, u, p)
    ensures u in loc && Matches(p, loc[u])
  {
    match p
    case AtQueue(i) => assert Has(loc, TaskWork(s.queue[i]).value, Queue(s.queue[i].FiberTask?));
    case AtSlot(k) => assert Has(loc, WaiterWork(s.slots[k]), Slot(k));
    case AtTimer(t) => assert Has(loc, Carried(s.timers[t]).value, Timer(t));
    case AtBatch(w, i) =>
      var b := BatchOf(s.workers[w]);
      assert BatchOk(w, b, loc) && Carried(b[i]).Some? && Has(loc, Carried(b[i]).value, Batch(w));
    case AtJob(w) => assert Has(loc, JobOf(s.workers[w]).value, Job(w));
    case AtHand => assert Has(loc, u, Hand);
  }

  lemma SingleTokenAt(s: State, loc: Locs, u: Work, p: Place, q: Place)
    requires PlacesOk(s, loc) && TokenAt(s, u, p) && TokenAt(s, u, q)
    ensures p == q
  {
    TokenMatches(s, loc, u, p);
    TokenMatches(s, loc, u, q);
    if p.AtBatch? && q.AtBatch? {
      assert BatchOk(p.w, BatchOf(s.workers[p.w]), loc);
    }
  }

  /** No fiber and no callback has two wake-ups, in any reachable state. */
  lemma SingleToken(s: State, u: Work, p: Place, q: Place)
    requires Reachable(s) && TokenAt(s, u, p) && TokenAt(s, u, q)
    ensures p == q
  {
    ReachableInv(s);
    var loc :| InvAt(s, loc);
    SingleTokenAt(s, loc, u, p, q);
  }

  /* ---------- switching to a fiber ---------- */

  /** When a worker is about to switch to a fiber it took from the list, that
      fiber is not running, not finished, held by no other worker, and has no
      wake-up left: the assertion in swapIn holds and the guard in front of it
      excludes nothing. */
  lemma SwapInIsSafe(s: State, w: int, f: nat, pin: int)
    requires Reachable(s) && w in s.workers && At(s, w) == Got(FiberTask(f, pin))
    ensures f in s.fibers && s.fibers[f] != EXEC && !Ended(s.fibers[f])
    ensures forall v :: v in s.workers && HeldBy(s.workers[v]) == Some(f) ==> v == w
    ensures forall p :: !TokenAt(s, Fib(f), p)
  {
    ReachableInv(s);
    var loc :| InvAt(s, loc);
    HeldFact(s.workers, s.fibers, loc, w, f);
    forall p | TokenAt(s, Fib(f), p)
      ensures false
    {
      TokenMatches(s, loc, Fib(f), p);
    }
  }

  /** The fiber a callback is put into is not running and has no wake-up, so
      the assertion in Fiber::reset holds and the following swapIn is safe. */
  lemma CallbackFiberIsFree(s: State, w: int, g: nat)
    requires Reachable(s) && w in s.workers && At(s, w).Got? && s.workers[w].spare == Some(g)
    ensures g in s.fibers && s.fibers[g] == INIT && !Held(s.workers, g)
    ensures forall p :: !TokenAt(s, Fib(g), p)
  {
    ReachableInv(s);
    var loc :| InvAt(s, loc);
    SpareFact(s.workers, s.fibers, s.calls, loc, w, g);
    forall p | TokenAt(s, Fib(g), p)
      ensures false
    {
      TokenMatches(s, loc, Fib(g), p);
    }
  }

  lemma SpareFact(workers: map<int, Worker>, fibers: map<nat, FState>, calls: map<nat, bool>, loc: Locs, w: int, g: nat)
    requires SparesOk(workers, loc) && HoldingOk(workers, fibers, loc) && DomainOk(fibers, calls, loc)
    requires w in workers && workers[w].spare == Some(g)
    ensures g in fibers && fibers[g] == INIT && !Held(workers, g) && Has(loc, Fib(g), Spare(w))
  {}

  /** A wake-up queued while its fiber is still held (between addEvent and the
      end of YieldToHold) is skipped by every worker, and stays queued. */
  lemma EarlyWakeIsSkipped(s: State, i: nat, v: int, w: int)
    requires Reachable(s) && i < |s.queue| && s.queue[i].FiberTask?
    requires v in s.workers && HeldBy(s.workers[v]) == Some(s.queue[i].f)
    ensures s.queue[i].f in s.fibers && s.fibers[s.queue[i].f] == EXEC && !Eligible(s.queue[i], s.fibers, w)
  {
    ReachableInv(s);
    var loc :| InvAt(s, loc);
    var f := s.queue[i].f;
    HeldFact(s.workers, s.fibers, loc, v, f);
    assert TokenAt(s, Fib(f), AtQueue(i));
    TokenMatches(s, loc, Fib(f), AtQueue(i));
  }

  /** The two counters in every reachable state. */
  lemma CountersAreExact(s: State)
    requires Reachable(s)
    ensures s.active == |set w | w in s.workers && Busy(s.workers[w].pc)|
    ensures s.pending == |s.slots| + s.owed
  {
    ReachableInv(s);
    assert BusySet(s.workers) == set w | w in s.workers && Busy(s.workers[w].pc);
  }

  /* ---------- conservation ---------- */

  /** Where an accepted fiber is.  Holding: in the hands of one worker, without
      having registered a wake-up.  KeptBy: a finished callback fiber kept for
      reuse.  Dropped: its event was removed with delEvent. */
  datatype Status = Waiting(p: Place) | Holding(w: int) | Finished | KeptBy(w: int) | Dropped

  /** The holder has only the yield, or the marking as HOLD, left to do. */
  predicate HasParked(pc: Pc, st: FState) {
    (pc.Run? && pc.parked) || ((pc.After? || pc.Post?) && st == EXEC)
  }

  ghost predicate HasStatus(s: State, f: nat, x: Status)
    requires f in s.fibers
  {
    match x
    case Waiting(p) => TokenAt(s, Fib(f), p)
    case Holding(w) => w in s.workers && HeldBy(s.workers[w]) == Some(f) && !HasParked(s.workers[w].pc, s.fibers[f])
    case Finished => Ended(s.fibers[f]) && !Held(s.workers, f)
    case KeptBy(w) => w in s.workers && s.workers[w].spare == Some(f)
    case Dropped => f in s.lost
  }

  /** What a status says about the place of the token. */
  lemma StatusMatches(s: State, loc: Locs, f: nat, x: Status)
    requires InvAt(s, loc) && f in s.fibers && HasStatus(s, f, x)
    ensures Fib(f) in loc
    ensures match x
            case Waiting(p) => Matches(p, loc[Fib(f)])
            case Holding(w) => loc[Fib(f)].Nowhere?
            case Finished => loc[Fib(f)].Nowhere?
            case KeptBy(w) => loc[Fib(f)] == Spare(w)
            case Dropped => loc[Fib(f)].Lost?
  {
    match x
    case Waiting(p) => TokenMatches(s, loc, Fib(f), p);
    case Holding(w) => HeldFact(s.workers, s.fibers, loc, w, f);
    case Finished =>
    case KeptBy(w) => SpareFact(s.workers, s.fibers, s.calls, loc, w, f);
    case Dropped => assert Has(loc, Fib(f), Lost);
  }

  /** The place loc names really holds the token. */
  lemma TokenExists(s: State, loc: Locs, u: Work) returns (p: Place)
    requires PlacesOk(s, loc) && u in loc
    requires !loc[u].Nowhere? && !loc[u].Spare? && !loc[u].Lost? && (loc[u].Hand? ==> u.Fib?)
    ensures TokenAt(s, u, p)
  {
    match loc[u]
    case Hand => p := AtHand;
    case Queue(d) =>
      assert Has(loc, u, Queue(d)) && InQueue(s.queue, u);
      var i :| 0 <= i < |s.queue| && TaskWork(s.queue[i]) == Some(u);
      p := AtQueue(i);
    case Slot(k) => assert Has(loc, u, Slot(k)); p := AtSlot(k);
    case Timer(t) => assert Has(loc, u, Timer(t)); p := AtTimer(t);
    case Batch(w) =>
      assert Has(loc, u, Batch(w)) && BatchOk(w, BatchOf(s.workers[w]), loc);
      assert InBatch(BatchOf(s.workers[w]), u);
      var i :| 0 <= i < |BatchOf(s.workers[w])| && Carried(BatchOf(s.workers[w])[i]) == Some(u);
      p := AtBatch(w, i);
    case Job(w) => assert Has(loc, u, Job(w)); p := AtJob(w);
  }

  lemma StatusExists(s: State, loc: Locs, f: nat) returns (x: Status)
    requires InvAt(s, loc) && f in s.fibers
    ensures HasStatus(s, f, x)
  {
    var l := FiberLoc(s.workers, s.fibers, loc, f);
    if l.Nowhere? {
      if Held(s.workers, f) {
        var w :| w in s.workers && HeldBy(s.workers[w]) == Some(f);
        HeldFact(s.workers, s.fibers, loc, w, f);
        x := Holding(w);
      } else {
        x := Finished;
      }
    } else if l.Spare? {
      assert Has(loc, Fib(f), Spare(l.w));
      x := KeptBy(l.w);
    } else if l.Lost? {
      assert Has(loc, Fib(f), Lost);
      x := Dropped;
    } else {
      var p := TokenExists(s, loc, Fib(f));
      x := Waiting(p);
    }
  }

  lemma FiberLoc(workers: map<int, Worker>, fibers: map<nat, FState>, loc: Locs, f: nat) returns (l: Loc)
    requires HoldingOk(workers, fibers, loc) && f in fibers
    ensures Fib(f) in loc && loc[Fib(f)] == l
    ensures l.Nowhere? && !Held(workers, f) ==> Ended(fibers[f])
  {
    if Held(workers, f) {
      var w :| w in workers && HeldBy(workers[w]) == Some(f);
      HeldFact(workers, fibers, loc, w, f);
    }
    l := loc[Fib(f)];
  }

  /** Every fiber ever created has exactly one status: it is waiting at exactly
      one place, or in the hands of exactly one worker, or finished, or kept, or
      dropped; nothing is lost and nothing is duplicated. */
  lemma FiberConservation(s: State, f: nat) returns (x: Status)
    requires Reachable(s) && f in s.fibers
    ensures HasStatus(s, f, x)
    ensures forall y :: HasStatus(s, f, y) ==> y == x
  {
    ReachableInv(s);
    var loc :| InvAt(s, loc);
    x := StatusExists(s, loc, f);
    StatusMatches(s, loc, f, x);
    forall y | HasStatus(s, f, y)
      ensures y == x
    {
      StatusMatches(s, loc, f, y);
      if x.Waiting? && y.Waiting? {
        SingleToken(s, Fib(f), x.p, y.p);
      }
    }
  }

  /** A callback is waiting at exactly one place, or has been entered (or
      cancelled) and waits nowhere. */
  lemma CallConservation(s: State, c: nat)
    requires Reachable(s) && c in s.calls
    ensures !s.calls[c] <==> exists p :: TokenAt(s, Call(c), p)
    ensures forall p, q :: TokenAt(s, Call(c), p) && TokenAt(s, Call(c), q) ==> p == q
  {
    ReachableInv(s);
    var loc :| InvAt(s, loc);
    if !s.calls[c] {
      var p := TokenExists(s, loc, Call(c));
    }
    forall p | TokenAt(s, Call(c), p)
      ensures !s.calls[c]
    {
      TokenMatches(s, loc, Call(c), p);
    }
    forall p, q | TokenAt(s, Call(c), p) && TokenAt(s, Call(c), q)
      ensures p == q
    {
      SingleToken(s, Call(c), p, q);
    }
  }
}
