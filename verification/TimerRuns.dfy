/** What any sequence of timer operations does: a plain list of records that the ordered set refines, and no
    missed wake-up over whole runs. */
module TimerRuns {
  import opened Wrappers
  import opened Timers

  /* ---------- the operations on a plain list ---------- */

  /** A timer as its owner sees it; queued: it is in the set. */
  datatype Entry = Entry(addr: nat, ms: uint64, next: uint64, cb: Option<nat>, recurring: bool, queued: bool)

  /** The timers in the order they were made, and what the manager keeps beside them. */
  datatype View = View(timers: seq<Entry>, tickled: bool, seen: nat, notices: nat, previous: uint64)

  /** An operation on a manager; a timer is named by its number among those made so far. */
  datatype Call =
    | Add(addr: nat, ms: uint64, cb: Option<nat>, recurring: bool)
    | CancelOf(i: nat)
    | RefreshOf(i: nat)
    | ResetOf(i: nat, ms: uint64, fromNow: bool)
    | Look
    | Expire(probe: nat, saw: bool)

  /** An operation and the time it has read; the operations are in the order of their locks. */
  datatype Timed = Timed(call: Call, now: uint64)

  function Start(now: uint64): (v: View) {
    View([], false, WORD, 0, now)
  }

  /** No queued timer is before timer i. */
  predicate First(ts: seq<Entry>, i: nat)
    requires i < |ts|
  {
    forall j :: 0 <= j < |ts| && j != i && ts[j].queued ==> Less(ts[i].next, ts[i].addr, ts[j].next, ts[j].addr)
  }

  /** A notice, if timer i is now the first and none was given since the last look. */
  function Announced(v: View, i: nat): (v': View)
    requires i < |v.timers|
  {
    if !v.tickled && First(v.timers, i) then v.(tickled := true, notices := v.notices + 1) else v
  }

  /** The earliest deadline of a queued timer; WORD if there is none. */
  function Earliest(ts: seq<Entry>): (d: nat)
    ensures d <= WORD && forall i :: 0 <= i < |ts| && ts[i].queued ==> d <= ts[i].next
    ensures d < WORD ==> exists i :: 0 <= i < |ts| && ts[i].queued && ts[i].next == d
  {
    if ts == [] then WORD
    else
      var t, d := ts[|ts| - 1], Earliest(ts[..|ts| - 1]);
      if t.queued && t.next < d then t.next else d
  }

  /** The clock went back by more than an hour, or at all within the first hour of its count. */
  predicate Rolled(previous: uint64, now: uint64) {
    now < previous && (previous < 3600000 || now < previous - 3600000)
  }

  predicate Due(t: Entry, now: uint64, all: bool) {
    t.queued && (all || t.next <= now)
  }

  /** A timer when the due ones have been handed out. */
  function Served(t: Entry, now: uint64, all: bool): (t': Entry) {
    if !Due(t, now, all) then t
    else if t.recurring then t.(next := Deadline(now, t.ms))
    else t.(cb := None, queued := false)
  }

  function AllServed(ts: seq<Entry>, now: uint64, all: bool): (r: seq<Entry>)
    ensures |r| == |ts| && forall i :: 0 <= i < |ts| ==> r[i] == Served(ts[i], now, all)
  {
    seq(|ts|, i requires 0 <= i < |ts| => Served(ts[i], now, all))
  }

  predicate Used(ts: seq<Entry>, addr: nat) {
    exists i :: 0 <= i < |ts| && ts[i].addr == addr
  }

  /** Timer i with a new period. */
  function Restarted(t: Entry, ms: uint64, fromNow: bool, now: uint64): (t': Entry) {
    t.(ms := ms, next := Deadline(if fromNow then now else (t.next - t.ms) % WORD, ms))
  }

  function Step(v: View, c: Timed): (v': View) {
    match c.call
    case Add(addr, ms, cb, recurring) =>
      if Used(v.timers, addr) then v
      else Announced(v.(timers := v.timers + [Entry(addr, ms, Deadline(c.now, ms), cb, recurring, true)]), |v.timers|)
    case CancelOf(i) =>
      if i < |v.timers| && v.timers[i].cb.Some?
      then v.(timers := v.timers[i := v.timers[i].(cb := None, queued := false)]) else v
    case RefreshOf(i) =>
      if i < |v.timers| && v.timers[i].cb.Some?
      then v.(timers := v.timers[i := v.timers[i].(next := Deadline(c.now, v.timers[i].ms))]) else v
    case ResetOf(i, ms, fromNow) =>
      if i < |v.timers| && v.timers[i].cb.Some? && (fromNow || ms != v.timers[i].ms)
      then Announced(v.(timers := v.timers[i := Restarted(v.timers[i], ms, fromNow, c.now)]), i) else v
    case Look => v.(tickled := false, seen := Earliest(v.timers))
    case Expire(_, saw) =>
      if saw then v.(previous := c.now, timers := AllServed(v.timers, c.now, Rolled(v.previous, c.now))) else v
  }

  /** The expiry that looks at the first timer of an empty set. */
  predicate Undefines(v: View, c: Timed) {
    c.call.Expire? && c.call.saw && !Rolled(v.previous, c.now) &&
    forall i :: 0 <= i < |v.timers| ==> !v.timers[i].queued
  }

  /** After these operations. */
  function After(start: uint64, calls: seq<Timed>): (v: View) {
    if calls == [] then Start(start) else Step(After(start, calls[..|calls| - 1]), calls[|calls| - 1])
  }

  /* ---------- no missed wake-up ---------- */

  /** A deadline before the one a sleeper knows of has been announced. */
  predicate Watched(v: View) {
    v.tickled || forall i :: 0 <= i < |v.timers| && v.timers[i].queued ==> v.timers[i].next >= v.seen
  }

  /** A timer with a callback is queued. */
  predicate Regular(v: View) {
    forall i :: 0 <= i < |v.timers| && v.timers[i].cb.Some? ==> v.timers[i].queued
  }

  /** A timer put back without a notice, before the deadline a sleeper knows of. */
  predicate Misses(v: View, c: Timed) {
    && !v.tickled
    && match c.call
       case RefreshOf(i) =>
         i < |v.timers| && v.timers[i].cb.Some? && Deadline(c.now, v.timers[i].ms) < v.seen
       case Expire(_, saw) =>
         saw && exists i :: 0 <= i < |v.timers| && Due(v.timers[i], c.now, Rolled(v.previous, c.now)) &&
                            v.timers[i].recurring && Deadline(c.now, v.timers[i].ms) < v.seen
       case _ => false
  }

  lemma AnnouncedWatched(v: View, i: nat, v': View)
    requires i < |v.timers| && v' == Announced(v, i) && Regular(v)
    requires v.tickled || forall j :: 0 <= j < |v.timers| && j != i && v.timers[j].queued ==> v.timers[j].next >= v.seen
    requires v.timers[i].queued
    ensures Watched(v') && Regular(v')
  {
  }

  lemma ExpireWatched(v: View, c: Timed)
    requires Regular(v) && Watched(v) && c.call.Expire?
    ensures Regular(Step(v, c)) && (Watched(Step(v, c)) <==> !Misses(v, c))
  {
    var v', all := Step(v, c), Rolled(v.previous, c.now);
    if c.call.saw && !v.tickled {
      forall i | 0 <= i < |v.timers| && v'.timers[i].queued && v'.timers[i].next < v'.seen
        ensures Due(v.timers[i], c.now, all) && v.timers[i].recurring && Deadline(c.now, v.timers[i].ms) < v.seen
      {
        assert v'.timers[i] == Served(v.timers[i], c.now, all);
      }
      if Misses(v, c) {
        var i :| 0 <= i < |v.timers| && Due(v.timers[i], c.now, all) &&
                 v.timers[i].recurring && Deadline(c.now, v.timers[i].ms) < v.seen;
        assert v'.timers[i] == Served(v.timers[i], c.now, all);
      }
    }
  }

  /** Every operation keeps the watch but the two that put a timer back without a notice, and these lose it
      exactly if its deadline is before the one the sleeper knows of. */
  lemma StepWatched(v: View, c: Timed)
    requires Regular(v) && Watched(v)
    ensures Regular(Step(v, c)) && (Watched(Step(v, c)) <==> !Misses(v, c))
  {
    match c.call
    case Add(addr, ms, cb, recurring) =>
      if !Used(v.timers, addr) {
        var w := v.(timers := v.timers + [Entry(addr, ms, Deadline(c.now, ms), cb, recurring, true)]);
        AnnouncedWatched(w, |v.timers|, Step(v, c));
      }
    case CancelOf(i) =>
    case RefreshOf(i) =>
      if i < |v.timers| && v.timers[i].cb.Some? {
        assert Step(v, c).timers[i].next == Deadline(c.now, v.timers[i].ms);
      }
    case ResetOf(i, ms, fromNow) =>
      if i < |v.timers| && v.timers[i].cb.Some? && (fromNow || ms != v.timers[i].ms) {
        var w := v.(timers := v.timers[i := Restarted(v.timers[i], ms, fromNow, c.now)]);
        AnnouncedWatched(w, i, Step(v, c));
      }
    case Look =>
    case Expire(_, saw) => ExpireWatched(v, c);
  }

  /** A timer that, if it is queued, was set by a time not after the clock. */
  predicate InBounds(t: Entry, clock: nat, longest: nat) {
    t.ms <= longest && (t.queued ==> t.ms <= t.next <= clock + t.ms)
  }

  /** All are, and no deadline is beyond the word. */
  predicate Bounded(v: View, clock: nat, longest: nat) {
    clock + longest < WORD && forall i :: 0 <= i < |v.timers| ==> InBounds(v.timers[i], clock, longest)
  }

  function Greater(a: nat, b: nat): (c: nat) {
    if a < b then b else a
  }

  /** No period is longer than that. */
  predicate AtMost(c: Call, longest: nat) {
    match c
    case Add(_, ms, _, _) => ms <= longest
    case ResetOf(_, ms, _) => ms <= longest
    case _ => true
  }

  /** What the clock must not do, where previous is the time of the last expiry and clock the latest time any
      operation has read: go back for a refresh, which reads it under the lock; or roll over for an expiry. */
  predicate Allowed(previous: uint64, clock: nat, c: Timed, longest: nat) {
    && AtMost(c.call, longest) && c.now + longest < WORD
    && (c.call.RefreshOf? ==> clock <= c.now)
    && (c.call.Expire? ==> !Rolled(previous, c.now))
  }

  lemma StepBounded(v: View, c: Timed, clock: nat, longest: nat)
    requires Regular(v) && Bounded(v, clock, longest) && Allowed(v.previous, clock, c, longest)
    ensures Bounded(Step(v, c), Greater(clock, c.now), longest)
  {
    var v', later := Step(v, c), Greater(clock, c.now);
    forall i | 0 <= i < |v'.timers|
      ensures InBounds(v'.timers[i], later, longest)
    {
      if i < |v.timers| {
        EntryBounded(v, c, clock, longest, i);
      }
    }
  }

  lemma EntryBounded(v: View, c: Timed, clock: nat, longest: nat, i: nat)
    requires Regular(v) && Bounded(v, clock, longest) && Allowed(v.previous, clock, c, longest) && i < |v.timers|
    ensures |v.timers| <= |Step(v, c).timers| && InBounds(Step(v, c).timers[i], Greater(clock, c.now), longest)
  {
    var t := v.timers[i];
    assert InBounds(t, clock, longest);
    if c.call.ResetOf? && t.queued {
      RestartedBounded(t, c, clock, longest);
    }
  }

  lemma RestartedBounded(t: Entry, c: Timed, clock: nat, longest: nat)
    requires InBounds(t, clock, longest) && t.queued && clock + longest < WORD && c.call.ResetOf?
    requires c.call.ms <= longest && c.now + longest < WORD
    ensures InBounds(Restarted(t, c.call.ms, c.call.fromNow, c.now), Greater(clock, c.now), longest)
  {
  }

  lemma NothingMissed(v: View, c: Timed, clock: nat, longest: nat)
    requires Regular(v) && Watched(v) && Bounded(v, clock, longest) && Allowed(v.previous, clock, c, longest)
    ensures !Misses(v, c)
  {
    if c.call.RefreshOf? && c.call.i < |v.timers| {
      assert v.timers[c.call.i].ms <= longest;
    }
    if c.call.Expire? {
      assert forall i :: 0 <= i < |v.timers| ==> v.timers[i].ms <= longest;
    }
  }

  /** The latest time any of the operations has read. */
  function Latest(start: uint64, calls: seq<Timed>): (t: nat) {
    if calls == [] then start else Greater(Latest(start, calls[..|calls| - 1]), calls[|calls| - 1].now)
  }

  /** The time of the last expiry that has seen a timer. */
  function LastExpiry(start: uint64, calls: seq<Timed>): (t: uint64) {
    if calls == [] then start
    else
      var c := calls[|calls| - 1];
      if c.call.Expire? && c.call.saw then c.now else LastExpiry(start, calls[..|calls| - 1])
  }

  /** A run with a clock that does neither, and no deadline beyond the word. */
  ghost predicate Fair(start: uint64, calls: seq<Timed>, longest: nat) {
    && start + longest < WORD
    && forall i :: 0 <= i < |calls| ==>
         Allowed(LastExpiry(start, calls[..i]), Latest(start, calls[..i]), calls[i], longest)
  }

  lemma {:induction false} PreviousIs(start: uint64, calls: seq<Timed>)
    ensures After(start, calls).previous == LastExpiry(start, calls)
  {
    if calls != [] {
      PreviousIs(start, calls[..|calls| - 1]);
    }
  }

  lemma FairBefore(start: uint64, calls: seq<Timed>, longest: nat)
    requires Fair(start, calls, longest) && calls != []
    ensures Fair(start, calls[..|calls| - 1], longest)
  {
    var cs := calls[..|calls| - 1];
    forall i | 0 <= i < |cs|
      ensures Allowed(LastExpiry(start, cs[..i]), Latest(start, cs[..i]), cs[i], longest)
    {
      assert cs[..i] == calls[..i];
    }
  }

  lemma {:induction false} FairRun(start: uint64, calls: seq<Timed>, longest: nat)
    requires Fair(start, calls, longest)
    ensures Regular(After(start, calls)) && Watched(After(start, calls))
    ensures Bounded(After(start, calls), Latest(start, calls), longest)
  {
    if calls != [] {
      var cs, c := calls[..|calls| - 1], calls[|calls| - 1];
      FairBefore(start, calls, longest);
      FairRun(start, cs, longest);
      PreviousIs(start, cs);
      NothingMissed(After(start, cs), c, Latest(start, cs), longest);
      StepWatched(After(start, cs), c);
      StepBounded(After(start, cs), c, Latest(start, cs), longest);
    }
  }

  lemma {:induction false} FairPart(start: uint64, calls: seq<Timed>, longest: nat, n: nat)
    requires Fair(start, calls, longest) && n <= |calls|
    ensures Fair(start, calls[..n], longest)
    decreases |calls|
  {
    if n < |calls| {
      FairBefore(start, calls, longest);
      FairPart(start, calls[..|calls| - 1], longest, n);
      assert calls[..|calls| - 1][..n] == calls[..n];
    } else {
      assert calls[..n] == calls;
    }
  }

  /** No missed wake-up: at every moment of a fair run, a deadline before the one the last look has seen has been
      announced. */
  lemma NoMissedWakeUp(start: uint64, calls: seq<Timed>, longest: nat, n: nat)
    requires Fair(start, calls, longest) && n <= |calls|
    ensures Watched(After(start, calls[..n]))
  {
    FairPart(start, calls, longest, n);
    FairRun(start, calls[..n], longest);
  }

  /** The notices at the last look. */
  function Looked(start: uint64, calls: seq<Timed>): (n: nat) {
    if calls == [] then 0
    else if calls[|calls| - 1].call.Look? then After(start, calls).notices
    else Looked(start, calls[..|calls| - 1])
  }

  lemma StepNotices(v: View, c: Timed)
    ensures var v' := Step(v, c);
            && (c.call.Look? ==> v'.notices == v.notices && !v'.tickled)
            && (!c.call.Look? ==> (v.tickled ==> v'.tickled) &&
                                  v'.notices == v.notices + if v'.tickled && !v.tickled then 1 else 0)
  {
  }

  /** Between two looks there is at most one notice, in every run. */
  lemma {:induction false} OneNoticePerLook(start: uint64, calls: seq<Timed>)
    ensures var v := After(start, calls); v.notices == Looked(start, calls) + (if v.tickled then 1 else 0)
  {
    if calls != [] {
      OneNoticePerLook(start, calls[..|calls| - 1]);
      StepNotices(After(start, calls[..|calls| - 1]), calls[|calls| - 1]);
    }
  }

  /* ---------- the ordered set does the same ---------- */

  /** The record of a timer. */
  ghost function EntryOf(m: TimerManager, t: Timer): (e: Entry)
    reads m`timers, t
  {
    Entry(t.addr, t.ms, t.next, t.cb, t.recurring, t in m.timers)
  }

  ghost predicate Distinct(ts: seq<Timer>) {
    forall i, j :: 0 <= i < j < |ts| ==> ts[i] != ts[j]
  }

  /** The timers of the manager, made in that order, and their records. */
  ghost predicate Records(m: TimerManager, made: seq<Timer>, ts: seq<Entry>)
    reads m, m.all
  {
    && m.Valid() && m.all == (set t | t in made) && Distinct(made)
    && |ts| == |made| && forall i :: 0 <= i < |made| ==> made[i] in m.all && ts[i] == EntryOf(m, made[i])
  }

  /** The manager is what v says. */
  ghost predicate Shows(m: TimerManager, made: seq<Timer>, v: View)
    reads m, m.all
  {
    && Records(m, made, v.timers)
    && v.tickled == m.tickled && v.seen == m.seen && v.notices == m.notices && v.previous == m.previous
  }

  /** The number of a timer in the set. */
  lemma Made(m: TimerManager, made: seq<Timer>, t: Timer) returns (j: nat)
    requires m.Valid() && m.all == (set u | u in made) && t in m.timers
    ensures j < |made| && made[j] == t
  {
    assert t in m.all;
    j :| 0 <= j < |made| && made[j] == t;
  }

  lemma ForemostIs(m: TimerManager, made: seq<Timer>, ts: seq<Entry>, i: nat)
    requires Records(m, made, ts) && i < |made|
    ensures First(ts, i) <==> m.Foremost(made[i])
  {
    if First(ts, i) {
      forall u | u in m.timers && u != made[i]
        ensures Less(made[i].next, made[i].addr, u.next, u.addr)
      {
        var j := Made(m, made, u);
        assert ts[j] == EntryOf(m, u) && ts[i] == EntryOf(m, made[i]);
      }
    }
    if m.Foremost(made[i]) {
      forall j | 0 <= j < |ts| && j != i && ts[j].queued
        ensures Less(ts[i].next, ts[i].addr, ts[j].next, ts[j].addr)
      {
        assert ts[j] == EntryOf(m, made[j]) && ts[i] == EntryOf(m, made[i]) && made[i] != made[j];
      }
    }
  }

  lemma EarliestIs(m: TimerManager, made: seq<Timer>, ts: seq<Entry>)
    requires Records(m, made, ts)
    ensures Earliest(ts) == if m.timers == [] then WORD else m.timers[0].next
  {
    if m.timers != [] {
      FirstIsEarliest(m.timers);
      var j := Made(m, made, m.timers[0]);
      assert ts[j] == EntryOf(m, made[j]);
    }
    if Earliest(ts) < WORD {
      var i :| 0 <= i < |ts| && ts[i].queued && ts[i].next == Earliest(ts);
      assert ts[i] == EntryOf(m, made[i]);
    }
  }

  method PerformAdd(m: TimerManager, made: seq<Timer>, ghost v: View, addr: nat, ms: uint64, cb: Option<nat>,
                    recurring: bool, now: uint64)
    returns (made': seq<Timer>)
    requires Shows(m, made, v)
    modifies m
    ensures Shows(m, made', Step(v, Timed(Add(addr, ms, cb, recurring), now))) && fresh(m.all - old(m.all))
  {
    made' := made;
    assert Used(v.timers, addr) <==> exists t :: t in made && t.addr == addr;
    if forall t :: t in made ==> t.addr != addr {
      var t := AddNew(m, made, v.timers, addr, ms, cb, recurring, now);
      made' := made + [t];
    }
  }

  method AddNew(m: TimerManager, made: seq<Timer>, ghost ts: seq<Entry>, addr: nat, ms: uint64, cb: Option<nat>,
                recurring: bool, now: uint64)
    returns (t: Timer)
    requires Records(m, made, ts) && forall u :: u in made ==> u.addr != addr
    modifies m`timers, m`tickled, m`notices, m`all, m`clock
    ensures fresh(t) && m.all == old(m.all) + {t}
    ensures var ts' := ts + [Entry(addr, ms, Deadline(now, ms), cb, recurring, true)];
            && Records(m, made + [t], ts')
            && (m.tickled <==> old(m.tickled) || First(ts', |ts|))
            && m.notices == old(m.notices) + if m.tickled && !old(m.tickled) then 1 else 0
  {
    t := m.AddTimer(addr, ms, cb, recurring, now);
    ghost var ts' := ts + [Entry(addr, ms, Deadline(now, ms), cb, recurring, true)];
    assert Records(m, made + [t], ts');
    ForemostIs(m, made + [t], ts', |ts|);
  }

  method PerformCancel(m: TimerManager, made: seq<Timer>, ghost v: View, i: nat, now: uint64)
    requires Shows(m, made, v)
    modifies m, m.all
    ensures Shows(m, made, Step(v, Timed(CancelOf(i), now))) && m.all == old(m.all)
  {
    if i < |made| {
      var done := m.Cancel(made[i]);
    }
  }

  method PerformRefresh(m: TimerManager, made: seq<Timer>, ghost v: View, i: nat, now: uint64)
    requires Shows(m, made, v)
    modifies m, m.all
    ensures Shows(m, made, Step(v, Timed(RefreshOf(i), now))) && m.all == old(m.all)
  {
    if i < |made| {
      var done := m.Refresh(made[i], now);
    }
  }

  method PerformReset(m: TimerManager, made: seq<Timer>, ghost v: View, i: nat, ms: uint64, fromNow: bool, now: uint64)
    requires Shows(m, made, v)
    modifies m, m.all
    ensures Shows(m, made, Step(v, Timed(ResetOf(i, ms, fromNow), now))) && m.all == old(m.all)
  {
    if i < |made| {
      var done := m.Reset(made[i], ms, fromNow, now);
      if v.timers[i].cb.Some? && (fromNow || ms != v.timers[i].ms) {
        ghost var ts := v.timers[i := Restarted(v.timers[i], ms, fromNow, now)];
        assert Records(m, made, ts);
        ForemostIs(m, made, ts, i);
      }
    }
  }

  method PerformLook(m: TimerManager, made: seq<Timer>, ghost v: View, now: uint64)
    requires Shows(m, made, v)
    modifies m
    ensures Shows(m, made, Step(v, Timed(Look, now))) && m.all == old(m.all)
  {
    EarliestIs(m, made, v.timers);
    var wait := m.GetNextTimer(now);
  }

  /** The timers handed out are the due ones, whatever their number. */
  lemma DueMembers(ts: seq<Timer>, k: nat, now: uint64, all: bool)
    requires Sorted(ts) && DueUpTo(ts, k, now, all)
    ensures forall t :: t in ts[..k] <==> t in ts && (all || t.next <= now)
    ensures forall t :: t in ts[k..] <==> t in ts && !(all || t.next <= now)
  {
    TakeFront(ts, k);
  }

  lemma SetIsEmpty(m: TimerManager, made: seq<Timer>, ts: seq<Entry>)
    requires Records(m, made, ts)
    ensures m.timers == [] <==> forall i :: 0 <= i < |ts| ==> !ts[i].queued
  {
    if m.timers != [] {
      var j := Made(m, made, m.timers[0]);
      assert ts[j] == EntryOf(m, made[j]);
    }
  }

  /** The timers that are due. */
  ghost function DueSet(m: TimerManager, now: uint64, saw: bool): (due: set<Timer>)
    reads m, m.timers
  {
    set t | t in m.timers && saw && (m.RolledOver(now) || t.next <= now)
  }

  /** listExpiredCb, by the set of timers it hands out. */
  method ListDue(m: TimerManager, probe: nat, saw: bool, now: uint64, ghost due: set<Timer>) returns (r: Expiry)
    requires m.Valid() && due == DueSet(m, now, saw)
    modifies m`timers, m`previous, m`clock, m.timers`next, m.timers`cb
    ensures m.Valid() && m.previous == (if saw then now else old(m.previous))
    ensures r.Undefined? <==> saw && old(m.timers) == [] && !old(m.RolledOver(now))
    ensures forall t :: t in due ==> t.cb == if t.recurring then old(t.cb) else None
    ensures forall t :: t in due ==> t.next == if t.recurring then Deadline(now, t.ms) else old(t.next)
    ensures forall t :: t in old(m.timers) && t !in due ==> t.next == old(t.next) && t.cb == old(t.cb)
    ensures forall t :: t in m.timers <==> t in old(m.timers) && (t !in due || t.recurring)
  {
    ghost var was := m.timers;
    forall k: nat | saw && DueUpTo(was, k, now, m.RolledOver(now))
      ensures forall t :: (t in was[..k] <==> t in due) && (t in was[k..] <==> t in was && t !in due)
    {
      DueMembers(was, k, now, m.RolledOver(now));
    }
    ghost var k;
    r, k := m.ListExpired(now, probe, saw);
    assert !saw ==> was[..k] == [] && was[k..] == was;
  }

  method PerformExpire(m: TimerManager, made: seq<Timer>, ghost v: View, probe: nat, saw: bool, now: uint64)
    returns (r: Expiry)
    requires Shows(m, made, v)
    modifies m, m.all
    ensures Shows(m, made, Step(v, Timed(Expire(probe, saw), now))) && m.all == old(m.all)
    ensures r.Undefined? <==> Undefines(v, Timed(Expire(probe, saw), now))
  {
    ghost var due, all := DueSet(m, now, saw), m.RolledOver(now);
    SetIsEmpty(m, made, v.timers);
    assert forall i :: 0 <= i < |made| ==> (made[i] in due <==> saw && Due(v.timers[i], now, all));
    r := ListDue(m, probe, saw, now, due);
  }

  /** One operation. */
  method Perform(m: TimerManager, made: seq<Timer>, ghost v: View, c: Timed)
    returns (made': seq<Timer>, undefined: bool)
    requires Shows(m, made, v)
    modifies m, m.all
    ensures Shows(m, made', Step(v, c)) && fresh(m.all - old(m.all)) && (undefined <==> Undefines(v, c))
  {
    made', undefined := made, false;
    match c.call
    case Add(addr, ms, cb, recurring) => made' := PerformAdd(m, made, v, addr, ms, cb, recurring, c.now);
    case CancelOf(i) => PerformCancel(m, made, v, i, c.now);
    case RefreshOf(i) => PerformRefresh(m, made, v, i, c.now);
    case ResetOf(i, ms, fromNow) => PerformReset(m, made, v, i, ms, fromNow, c.now);
    case Look => PerformLook(m, made, v, c.now);
    case Expire(probe, saw) =>
      var r := PerformExpire(m, made, v, probe, saw, c.now);
      undefined := r.Undefined?;
  }

  lemma AfterNext(start: uint64, calls: seq<Timed>, i: nat)
    requires i < |calls|
    ensures After(start, calls[..i + 1]) == Step(After(start, calls[..i]), calls[i])
  {
    assert calls[..i + 1][..i] == calls[..i];
  }

  predicate UndefinesAt(start: uint64, calls: seq<Timed>, i: nat)
    requires i < |calls|
  {
    Undefines(After(start, calls[..i]), calls[i])
  }

  method PerformNext(m: TimerManager, made: seq<Timer>, ghost start: uint64, calls: seq<Timed>, i: nat)
    returns (made': seq<Timer>, undefined: bool)
    requires i < |calls| && Shows(m, made, After(start, calls[..i]))
    modifies m, m.all
    ensures Shows(m, made', After(start, calls[..i + 1])) && fresh(m.all - old(m.all))
    ensures undefined <==> UndefinesAt(start, calls, i)
  {
    made', undefined := Perform(m, made, After(start, calls[..i]), calls[i]);
    AfterNext(start, calls, i);
  }

  /** Any operations on a new manager, at any times, do to the ordered set what they do to the plain list. */
  method Drive(start: uint64, calls: seq<Timed>) returns (m: TimerManager, made: seq<Timer>, undefined: seq<bool>)
    ensures fresh(m) && Shows(m, made, After(start, calls)) && |undefined| == |calls|
    ensures forall i :: 0 <= i < |calls| ==> (undefined[i] <==> UndefinesAt(start, calls, i))
  {
    m := new TimerManager(start);
    made, undefined := [], [];
    for i := 0 to |calls|
      invariant fresh(m) && fresh(m.all) && Shows(m, made, After(start, calls[..i])) && |undefined| == i
      invariant forall j :: 0 <= j < i ==> (undefined[j] <==> UndefinesAt(start, calls, j))
    {
      var u;
      made, u := PerformNext(m, made, start, calls, i);
      undefined := undefined + [u];
    }
    assert calls[..|calls|] == calls;
  }

  /** The watch of the plain list is the watch of the manager. */
  lemma WatchedIs(m: TimerManager, made: seq<Timer>, v: View)
    requires Shows(m, made, v)
    ensures Watched(v) <==> m.Watched()
  {
    if Watched(v) && !v.tickled {
      forall t | t in m.timers
        ensures t.next >= m.seen
      {
        var j := Made(m, made, t);
        assert v.timers[j] == EntryOf(m, made[j]);
      }
    }
    if m.Watched() && !m.tickled {
      assert forall i :: 0 <= i < |made| ==> v.timers[i] == EntryOf(m, made[i]);
    }
  }

  /* ---------- it happens ---------- */

  /** A timer of 100 ms set at 1000; looked at; refreshed at 500, for the clock has gone back. It is due at 600, the
      sleeper knows of 1100, and no notice is given. */
  lemma RefreshCanBeMissed(calls: seq<Timed>)
    requires calls == [Timed(Add(0, 100, Some(7), false), 1000), Timed(Look, 1000), Timed(RefreshOf(0), 500)]
    ensures Misses(After(1000, calls[..2]), calls[2]) && !Watched(After(1000, calls))
    ensures var v := After(1000, calls); v.seen == 1100 && v.timers[0].next == 600 && !v.tickled
  {
    var v := After(1000, calls[..2]);
    var w := Start(1000).(timers := [Entry(0, 100, 1100, Some(7), false, true)]);
    assert calls[..1] == [calls[0]] && calls[..2][..1] == calls[..1] && calls[..1][..0] == [];
    assert After(1000, calls[..1]) == w.(tickled := true, notices := 1);
    assert Earliest(w.timers) == 1100 by {
      assert w.timers[..0] == [];
    }
    assert v == w.(seen := 1100, notices := 1);
    StepWatched(v, calls[2]);
    assert calls[..3] == calls;
  }

  /** The set is not empty when an expiry looks under its first lock; the timer is cancelled; under its second lock
      the expiry looks at the first timer of an empty set. */
  lemma ExpiryCanBeUndefined(calls: seq<Timed>)
    requires calls == [Timed(Add(0, 100, Some(7), false), 1000), Timed(CancelOf(0), 1000), Timed(Expire(1, true), 1100)]
    ensures var v := After(1000, calls[..1]); |v.timers| == 1 && v.timers[0].queued
    ensures Undefines(After(1000, calls[..2]), calls[2])
  {
    assert calls[..1] == [calls[0]] && calls[..2][..1] == calls[..1] && calls[..1][..0] == [];
  }
}
