/** TimerManager: timers ordered by deadline, with ties broken by address. */
module Timers {
  import opened Wrappers

  const WORD := 0x1_0000_0000_0000_0000

  type uint64 = x: int | 0 <= x < WORD

  /** A uint64_t sum. */
  function Deadline(start: uint64, ms: uint64): (d: uint64)
    ensures start + ms < WORD ==> d == start + ms
  {
    (start + ms) % WORD
  }

  /** A sum beyond the word wraps round. */
  lemma DeadlineWraps(start: uint64, ms: uint64)
    ensures Deadline(start, ms) == if start + ms < WORD then start + ms else start + ms - WORD
  {
  }

  function Later(a: uint64, b: uint64): (c: uint64) {
    if a < b then b else a
  }

  class Timer {
    /** Where the timer lives; no two timers live at the same place. */
    const addr: nat
    /** Whether it was made with a callback. */
    const given: bool
    var recurring: bool
    var ms: uint64
    var next: uint64
    var cb: Option<nat>

    constructor (a: nat, m: uint64, c: Option<nat>, r: bool, now: uint64)
      ensures addr == a && ms == m && cb == c && recurring == r && next == Deadline(now, m) && given == c.Some?
    {
      addr, ms, cb, recurring, given := a, m, c, r, c.Some?;
      next := Deadline(now, m);
    }
  }

  /** The comparator on a timer and the key of another. */
  predicate Less(n: nat, a: nat, n': nat, a': nat) {
    n < n' || (n == n' && a < a')
  }

  /** A std::set with the comparator. */
  ghost predicate Sorted(ts: seq<Timer>)
    reads ts
  {
    forall i, j :: 0 <= i < j < |ts| ==> Less(ts[i].next, ts[i].addr, ts[j].next, ts[j].addr)
  }

  /** The first k timers, and only those, are due: their deadline has come, or all are taken. */
  ghost predicate DueUpTo(ts: seq<Timer>, k: nat, now: nat, everything: bool)
    reads ts
  {
    k <= |ts| && forall i :: 0 <= i < |ts| ==> (i < k <==> everything || ts[i].next <= now)
  }

  /** Set anew, none of the timers has a deadline beyond the word. */
  ghost predicate NoOverflow(ts: seq<Timer>, now: nat)
    reads ts
  {
    forall t :: t in ts ==> now + t.ms < WORD
  }

  /** The callbacks of timers, in their order. */
  ghost function Callbacks(ts: seq<Timer>): (cbs: seq<Option<nat>>)
    reads ts
    ensures |cbs| == |ts| && forall i :: 0 <= i < |ts| ==> cbs[i] == ts[i].cb
  {
    seq(|ts|, i requires 0 <= i < |ts| reads ts => ts[i].cb)
  }

  /** lower_bound: the first timer that is not less than the key. */
  method LowerBound(ts: seq<Timer>, n: nat, a: nat) returns (k: nat)
    requires Sorted(ts)
    ensures k <= |ts|
    ensures forall i :: 0 <= i < k ==> Less(ts[i].next, ts[i].addr, n, a)
    ensures forall i :: k <= i < |ts| ==> !Less(ts[i].next, ts[i].addr, n, a)
  {
    k := 0;
    while k < |ts| && Less(ts[k].next, ts[k].addr, n, a)
      invariant k <= |ts|
      invariant forall i :: 0 <= i < k ==> Less(ts[i].next, ts[i].addr, n, a)
    {
      k := k + 1;
    }
  }

  /** The set without element k. */
  function Erased(ts: seq<Timer>, k: nat): (r: seq<Timer>)
    requires k < |ts|
  {
    ts[..k] + ts[k + 1..]
  }

  lemma ErasedSorted(ts: seq<Timer>, k: nat)
    requires Sorted(ts) && k < |ts|
    ensures Sorted(Erased(ts, k)) && ts[k] !in Erased(ts, k)
    ensures forall t :: t in Erased(ts, k) <==> t in ts && t != ts[k]
  {
    var r := Erased(ts, k);
    assert forall i :: 0 <= i < |r| ==> r[i] == if i < k then ts[i] else ts[i + 1];
    forall t | t in ts && t != ts[k]
      ensures t in r
    {
      var i :| 0 <= i < |ts| && ts[i] == t;
      assert i < k ==> r[i] == t;
      assert i > k ==> r[i - 1] == t;
    }
  }

  lemma TakeFront(ts: seq<Timer>, k: nat)
    requires Sorted(ts) && k <= |ts|
    ensures Sorted(ts[k..]) && (forall i, j :: 0 <= i < j < k ==> ts[..k][i] != ts[..k][j])
    ensures forall t :: t in ts <==> t in ts[..k] || t in ts[k..]
    ensures forall t :: t in ts[..k] ==> t !in ts[k..]
  {
    assert ts == ts[..k] + ts[k..];
  }

  lemma FirstIsEarliest(ts: seq<Timer>)
    requires Sorted(ts)
    ensures forall i :: 0 <= i < |ts| ==> ts[0].next <= ts[i].next
  {
    assert forall i :: 0 < i < |ts| ==> Less(ts[0].next, ts[0].addr, ts[i].next, ts[i].addr);
  }

  /** The order of the set: by deadline, and timers of the same deadline by address. */
  lemma SetOrder(ts: seq<Timer>)
    ensures Sorted(ts) <==> forall i, j :: 0 <= i < j < |ts| ==>
              ts[i].next < ts[j].next || (ts[i].next == ts[j].next && ts[i].addr < ts[j].addr)
  {
  }

  /** The first one is the one no other is before. */
  lemma FirstIsForemost(ts: seq<Timer>, k: nat)
    requires Sorted(ts) && k < |ts|
    ensures k == 0 <==> forall u :: u in ts && u != ts[k] ==> Less(ts[k].next, ts[k].addr, u.next, u.addr)
    ensures ts[0].next <= ts[k].next && (k > 0 ==> ts[0] != ts[k])
  {
    if k > 0 {
      assert Less(ts[0].next, ts[0].addr, ts[k].next, ts[k].addr);
      assert ts[0] in ts;
    }
  }

  /** insert: where the comparator puts it. */
  method Insert(ts: seq<Timer>, t: Timer) returns (r: seq<Timer>, k: nat)
    requires Sorted(ts) && forall u :: u in ts ==> u.addr != t.addr
    ensures Sorted(r) && k <= |ts| && r == ts[..k] + [t] + ts[k..]
    ensures forall u :: u in r <==> u in ts || u == t
  {
    k := LowerBound(ts, t.next, t.addr);
    r := ts[..k] + [t] + ts[k..];
    assert forall i :: 0 <= i < |r| ==> r[i] == if i < k then ts[i] else if i == k then t else ts[i - 1];
    forall u | u in ts
      ensures u in r
    {
      var i :| 0 <= i < |ts| && ts[i] == u;
      assert r[if i < k then i else i + 1] == u;
    }
  }

  /** find: the timer itself, if it is in the set. */
  method Find(ts: seq<Timer>, t: Timer) returns (k: nat)
    requires Sorted(ts) && forall u :: u in ts && u != t ==> u.addr != t.addr
    ensures k <= |ts| && (k < |ts| <==> t in ts) && (k < |ts| ==> ts[k] == t)
  {
    k := LowerBound(ts, t.next, t.addr);
    if k < |ts| && Less(t.next, t.addr, ts[k].next, ts[k].addr) {
      k := |ts|;
    }
  }

  /** What listExpiredCb hands out; Undefined when it looks at the first timer of an empty set. */
  datatype Expiry = Handed(cbs: seq<Option<nat>>) | Undefined

  class TimerManager {
    var timers: seq<Timer>
    var tickled: bool
    var previous: uint64
    /** How often onTimerInsertedtAtFront was called. */
    var notices: nat
    /** The timers that exist. */
    ghost var all: set<Timer>
    /** The earliest deadline when getNextTimer last looked; WORD if there was no timer. */
    ghost var seen: nat
    /** The latest time any operation has read. */
    ghost var clock: uint64

    ghost predicate Valid()
      reads this, all
    {
      ValidBut({})
    }

    /** A timer made with a callback is in the set exactly while the callback is there, but for those that
        are out for a moment. */
    ghost predicate ValidBut(out: set<Timer>)
      reads this, all
    {
      && previous <= clock
      && (forall t :: t in timers ==> t in all)
      && Sorted(timers)
      && (forall t, u :: t in all && u in all && t != u ==> t.addr != u.addr)
      && (forall t :: t in all && t.cb.Some? ==> t.given)
      && (forall t :: t in all && t.given && t !in out ==> (t in timers <==> t.cb.Some?))
      && (forall t :: t in all && t.given && t in out ==> t.cb.Some?)
    }

    /** No missed wake-up: a deadline before the one a sleeper knows of has been announced. */
    ghost predicate Watched()
      reads this`tickled, this`seen, this`timers, timers
    {
      tickled || forall t :: t in timers ==> t.next >= seen
    }

    /** Every timer in the set was set by a time the clock has passed, and its deadline did not overflow. */
    ghost predicate Bounded()
      reads this`clock, this`timers, timers
    {
      forall t :: t in timers ==> InBounds(t)
    }

    ghost predicate InBounds(t: Timer)
      reads this`clock, t
    {
      t.ms <= t.next <= clock + t.ms
    }

    constructor (now: uint64)
      ensures Valid() && Watched() && Bounded() && timers == [] && all == {}
      ensures !tickled && notices == 0 && previous == clock == now && seen == WORD
    {
      timers, tickled, previous, notices := [], false, now, 0;
      all, seen, clock := {}, WORD, now;
    }

    /** A time is read. */
    ghost method ReadClock(now: uint64)
      requires Valid()
      modifies this`clock
      ensures Valid() && clock == Later(old(clock), now)
      ensures old(Bounded()) ==> Bounded()
      ensures forall t :: t in all && old(InBounds(t)) ==> InBounds(t)
    {
      clock := Later(clock, now);
    }

    /** No timer of the set is before this one. */
    ghost predicate Foremost(t: Timer)
      reads this`timers, timers, t
    {
      forall u :: u in timers && u != t ==> Less(t.next, t.addr, u.next, u.addr)
    }

    /** Into the set; whether it is the first there. */
    method Place(t: Timer) returns (front: bool)
      requires ValidBut({t}) && t in all && t !in timers
      modifies this`timers
      ensures Valid() && forall u :: u in timers <==> u in old(timers) || u == t
      ensures front <==> Foremost(t)
      ensures old(Bounded()) && InBounds(t) ==> Bounded()
      ensures !front ==> old(timers) != [] && old(timers)[0].next <= t.next
    {
      var k;
      timers, k := Insert(timers, t);
      assert timers[k] == t;
      FirstIsForemost(timers, k);
      front := k == 0;
    }

    /** The addTimer under the lock: into the set, and a notice if it is the first and none is due. */
    method Put(t: Timer)
      requires ValidBut({t}) && t in all && t !in timers
      modifies this`timers, this`tickled, this`notices
      ensures Valid() && forall u :: u in timers <==> u in old(timers) || u == t
      ensures old(Watched()) ==> Watched()
      ensures old(Bounded()) && InBounds(t) ==> Bounded()
      ensures tickled <==> old(tickled) || Foremost(t)
      ensures notices == old(notices) + (if tickled && !old(tickled) then 1 else 0)
    {
      var front := Place(t);
      var atFront := front && !tickled;
      if atFront {
        tickled := true;
        notices := notices + 1;
      }
    }

    /** addTimer. */
    method AddTimer(addr: nat, ms: uint64, cb: Option<nat>, recurring: bool, now: uint64) returns (t: Timer)
      requires Valid() && forall u :: u in all ==> u.addr != addr
      modifies this`timers, this`tickled, this`notices, this`all, this`clock
      ensures Valid() && fresh(t) && all == old(all) + {t} && (forall u :: u in timers <==> u in old(timers) || u == t)
      ensures t.addr == addr && t.ms == ms && t.cb == cb && t.recurring == recurring && t.next == Deadline(now, ms)
      ensures clock == Later(old(clock), now)
      ensures old(Watched()) ==> Watched()
      ensures old(Bounded()) && now + ms < WORD ==> Bounded()
      ensures tickled <==> old(tickled) || Foremost(t)
      ensures notices == old(notices) + if tickled && !old(tickled) then 1 else 0
    {
      ReadClock(now);
      t := new Timer(addr, ms, cb, recurring, now);
      all := all + {t};
      Put(t);
    }

    /** Takes a timer out of the set; the lookup finds it. */
    method Take(t: Timer)
      requires Valid() && t in timers
      modifies this`timers
      ensures ValidBut({t}) && t !in timers && forall u :: u in timers <==> u in old(timers) && u != t
    {
      var k := Find(timers, t);
      ErasedSorted(timers, k);
      timers := Erased(timers, k);
    }

    /** Timer::cancel: exactly a timer whose callback is still set is cancelled; its lookup never fails. */
    method Cancel(t: Timer) returns (done: bool)
      requires Valid() && t in all
      modifies this`timers, t`cb
      ensures Valid() && (done <==> old(t.cb).Some?)
      ensures t.cb == None && (done ==> t !in timers)
      ensures forall u :: u in timers <==> u in old(timers) && !(done && u == t)
      ensures (old(Watched()) ==> Watched()) && (old(Bounded()) ==> Bounded())
    {
      if t.cb.None? {
        return false;
      }
      t.cb := None;
      var k := Find(timers, t);
      ErasedSorted(timers, k);
      timers := Erased(timers, k);
      done := true;
    }

    /** Timer::refresh: counts anew from now. No notice is given. With a clock that does not go back none is
        needed: the deadline only gets later. In general a sleeper may miss the timer exactly if its new
        deadline is before the one the sleeper knows of. */
    method Refresh(t: Timer, now: uint64) returns (done: bool)
      requires Valid() && t in all
      modifies this`timers, this`clock, t`next
      ensures Valid() && (done <==> t.cb.Some?) && clock == (if done then Later(old(clock), now) else old(clock))
      ensures t.next == (if done then Deadline(now, t.ms) else old(t.next))
      ensures forall u :: u in timers <==> u in old(timers)
      ensures old(Watched()) ==> (Watched() <==> tickled || !done || t.next >= seen)
      ensures old(Bounded()) && now + t.ms < WORD ==> Bounded()
      ensures old(Watched()) && old(Bounded()) && now + t.ms < WORD && now >= old(clock) ==> Watched()
    {
      if t.cb.None? {
        return false;
      }
      ReadClock(now);
      Take(t);
      t.next := Deadline(now, t.ms);
      var k;
      timers, k := Insert(timers, t);
      done := true;
    }

    /** Out of the set, changed there, and back in with a notice if one is due. */
    method Move(t: Timer, ms: uint64, next: uint64)
      requires Valid() && t in timers
      modifies this`timers, this`tickled, this`notices, t`next, t`ms
      ensures Valid() && t.ms == ms && t.next == next && forall u :: u in timers <==> u in old(timers)
      ensures old(Watched()) ==> Watched()
      ensures old(Bounded()) && InBounds(t) ==> Bounded()
      ensures tickled <==> old(tickled) || Foremost(t)
      ensures notices == old(notices) + if tickled && !old(tickled) then 1 else 0
    {
      Take(t);
      t.ms, t.next := ms, next;
      Put(t);
    }

    /** Timer::reset: a new period, from now or from the old start. */
    method Reset(t: Timer, ms: uint64, fromNow: bool, now: uint64) returns (done: bool)
      requires Valid() && t in all
      modifies this`timers, this`tickled, this`notices, this`clock, t`next, t`ms
      ensures Valid() && (done <==> (ms == old(t.ms) && !fromNow) || t.cb.Some?)
      ensures forall u :: u in timers <==> u in old(timers)
      ensures done && !(ms == old(t.ms) && !fromNow) ==>
                t.ms == ms && t.next == Deadline(if fromNow then now else (old(t.next) - old(t.ms)) % WORD, ms)
      ensures !done || (ms == old(t.ms) && !fromNow) ==> t.ms == old(t.ms) && t.next == old(t.next)
      ensures clock == old(clock) || (fromNow && clock == Later(old(clock), now))
      ensures old(Watched()) ==> Watched()
      ensures old(Bounded()) && (if fromNow then now else old(clock)) + ms < WORD ==> Bounded()
      ensures tickled <==> old(tickled) || (done && !(ms == old(t.ms) && !fromNow) && Foremost(t))
      ensures notices == old(notices) + if tickled && !old(tickled) then 1 else 0
    {
      if ms == t.ms && !fromNow {
        return true;
      }
      if t.cb.None? {
        return false;
      }
      if fromNow {
        ReadClock(now);
      }
      var start: uint64 := if fromNow then now else (t.next - t.ms) % WORD;
      Move(t, ms, Deadline(start, ms));
      done := true;
    }

    /** getNextTimer: the time to the earliest deadline; ~0 if there is none. From here on notices are due again. */
    method GetNextTimer(now: uint64) returns (wait: uint64)
      requires Valid()
      modifies this`tickled, this`seen, this`clock
      ensures Valid() && !tickled && Watched() && (old(Bounded()) ==> Bounded())
      ensures clock == (if timers == [] then old(clock) else Later(old(clock), now))
      ensures timers == [] ==> wait == WORD - 1 && seen == WORD
      ensures timers != [] ==> seen == timers[0].next && wait == if now >= seen then 0 else seen - now
      ensures forall t :: t in timers ==> t.next >= seen
    {
      tickled := false;
      seen := if timers == [] then WORD else timers[0].next;
      if timers == [] {
        return WORD - 1;
      }
      ReadClock(now);
      wait := if now >= timers[0].next then 0 else timers[0].next - now;
    }

    /** The clock went back by more than an hour, or at all within the first hour of its count. */
    ghost predicate RolledOver(now: uint64)
      reads this`previous
    {
      now < previous && (previous < 3600000 || now < previous - 3600000)
    }

    /** detectClockRollover: the clock went back by more than an hour; the subtraction is one of unsigned words. */
    method DetectRollover(now: uint64) returns (rollover: bool)
      requires Valid()
      modifies this`previous, this`clock
      ensures Valid() && previous == now && clock == Later(old(clock), now) && (old(Bounded()) ==> Bounded())
      ensures rollover <==> old(RolledOver(now))
      ensures rollover <==> now < old(previous) && (old(previous) < 3600000 || now < old(previous) - 3600000)
      ensures now >= old(clock) ==> !rollover
    {
      ReadClock(now);
      rollover := now < previous && now < (previous - 3600000) % WORD;
      previous := now;
    }

    /** The number of timers to hand out: lower_bound of a fresh timer at now, wherever that lives, then on
        over the ones with the same deadline. */
    method Expired(now: uint64, probe: nat, rollover: bool) returns (k: nat)
      requires Valid()
      ensures DueUpTo(timers, k, now, rollover)
    {
      if rollover {
        k := |timers|;
      } else {
        k := LowerBound(timers, now, probe);
      }
      while k < |timers| && timers[k].next == now
        invariant k <= |timers| && (rollover ==> k == |timers|)
        invariant !rollover ==> forall i :: 0 <= i < k ==> timers[i].next <= now
        invariant !rollover ==> forall i :: k <= i < |timers| ==> timers[i].next >= now
      {
        k := k + 1;
      }
    }

    /** One timer that listExpiredCb has taken out: a recurring one goes back, the callback of another is cleared. */
    method ServeOne(t: Timer, now: uint64, ghost out: set<Timer>) returns (cb: Option<nat>)
      requires ValidBut(out) && t in out && t in all && t !in timers
      modifies this`timers, t`next, t`cb
      ensures ValidBut(out - {t}) && cb == old(t.cb)
      ensures t.cb == (if t.recurring then old(t.cb) else None)
      ensures t.next == (if t.recurring then Deadline(now, t.ms) else old(t.next))
      ensures forall u :: u in timers <==> u in old(timers) || (u == t && t.recurring)
    {
      cb := t.cb;
      if t.recurring {
        t.next := Deadline(now, t.ms);
        var k;
        timers, k := Insert(timers, t);
      } else {
        t.cb := None;
      }
    }

    /** The fields of a timer once it is served. */
    twostate predicate Served(t: Timer, now: uint64)
      reads t
    {
      && t.cb == (if t.recurring then old(t.cb) else None)
      && t.next == (if t.recurring then Deadline(now, t.ms) else old(t.next))
    }

    /** The loop of listExpiredCb over the timers taken out. */
    method Serve(out: seq<Timer>, now: uint64) returns (cbs: seq<Option<nat>>)
      requires ValidBut(set t | t in out) && (forall t :: t in out ==> t in all && t !in timers)
      requires forall i, j :: 0 <= i < j < |out| ==> out[i] != out[j]
      modifies this`timers, out`next, out`cb
      ensures Valid() && forall j :: 0 <= j < |out| ==> Served(out[j], now)
      ensures cbs == old(Callbacks(out))
      ensures forall u :: u in timers <==> u in old(timers) || (u in out && u.recurring)
    {
      cbs := [];
      ghost var left := set t | t in out;
      for i := 0 to |out|
        invariant ValidBut(left) && left == set t | t in out[i..]
        invariant cbs == old(Callbacks(out))[..i] && forall j :: 0 <= j < i ==> Served(out[j], now)
        invariant forall j :: i <= j < |out| ==> out[j].cb == old(out[j].cb) && out[j].next == old(out[j].next)
        invariant forall u :: u in timers <==> u in old(timers) || (u in out[..i] && u.recurring)
      {
        var cb := ServeOne(out[i], now, left);
        cbs := cbs + [cb];
        left := left - {out[i]};
      }
    }

    /** Takes the expired timers out and serves them. */
    method TakeOut(now: uint64, probe: nat, rollover: bool) returns (cbs: seq<Option<nat>>, ghost k: nat)
      requires Valid()
      modifies this`timers, timers`next, timers`cb
      ensures Valid() && old(DueUpTo(timers, k, now, rollover)) && cbs == old(Callbacks(timers))[..k]
      ensures forall t :: t in old(timers)[..k] ==> Served(t, now)
      ensures forall t :: t in old(timers)[k..] ==> t.next == old(t.next) && t.cb == old(t.cb)
      ensures forall t :: t in timers <==> t in old(timers)[k..] || (t in old(timers)[..k] && t.recurring)
    {
      var n := Expired(now, probe, rollover);
      k := n;
      TakeFront(timers, n);
      var out := timers[..n];
      timers := timers[n..];
      assert Callbacks(out) == Callbacks(old(timers))[..n];
      cbs := Serve(out, now);
    }

    /** The same; a timer that goes back does so with a later deadline. */
    method HandOut(now: uint64, probe: nat, rollover: bool) returns (cbs: seq<Option<nat>>, ghost k: nat)
      requires Valid()
      modifies this`timers, timers`next, timers`cb
      ensures Valid() && old(DueUpTo(timers, k, now, rollover)) && cbs == old(Callbacks(timers))[..k]
      ensures forall t :: t in old(timers)[..k] ==> Served(t, now)
      ensures forall t :: t in old(timers)[k..] ==> t.next == old(t.next) && t.cb == old(t.cb)
      ensures forall t :: t in timers <==> t in old(timers)[k..] || (t in old(timers)[..k] && t.recurring)
      ensures old(Watched()) && !rollover && old(NoOverflow(timers, now)) ==> Watched()
      ensures old(Bounded()) && now <= clock && old(NoOverflow(timers, now)) ==> Bounded()
    {
      cbs, k := TakeOut(now, probe, rollover);
    }

    /** The part of listExpiredCb under the write lock, with the verdict on the clock. */
    method HandOutDue(now: uint64, probe: nat, rollover: bool) returns (r: Expiry, ghost k: nat)
      requires Valid() && now <= clock
      modifies this`timers, timers`next, timers`cb
      ensures Valid() && (r.Undefined? <==> old(timers) == [] && !rollover)
      ensures old(DueUpTo(timers, k, now, rollover)) && (r.Handed? ==> r.cbs == old(Callbacks(timers))[..k])
      ensures forall t :: t in old(timers)[..k] ==> Served(t, now)
      ensures forall t :: t in old(timers)[k..] ==> t.next == old(t.next) && t.cb == old(t.cb)
      ensures forall t :: t in timers <==> t in old(timers)[k..] || (t in old(timers)[..k] && t.recurring)
      ensures old(Watched()) && !rollover && old(NoOverflow(timers, now)) ==> Watched()
      ensures old(Bounded()) && old(NoOverflow(timers, now)) ==> Bounded()
    {
      if !rollover {
        if timers == [] {
          return Undefined, 0;
        }
        if timers[0].next > now {
          FirstIsEarliest(timers);
          return Handed([]), 0;
        }
      }
      var cbs;
      cbs, k := HandOut(now, probe, rollover);
      r := Handed(cbs);
    }

    /** listExpiredCb once it has seen a timer. */
    method ListSeen(now: uint64, probe: nat) returns (r: Expiry, ghost k: nat)
      requires Valid()
      modifies this`timers, this`previous, this`clock, timers`next, timers`cb
      ensures Valid() && previous == now && clock == Later(old(clock), now)
      ensures r.Undefined? <==> old(timers) == [] && !old(RolledOver(now))
      ensures old(DueUpTo(timers, k, now, RolledOver(now))) && (r.Handed? ==> r.cbs == old(Callbacks(timers))[..k])
      ensures forall t :: t in old(timers)[..k] ==> Served(t, now)
      ensures forall t :: t in old(timers)[k..] ==> t.next == old(t.next) && t.cb == old(t.cb)
      ensures forall t :: t in timers <==> t in old(timers)[k..] || (t in old(timers)[..k] && t.recurring)
      ensures old(Watched()) && !old(RolledOver(now)) && old(NoOverflow(timers, now)) ==> Watched()
      ensures old(Bounded()) && old(NoOverflow(timers, now)) ==> Bounded()
    {
      var rollover := DetectRollover(now);
      r, k := HandOutDue(now, probe, rollover);
    }

    /** listExpiredCb: the callbacks of exactly the timers whose deadline has come, in order of deadline, or of
        all timers when the clock has rolled over; k of them. Whether there are timers at all is looked at
        under a lock of its own: saw is what that found. */
    method ListExpired(now: uint64, probe: nat, saw: bool) returns (r: Expiry, ghost k: nat)
      requires Valid()
      modifies this`timers, this`previous, this`clock, timers`next, timers`cb
      ensures Valid() && previous == (if saw then now else old(previous)) && clock == Later(old(clock), now)
      ensures r.Undefined? <==> saw && old(timers) == [] && !old(RolledOver(now))
      ensures if saw then old(DueUpTo(timers, k, now, RolledOver(now))) else k == 0
      ensures r.Handed? ==> r.cbs == old(Callbacks(timers))[..k]
      ensures forall t :: t in old(timers)[..k] ==> Served(t, now)
      ensures forall t :: t in old(timers)[k..] ==> t.next == old(t.next) && t.cb == old(t.cb)
      ensures forall t :: t in timers <==> t in old(timers)[k..] || (t in old(timers)[..k] && t.recurring)
      ensures old(Watched()) && !old(RolledOver(now)) && old(NoOverflow(timers, now)) ==> Watched()
      ensures old(Bounded()) && old(NoOverflow(timers, now)) ==> Bounded()
      ensures now >= old(clock) ==> !old(RolledOver(now))
    {
      if saw {
        r, k := ListSeen(now, probe);
      } else {
        ReadClock(now);
        r, k := Handed([]), 0;
      }
    }
  }
}
