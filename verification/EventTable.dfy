/** IOManager's table of descriptor contexts: which events of which descriptors are waited
    for, by whom, how many there are, and what epoll has been told. */
module EventTables {

  datatype Event = READ | WRITE

  /** Who waits: a fiber, or a callback given to addEvent. */
  datatype Waiter = Fiber(id: nat) | Callback(id: nat)

  /** An event context; empty when its scheduler, fiber and callback are all unset. */
  datatype Slot = Empty | Waiting(who: Waiter)

  datatype FdContext = FdContext(events: set<Event>, read: Slot, write: Slot)

  const NO_EVENTS := FdContext({}, Empty, Empty)

  /** What epoll_ctl is asked to do. */
  datatype Op = ADD | MOD | DEL

  function SlotOf(c: FdContext, e: Event): (s: Slot) {
    if e == READ then c.read else c.write
  }

  function WithSlot(c: FdContext, e: Event, s: Slot): (c': FdContext)
    ensures SlotOf(c', e) == s && c'.events == c.events
    ensures forall f :: f != e ==> SlotOf(c', f) == SlotOf(c, f)
  {
    if e == READ then c.(read := s) else c.(write := s)
  }

  /** A slot is filled exactly while its event bit is set. */
  predicate Consistent(c: FdContext) {
    (READ in c.events <==> c.read.Waiting?) && (WRITE in c.events <==> c.write.Waiting?)
  }

  /** The number of event bits set in the table. */
  function Bits(cs: seq<FdContext>): (n: nat) {
    if cs == [] then 0 else |cs[0].events| + Bits(cs[1..])
  }

  lemma {:induction false} BitsUpdate(cs: seq<FdContext>, fd: nat, c: FdContext)
    requires fd < |cs|
    ensures Bits(cs[fd := c]) == Bits(cs) - |cs[fd].events| + |c.events|
    ensures Bits(cs) >= |cs[fd].events|
  {
    if fd > 0 {
      BitsUpdate(cs[1..], fd - 1, c);
      assert cs[fd := c][1..] == cs[1..][fd - 1 := c];
    } else {
      assert cs[fd := c][1..] == cs[1..];
    }
  }

  lemma {:induction false} BitsAppend(cs: seq<FdContext>, more: seq<FdContext>)
    ensures Bits(cs + more) == Bits(cs) + Bits(more)
  {
    if cs == [] {
      assert cs + more == more;
    } else {
      BitsAppend(cs[1..], more);
      assert (cs + more)[1..] == cs[1..] + more;
    }
  }

  /** No bit is set anywhere exactly if the count is zero. */
  lemma {:induction false} NoBits(cs: seq<FdContext>)
    ensures Bits(cs) == 0 <==> forall i :: 0 <= i < |cs| ==> cs[i].events == {}
  {
    if cs != [] {
      NoBits(cs[1..]);
      assert forall i :: 0 < i < |cs| ==> cs[i] == cs[1..][i - 1];
      assert Bits(cs) == 0 ==> |cs[0].events| == 0;
    }
  }

  /** A table of n contexts made from cs: cut, or filled up with empty ones. */
  function Resized(cs: seq<FdContext>, n: nat): (r: seq<FdContext>)
    ensures |r| == n && forall i :: 0 <= i < n ==> r[i] == if i < |cs| then cs[i] else NO_EVENTS
  {
    seq(n, i requires 0 <= i < n => if i < |cs| then cs[i] else NO_EVENTS)
  }

  lemma {:induction false} EmptyBits(cs: seq<FdContext>)
    requires forall i :: 0 <= i < |cs| ==> cs[i].events == {}
    ensures Bits(cs) == 0
  {
    NoBits(cs);
  }

  /** Resizing forgets exactly the bits of the contexts it cuts off. */
  lemma ResizedBits(cs: seq<FdContext>, n: nat)
    ensures Bits(Resized(cs, n)) == Bits(cs) - (if n < |cs| then Bits(cs[n..]) else 0)
    ensures n < |cs| ==> Bits(cs) >= Bits(cs[n..])
  {
    if n < |cs| {
      assert Resized(cs, n) == cs[..n] && cs == cs[..n] + cs[n..];
      BitsAppend(cs[..n], cs[n..]);
    } else {
      assert Resized(cs, n) == cs + Resized(cs, n)[|cs|..];
      BitsAppend(cs, Resized(cs, n)[|cs|..]);
      EmptyBits(Resized(cs, n)[|cs|..]);
    }
  }

  /** Who waits for an event of a descriptor; nobody for those beyond the table. */
  function SlotAt(cs: seq<FdContext>, fd: nat, e: Event): (s: Slot) {
    if fd < |cs| then SlotOf(cs[fd], e) else Empty
  }

  predicate BitAt(cs: seq<FdContext>, fd: nat, e: Event) {
    fd < |cs| && e in cs[fd].events
  }

  /** Every event of every descriptor has the bit and the waiter it had, but for some of one descriptor. */
  ghost predicate SameBut(cs: seq<FdContext>, cs': seq<FdContext>, fd: nat, es: set<Event>) {
    forall f: nat, x: Event :: f != fd || x !in es ==>
      SlotAt(cs', f, x) == SlotAt(cs, f, x) && (BitAt(cs', f, x) <==> BitAt(cs, f, x))
  }

  /** Nobody waits for these events of a descriptor. */
  ghost predicate Free(cs: seq<FdContext>, fd: nat, es: set<Event>) {
    forall x :: x in es ==> SlotAt(cs, fd, x) == Empty && !BitAt(cs, fd, x)
  }

  lemma UpdatedSame(cs: seq<FdContext>, fd: nat, c: FdContext, es: set<Event>)
    requires fd < |cs|
    requires forall x :: x !in es ==> SlotOf(c, x) == SlotOf(cs[fd], x) && (x in c.events <==> x in cs[fd].events)
    ensures SameBut(cs, cs[fd := c], fd, es)
  {
  }

  lemma ResizedSame(cs: seq<FdContext>, n: nat)
    requires n >= |cs|
    ensures forall f: nat, x: Event :: SlotAt(Resized(cs, n), f, x) == SlotAt(cs, f, x) &&
                                       (BitAt(Resized(cs, n), f, x) <==> BitAt(cs, f, x))
  {
  }

  /** What epoll should know about a descriptor. */
  ghost predicate Known(c: FdContext, kernel: map<nat, set<Event>>, fd: nat) {
    if c.events == {} then fd !in kernel else fd in kernel && kernel[fd] == c.events
  }

  /** epoll knows exactly the events of the table. */
  ghost predicate InSync(cs: seq<FdContext>, kernel: map<nat, set<Event>>) {
    && (forall fd :: fd in kernel ==> fd < |cs|)
    && (forall fd :: 0 <= fd < |cs| ==> Known(cs[fd], kernel, fd))
  }

  lemma SyncedLegal(cs: seq<FdContext>, kernel: map<nat, set<Event>>, fd: nat)
    requires InSync(cs, kernel) && fd < |cs|
    ensures Known(cs[fd], kernel, fd)
  {
  }

  /** A context and what epoll knows of it, changed together. */
  lemma SyncedUpdate(cs: seq<FdContext>, kernel: map<nat, set<Event>>, fd: nat, c: FdContext)
    requires InSync(cs, kernel) && fd < |cs|
    ensures InSync(cs[fd := c], if c.events == {} then kernel - {fd} else kernel[fd := c.events])
  {
    var cs', kernel' := cs[fd := c], if c.events == {} then kernel - {fd} else kernel[fd := c.events];
    forall i | 0 <= i < |cs'|
      ensures Known(cs'[i], kernel', i)
    {
      assert i != fd ==> Known(cs[i], kernel, i);
    }
  }

  lemma SyncedResized(cs: seq<FdContext>, kernel: map<nat, set<Event>>, n: nat)
    requires InSync(cs, kernel) && n >= |cs|
    ensures InSync(Resized(cs, n), kernel)
  {
    var cs' := Resized(cs, n);
    forall i | 0 <= i < |cs'|
      ensures Known(cs'[i], kernel, i)
    {
      assert i < |cs| ==> Known(cs[i], kernel, i);
    }
  }

  /** A context emptied without epoll being told. */
  lemma Unsynced(cs: seq<FdContext>, kernel: map<nat, set<Event>>, fd: nat, c: FdContext)
    requires InSync(cs, kernel) && fd < |cs| && cs[fd].events != c.events
    ensures !InSync(cs[fd := c], kernel)
  {
    assert Known(cs[fd], kernel, fd);
    assert !Known(cs[fd := c][fd], kernel, fd);
  }

  /** A set of events, by its two bits. */
  lemma TwoBits(es: set<Event>)
    ensures es == (if READ in es then {READ} else {}) + (if WRITE in es then {WRITE} else {})
    ensures |es| == (if READ in es then 1 else 0) + (if WRITE in es then 1 else 0)
  {
    assert es == (if READ in es then {READ} else {}) + (if WRITE in es then {WRITE} else {}) by {
      forall e | e in es
        ensures e in (if READ in es then {READ} else {}) + (if WRITE in es then {WRITE} else {})
      {
        assert e == READ || e == WRITE;
      }
    }
  }

  datatype AddResult = Added | Refused | AlreadySet

  /** What one entry of the list epoll_wait fills leads to. */
  datatype Delivery = Ignored | Rejected | Delivered | AssertionFailed

  class IOManager {
    var contexts: seq<FdContext>
    var pending: nat
    /** Scheduled by triggerEvent, in order. */
    var queue: seq<Waiter>
    /** What epoll has registered. */
    ghost var kernel: map<nat, set<Event>>

    ghost predicate Valid()
      reads this`contexts, this`pending
    {
      && |contexts| >= 32 && (forall fd :: 0 <= fd < |contexts| ==> Consistent(contexts[fd]))
      && pending == Bits(contexts)
    }

    ghost predicate Synced()
      reads this`contexts, this`kernel
    {
      InSync(contexts, kernel)
    }

    constructor ()
      ensures Valid() && Synced() && |contexts| == 32 && pending == 0 && queue == [] && kernel == map[]
    {
      contexts := seq(32, i => NO_EVENTS);
      pending, queue, kernel := 0, [], map[];
      new;
      EmptyBits(contexts);
    }

    /** epoll_ctl; ok says whether it succeeds. It is asked only for what epoll would take: what is registered can
        be changed or removed, and only what is not can be added. */
    ghost method Control(op: Op, fd: nat, events: set<Event>, ok: bool)
      requires Synced() ==> (op.ADD? <==> fd !in kernel)
      modifies this`kernel
      ensures kernel == if !ok then old(kernel) else if op.DEL? then old(kernel) - {fd} else old(kernel)[fd := events]
    {
      kernel := if !ok then kernel else if op.DEL? then kernel - {fd} else kernel[fd := events];
    }

    /** The part of addEvent under the write lock. The size was read under a lock given up before. */
    method Grow(fd: nat)
      requires Valid() && fd >= 32
      modifies this`contexts
      ensures contexts == Resized(old(contexts), fd * 3 / 2) && fd < |contexts|
      ensures Valid() <==> fd * 3 / 2 >= |old(contexts)| || Bits(old(contexts)[fd * 3 / 2..]) == 0
    {
      ResizedBits(contexts, fd * 3 / 2);
      contexts := Resized(contexts, fd * 3 / 2);
    }

    /** A context with one more event, waited for by who. */
    static function With(c: FdContext, e: Event, who: Waiter): (c': FdContext)
      ensures Consistent(c) ==> Consistent(c')
      ensures c'.events == c.events + {e} && SlotOf(c', e) == Waiting(who)
      ensures forall x :: x != e ==> SlotOf(c', x) == SlotOf(c, x)
    {
      WithSlot(c.(events := c.events + {e}), e, Waiting(who))
    }

    /** The part of addEvent after epoll_ctl: the count goes up and the slot is filled. */
    method Insert(fd: nat, e: Event, who: Waiter)
      requires Valid() && fd < |contexts| && e !in contexts[fd].events
      modifies this`contexts, this`pending
      ensures Valid() && contexts == old(contexts)[fd := With(old(contexts)[fd], e, who)]
      ensures pending == old(pending) + 1
    {
      BitsUpdate(contexts, fd, With(contexts[fd], e, who));
      pending := pending + 1;
      contexts := contexts[fd := With(contexts[fd], e, who)];
    }

    /** addEvent: the waiter goes into the slot of an event not waited for yet. */
    method AddEvent(fd: nat, e: Event, who: Waiter, ok: bool) returns (r: AddResult)
      requires Valid()
      modifies this`contexts, this`pending, this`kernel
      ensures Valid() && |contexts| == (if fd < |old(contexts)| then |old(contexts)| else fd * 3 / 2)
      ensures r == AlreadySet <==> fd < |old(contexts)| && e in old(contexts)[fd].events
      ensures r == Added <==> ok && r != AlreadySet
      ensures var cs := Resized(old(contexts), |contexts|);
              contexts == if r == Added then cs[fd := With(cs[fd], e, who)] else cs
      ensures r == Added ==> SlotAt(contexts, fd, e) == Waiting(who) && BitAt(contexts, fd, e)
      ensures SameBut(old(contexts), contexts, fd, if r == Added then {e} else {})
      ensures pending == old(pending) + if r == Added then 1 else 0
      ensures old(Synced()) ==> Synced()
    {
      if fd >= |contexts| {
        Grow(fd);
      }
      assert contexts == Resized(old(contexts), |contexts|);
      ResizedSame(old(contexts), |contexts|);
      UpdatedSame(contexts, fd, With(contexts[fd], e, who), {e});
      if old(Synced()) {
        SyncedResized(old(contexts), kernel, |contexts|);
        SyncedLegal(contexts, kernel, fd);
        SyncedUpdate(contexts, kernel, fd, With(contexts[fd], e, who));
      }
      var c := contexts[fd];
      if e in c.events {
        return AlreadySet;
      }
      var op := if c.events == {} then ADD else MOD;
      Control(op, fd, c.events + {e}, ok);
      if !ok {
        return Refused;
      }
      Insert(fd, e, who);
      r := Added;
    }

    /** A context without one of its events. */
    static function Without(c: FdContext, e: Event): (c': FdContext)
      requires Consistent(c)
      ensures Consistent(c') && c'.events == c.events - {e} && SlotOf(c', e) == Empty
      ensures forall x :: x != e ==> SlotOf(c', x) == SlotOf(c, x)
    {
      WithSlot(c.(events := c.events - {e}), e, Empty)
    }

    /** triggerEvent, and the count taken down: the waiter is scheduled, its slot is free again. */
    method Trigger(fd: nat, e: Event)
      requires Valid() && fd < |contexts| && e in contexts[fd].events
      modifies this`contexts, this`pending, this`queue
      ensures Valid() && contexts == old(contexts)[fd := Without(old(contexts)[fd], e)] && pending == old(pending) - 1
      ensures queue == old(queue) + [SlotOf(old(contexts)[fd], e).who]
      ensures Free(contexts, fd, {e}) && SameBut(old(contexts), contexts, fd, {e})
    {
      queue := queue + [SlotOf(contexts[fd], e).who];
      UpdatedSame(contexts, fd, Without(contexts[fd], e), {e});
      BitsUpdate(contexts, fd, Without(contexts[fd], e));
      contexts := contexts[fd := Without(contexts[fd], e)];
      pending := pending - 1;
    }

    /** delEvent: the event and its waiter are forgotten; the waiter is not scheduled. */
    method DelEvent(fd: nat, e: Event, ok: bool) returns (done: bool)
      requires Valid()
      modifies this`contexts, this`pending, this`kernel
      ensures Valid() && (done <==> fd < |old(contexts)| && e in old(contexts)[fd].events && ok)
      ensures contexts == if done then old(contexts)[fd := Without(old(contexts)[fd], e)] else old(contexts)
      ensures pending == old(pending) - (if done then 1 else 0)
      ensures done ==> Free(contexts, fd, {e}) && SameBut(old(contexts), contexts, fd, {e})
      ensures old(Synced()) ==> Synced()
    {
      if fd >= |contexts| || e !in contexts[fd].events {
        return false;
      }
      UpdatedSame(contexts, fd, Without(contexts[fd], e), {e});
      var left := contexts[fd].events - {e};
      if Synced() {
        SyncedLegal(contexts, kernel, fd);
        SyncedUpdate(contexts, kernel, fd, Without(contexts[fd], e));
      }
      Control(if left == {} then DEL else MOD, fd, left, ok);
      if !ok {
        return false;
      }
      BitsUpdate(contexts, fd, Without(contexts[fd], e));
      pending := pending - 1;
      contexts := contexts[fd := Without(contexts[fd], e)];
      done := true;
    }

    /** cancelEvent: the event is forgotten and its waiter scheduled. */
    method CancelEvent(fd: nat, e: Event, ok: bool) returns (done: bool)
      requires Valid()
      modifies this`contexts, this`pending, this`kernel, this`queue
      ensures Valid() && (done <==> fd < |old(contexts)| && e in old(contexts)[fd].events && ok)
      ensures contexts == if done then old(contexts)[fd := Without(old(contexts)[fd], e)] else old(contexts)
      ensures pending == old(pending) - (if done then 1 else 0)
      ensures queue == old(queue) + if done then [SlotOf(old(contexts)[fd], e).who] else []
      ensures done ==> Free(contexts, fd, {e}) && SameBut(old(contexts), contexts, fd, {e})
      ensures old(Synced()) ==> Synced()
    {
      if fd >= |contexts| || e !in contexts[fd].events {
        return false;
      }
      var left := contexts[fd].events - {e};
      if Synced() {
        SyncedLegal(contexts, kernel, fd);
        SyncedUpdate(contexts, kernel, fd, Without(contexts[fd], e));
      }
      Control(if left == {} then DEL else MOD, fd, left, ok);
      if !ok {
        return false;
      }
      Trigger(fd, e);
      done := true;
    }

    /** Who waits for the given events of a context, the reader first. */
    static function Waiters(c: FdContext, es: set<Event>): (ws: seq<Waiter>)
      requires Consistent(c)
    {
      (if READ in c.events * es then [c.read.who] else []) + (if WRITE in c.events * es then [c.write.who] else [])
    }

    /** A context without some of its events. */
    static function Kept(c: FdContext, es: set<Event>): (c': FdContext)
      requires Consistent(c)
      ensures Consistent(c') && c'.events == c.events - es
      ensures forall x :: SlotOf(c', x) == if x in es then Empty else SlotOf(c, x)
    {
      FdContext(c.events - es, if READ in es then Empty else c.read, if WRITE in es then Empty else c.write)
    }

    /** A context after one event was triggered, or not asked for. */
    static function Fired(c: FdContext, e: Event, es: set<Event>): (c': FdContext)
      requires Consistent(c)
      ensures Consistent(c')
    {
      if e in es then Without(c, e) else c
    }

    /** Triggers an event if it is among those asked for; it is not waited for: the assertion fails. */
    method TriggerIf(fd: nat, e: Event, es: set<Event>) returns (ok: bool)
      requires Valid() && fd < |contexts|
      modifies this`contexts, this`pending, this`queue
      ensures Valid() && (ok <==> e in es ==> e in old(contexts)[fd].events) && |contexts| == |old(contexts)|
      ensures ok ==> contexts == old(contexts)[fd := Fired(old(contexts)[fd], e, es)]
      ensures ok ==> pending == old(pending) - (if e in es then 1 else 0)
      ensures ok ==> queue == old(queue) + if e in es then [SlotOf(old(contexts)[fd], e).who] else []
    {
      if e in es {
        if e !in contexts[fd].events {
          return false;
        }
        Trigger(fd, e);
      }
      ok := true;
    }

    /** Taking the events out one at a time. */
    static lemma FiredTwice(c: FdContext, es: set<Event>)
      requires Consistent(c)
      ensures var d := Fired(c, READ, es);
              && (es <= c.events <==> (READ in es ==> READ in c.events) && (WRITE in es ==> WRITE in d.events))
              && d.write == c.write
              && (es <= c.events ==> Kept(c, es) == Fired(d, WRITE, es))
      ensures |es| == (if READ in es then 1 else 0) + (if WRITE in es then 1 else 0)
    {
      TwoBits(es);
    }

    /** Triggers events of a descriptor, READ first, up to one that is not waited for. */
    method TriggerAll(fd: nat, es: set<Event>) returns (ok: bool)
      requires Valid() && fd < |contexts|
      modifies this`contexts, this`pending, this`queue
      ensures Valid() && (ok <==> es <= old(contexts)[fd].events)
      ensures ok ==> contexts == old(contexts)[fd := Kept(old(contexts)[fd], es)] && pending == old(pending) - |es|
      ensures ok ==> queue == old(queue) + Waiters(old(contexts)[fd], es)
      ensures ok ==> Free(contexts, fd, es) && SameBut(old(contexts), contexts, fd, es)
      ensures ok ==> |queue| == |old(queue)| + |es| && old(queue) <= queue
      ensures ok && READ in es ==> queue[|old(queue)|] == SlotOf(old(contexts)[fd], READ).who
      ensures ok && WRITE in es ==> queue[|queue| - 1] == SlotOf(old(contexts)[fd], WRITE).who
    {
      UpdatedSame(contexts, fd, Kept(contexts[fd], es), es);
      FiredTwice(contexts[fd], es);
      ok := TriggerIf(fd, READ, es);
      if ok {
        ok := TriggerIf(fd, WRITE, es);
      }
    }

    /** cancelAll: both waiters are scheduled, whatever epoll_ctl says; epoll still agrees with the table
        exactly if epoll_ctl succeeded. */
    method CancelAll(fd: nat, ok: bool) returns (done: bool)
      requires Valid()
      modifies this`contexts, this`pending, this`kernel, this`queue
      ensures Valid() && (done <==> fd < |old(contexts)| && old(contexts)[fd].events != {})
      ensures contexts == if done then old(contexts)[fd := NO_EVENTS] else old(contexts)
      ensures pending == old(pending) - (if done then |old(contexts)[fd].events| else 0)
      ensures queue == old(queue) + if done then Waiters(old(contexts)[fd], old(contexts)[fd].events) else []
      ensures SameBut(old(contexts), contexts, fd, if done then {READ, WRITE} else {})
      ensures old(Synced()) ==> (Synced() <==> ok || !done)
    {
      if fd >= |contexts| || contexts[fd].events == {} {
        return false;
      }
      if Synced() {
        SyncedLegal(contexts, kernel, fd);
        SyncedUpdate(contexts, kernel, fd, NO_EVENTS);
        Unsynced(contexts, kernel, fd, NO_EVENTS);
      }
      Control(DEL, fd, {}, ok);
      UpdatedSame(contexts, fd, NO_EVENTS, {READ, WRITE});
      assert Kept(contexts[fd], contexts[fd].events) == NO_EVENTS by {
        assert contexts[fd].events - contexts[fd].events == {};
      }
      done := TriggerAll(fd, contexts[fd].events);
    }

    /** The events an entry stands for: an error or a hang-up counts for every event waited for. */
    static function Ready(c: FdContext, reported: set<Event>, error: bool): (es: set<Event>) {
      reported + if error then c.events else {}
    }

    /** One entry from epoll_wait. What it reports may be older than the table: another thread may have
        taken an event of the descriptor since. The assertion in triggerEvent then fails exactly if some,
        but not all, of what is reported is still waited for. */
    method Deliver(fd: nat, reported: set<Event>, error: bool, ok: bool) returns (r: Delivery)
      requires Valid() && fd < |contexts|
      modifies this`contexts, this`pending, this`kernel, this`queue
      ensures Valid()
      ensures var c := old(contexts)[fd]; var ready := Ready(c, reported, error);
              && (r == Ignored <==> c.events !! ready)
              && (r == AssertionFailed <==> ok && !(c.events !! ready) && !(ready <= c.events))
              && (r == Delivered <==> ok && !(c.events !! ready) && ready <= c.events)
      ensures r == Ignored || r == Rejected ==> contexts == old(contexts) && queue == old(queue)
      ensures r == Ignored || r == Rejected ==> kernel == old(kernel)
      ensures r == Delivered ==>
                var c := old(contexts)[fd]; var ready := Ready(c, reported, error);
                && queue == old(queue) + Waiters(c, ready) && pending == old(pending) - |ready|
                && contexts == old(contexts)[fd := Kept(c, ready)] && (old(Synced()) ==> Synced())
                && Free(contexts, fd, ready) && SameBut(old(contexts), contexts, fd, ready)
      ensures error ==> (r == Ignored <==> old(contexts)[fd].events == {})
      ensures r == Delivered ==>
                forall x :: x in contexts[fd].events <==> x in old(contexts)[fd].events && x !in reported && !error
    {
      var events := contexts[fd].events;
      var ready := Ready(contexts[fd], reported, error);
      if events !! ready {
        return Ignored;
      }
      var left := events - ready;
      if Synced() {
        SyncedLegal(contexts, kernel, fd);
        SyncedUpdate(contexts, kernel, fd, Kept(contexts[fd], ready));
      }
      Control(if left == {} then DEL else MOD, fd, left, ok);
      if !ok {
        return Rejected;
      }
      var fine := TriggerAll(fd, ready);
      r := if fine then Delivered else AssertionFailed;
    }
  }

  /** A descriptor with both events waited for. */
  method BothWaiting(fd: nat, reader: Waiter, writer: Waiter) returns (m: IOManager)
    ensures fresh(m) && m.Valid() && m.Synced() && fd < |m.contexts| && m.contexts[fd].events == {READ, WRITE}
  {
    m := new IOManager();
    var a := m.AddEvent(fd, READ, reader, true);
    var b := m.AddEvent(fd, WRITE, writer, true);
    TwoBits(m.contexts[fd].events);
  }

  /** Whenever both events of a descriptor are reported, and one of them is cancelled before the entry is handled,
      the assertion in triggerEvent fails. */
  method CancelledMeanwhile(m: IOManager, fd: nat, e: Event) returns (r: Delivery)
    requires m.Valid() && fd < |m.contexts| && m.contexts[fd].events == {READ, WRITE}
    modifies m
    ensures r == AssertionFailed
  {
    var reported := m.contexts[fd].events;
    var done := m.CancelEvent(fd, e, true);
    r := m.Deliver(fd, reported, false, true);
  }

  /** Whenever the table is found too small for fd, and before it is resized for fd another thread adds an event of
      a descriptor of 3/2 of that or more, that event is cut off: the table is as if it had not been added, and it
      stays counted for good. */
  method GrownMeanwhile(m: IOManager, fd: nat, other: nat, e: Event, who: Waiter)
    requires m.Valid() && |m.contexts| <= fd && fd * 3 / 2 <= other
    modifies m
    ensures m.contexts == Resized(old(m.contexts), fd * 3 / 2)
    ensures m.pending == old(m.pending) + 1 == Bits(m.contexts) + 1 && !m.Valid()
  {
    var a := m.AddEvent(other, e, who, true);
    m.Grow(fd);
    ResizedBits(old(m.contexts), fd * 3 / 2);
  }
}
