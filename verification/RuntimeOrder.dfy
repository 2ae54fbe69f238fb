/** The order of the shared list over whole runs. */
module RuntimeOrder {
  import opened Runtime
  import opened RuntimeFrames
  import opened RuntimeTheorems

  /** a is b with some entries left out. */
  ghost predicate Sub(a: seq<Task>, b: seq<Task>)
    decreases |b|
  {
    a == [] || (b != [] && ((a[0] == b[0] && Sub(a[1..], b[1..])) || Sub(a, b[1..])))
  }

  lemma {:induction false} SubSame(a: seq<Task>)
    ensures Sub(a, a)
  {
    if a != [] {
      SubSame(a[1..]);
    }
  }

  function Without(q: seq<Task>, i: nat): (r: seq<Task>)
    requires i < |q|
  {
    q[..i] + q[i + 1..]
  }

  lemma {:induction false} SubWithout(a: seq<Task>, b: seq<Task>, i: nat)
    requires Sub(a, b) && i < |a|
    ensures Sub(Without(a, i), b)
    decreases |b|
  {
    if a[0] == b[0] && Sub(a[1..], b[1..]) {
      if i == 0 {
        assert Without(a, 0) == a[1..];
        SubMore(a[1..], b);
      } else {
        SubWithout(a[1..], b[1..], i - 1);
        assert Without(a, i)[0] == a[0] && Without(a, i)[1..] == Without(a[1..], i - 1);
      }
    } else {
      SubWithout(a, b[1..], i);
      SubMore(Without(a, i), b);
    }
  }

  lemma SubMore(a: seq<Task>, b: seq<Task>)
    requires b != [] && Sub(a, b[1..])
    ensures Sub(a, b)
  {
  }

  lemma {:induction false} SubBehind(a: seq<Task>, b: seq<Task>, c: seq<Task>)
    requires Sub(a, b)
    ensures Sub(a + c, b + c)
    decreases |b|
  {
    if b == [] {
      assert a + c == c && b + c == c;
      SubSame(c);
    } else if a != [] && a[0] == b[0] && Sub(a[1..], b[1..]) {
      SubBehind(a[1..], b[1..], c);
      assert (a + c)[1..] == a[1..] + c && (b + c)[1..] == b[1..] + c;
    } else {
      SubBehind(a, b[1..], c);
      assert (b + c)[1..] == b[1..] + c;
      SubMore(a + c, b + c);
    }
  }

  /** What a list that became r has been given: what is behind the old length, if it did not get shorter. */
  function Added(q: seq<Task>, r: seq<Task>): (d: seq<Task>) {
    if |q| <= |r| then r[|q|..] else []
  }

  function Shortened(q: seq<Task>, r: seq<Task>): (n: nat) {
    if |r| < |q| then 1 else 0
  }

  /** Everything added between two moments, in that order. */
  function Appended(run: seq<State>, i: nat, j: nat): (q: seq<Task>)
    requires i <= j < |run|
  {
    if i == j then [] else Appended(run, i, j - 1) + Added(run[j - 1].queue, run[j].queue)
  }

  /** How often the list got shorter between two moments. */
  function Removals(run: seq<State>, i: nat, j: nat): (n: nat)
    requires i <= j < |run|
  {
    if i == j then 0 else Removals(run, i, j - 1) + Shortened(run[j - 1].queue, run[j].queue)
  }

  /** One entry is taken out, or some are put behind the others. */
  ghost predicate Moved(q: seq<Task>, r: seq<Task>) {
    q <= r || exists x :: 0 <= x < |q| && r == Without(q, x)
  }

  lemma StepMoves(s: State, e: Step)
    requires Enabled(s, e)
    ensures Moved(s.queue, Apply(s, e).queue)
  {
    Frames(s, e);
    if e.Take? {
      assert Apply(s, e).queue == Without(s.queue, e.i);
    }
  }

  lemma RunMoves(run: seq<State>, j: nat)
    requires IsRun(run) && 0 < j < |run|
    ensures Moved(run[j - 1].queue, run[j].queue)
  {
    var e := StepAt(run, j - 1);
    StepMoves(run[j - 1], e);
  }

  lemma MovedOrder(q: seq<Task>, r: seq<Task>, all: seq<Task>)
    requires Moved(q, r) && Sub(q, all)
    ensures Sub(r, all + Added(q, r)) && |r| + Shortened(q, r) == |q| + |Added(q, r)|
  {
    if q <= r {
      SubBehind(q, all, Added(q, r));
      assert r == q + Added(q, r);
    } else {
      var x :| 0 <= x < |q| && r == Without(q, x);
      SubWithout(q, all, x);
      assert all + [] == all;
    }
  }

  /** Nobody overtakes in the list: at any later moment it is the earlier one with everything added since
      behind it, in the same order, but for one entry less each time the list got shorter. */
  lemma {:induction false} OrderIsKept(run: seq<State>, i: nat, j: nat)
    requires IsRun(run) && i <= j < |run|
    ensures Sub(run[j].queue, run[i].queue + Appended(run, i, j))
    ensures |run[j].queue| + Removals(run, i, j) == |run[i].queue| + |Appended(run, i, j)|
  {
    var q := run[i].queue;
    if i == j {
      SubSame(q);
      assert q + [] == q;
    } else {
      OrderIsKept(run, i, j - 1);
      RunMoves(run, j);
      MovedOrder(run[j - 1].queue, run[j].queue, q + Appended(run, i, j - 1));
      assert (q + Appended(run, i, j - 1)) + Added(run[j - 1].queue, run[j].queue) == q + Appended(run, i, j);
    }
  }

  /** How often an entry is in the list. */
  function Count(q: seq<Task>, t: Task): (n: nat) {
    multiset(q)[t]
  }

  lemma CountWithout(q: seq<Task>, i: nat, t: Task)
    requires i < |q|
    ensures Count(Without(q, i), t) == Count(q, t) - (if q[i] == t then 1 else 0)
  {
    assert q == q[..i] + [q[i]] + q[i + 1..];
  }

  lemma CountPrefix(q: seq<Task>, q': seq<Task>, t: Task)
    requires q <= q'
    ensures Count(q, t) <= Count(q', t)
  {
    assert q' == q + q'[|q|..];
  }

  lemma LeavesByTake(run: seq<State>, m: nat, t: Task) returns (x: nat)
    requires IsRun(run) && m < |run| - 1 && t.pin != -1 && Count(run[m + 1].queue, t) < Count(run[m].queue, t)
    ensures Enabled(run[m], Take(t.pin, x)) && run[m].queue[x] == t && run[m + 1] == Taken(run[m], t.pin, x)
  {
    var e := StepAt(run, m);
    Frames(run[m], e);
    if e.Take? {
      x := e.i;
      CountWithout(run[m].queue, x, t);
    } else {
      CountPrefix(run[m].queue, run[m + 1].queue, t);
    }
  }

  /** An entry pinned to a thread leaves the list only by being taken by that thread. */
  lemma {:induction false} PinnedLeavesByOwner(run: seq<State>, i: nat, j: nat, t: Task) returns (m: nat, x: nat)
    requires IsRun(run) && i <= j < |run| && t.pin != -1 && Count(run[j].queue, t) < Count(run[i].queue, t)
    ensures i <= m < j && Enabled(run[m], Take(t.pin, x)) && run[m].queue[x] == t &&
            run[m + 1] == Taken(run[m], t.pin, x)
  {
    if Count(run[j].queue, t) < Count(run[j - 1].queue, t) {
      m := j - 1;
      x := LeavesByTake(run, m, t);
    } else {
      m, x := PinnedLeavesByOwner(run, i, j - 1, t);
    }
  }
}
