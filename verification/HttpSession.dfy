/** HttpSession::recvRequest: the head through a parser that takes the buffer bit by bit,
    then the body. */
module HttpSessions {
  import opened Wrappers
  import opened Blocks
  import opened ByteArrays
  import opened Streams

  /* ---------- where the head ends ---------- */

  /** What the automaton says of the bytes it has seen: it goes on, the head ends here, or they are no head. */
  datatype Verdict = More | Finished | Bad

  /** The generated automaton is a parameter: a verdict on every sequence of bytes. */
  type Machine = seq<byte> -> Verdict

  /** The verdict on the first n bytes; nothing is decided before the first byte. */
  function VerdictAt(v: Machine, s: seq<byte>, n: nat): (r: Verdict)
    requires n <= |s|
  {
    if n == 0 then More else v(s[..n])
  }

  /** Where the automaton stops if it gets the first m bytes: at the first verdict, or behind all of them. */
  function Stop(v: Machine, s: seq<byte>, m: nat): (h: nat)
    requires m <= |s|
    ensures h <= m && (h < m ==> !VerdictAt(v, s, h).More?)
    ensures forall i :: 0 <= i < h ==> VerdictAt(v, s, i).More?
  {
    if m == 0 then 0
    else
      var h := Stop(v, s, m - 1);
      if VerdictAt(v, s, h).More? then m else h
  }

  /** Nothing is decided by the first t bytes. */
  ghost predicate Undecided(v: Machine, s: seq<byte>, t: nat) {
    t <= |s| && forall i :: 0 <= i <= t ==> VerdictAt(v, s, i).More?
  }

  lemma SameVerdict(v: Machine, a: seq<byte>, b: seq<byte>, i: nat)
    requires a <= b && i <= |a|
    ensures VerdictAt(v, a, i) == VerdictAt(v, b, i)
  {
    assert a[..i] == b[..i];
  }

  lemma UndecidedPart(v: Machine, a: seq<byte>, b: seq<byte>)
    requires a <= b && Undecided(v, b, |a|)
    ensures Undecided(v, a, |a|)
  {
    forall i | 0 <= i <= |a|
      ensures VerdictAt(v, a, i).More?
    {
      SameVerdict(v, a, b, i);
    }
  }

  /** There is only one such place. */
  lemma StopIs(v: Machine, s: seq<byte>, m: nat, h: nat)
    requires h <= m <= |s| && (h < m ==> !VerdictAt(v, s, h).More?)
    requires forall i :: 0 <= i < h ==> VerdictAt(v, s, i).More?
    ensures Stop(v, s, m) == h
  {
  }

  /* ---------- how far the reads of the head get ---------- */

  /** How many bytes the reads supply before one fails, each asking for a whole buffer. */
  function Supplied(script: seq<int>, size: nat): (n: nat) {
    if script == [] || script[0] <= 0 || size == 0 then 0 else Min(script[0], size) + Supplied(script[1..], size)
  }

  /** How many of n bytes the head can get. */
  function HeadReach(script: seq<int>, size: nat, n: nat): (m: nat) {
    Min(n, Supplied(script, size))
  }

  /** How many reads it takes to get goal bytes. */
  function Calls(script: seq<int>, size: nat, goal: int): (k: nat)
    ensures k <= |script|
  {
    if goal <= 0 || script == [] then 0 else 1 + Calls(script[1..], size, goal - Min(script[0], size))
  }

  /** How many bytes more than goal these reads get of n. */
  function Held(script: seq<int>, size: nat, n: nat, goal: nat): (held: nat)
    requires goal <= n
    ensures held <= n - goal
  {
    if goal == 0 || script == [] || script[0] <= 0 then 0
    else
      var r := Result(script, size, n);
      if r >= goal then r - goal else Held(script[1..], size, n - r, goal - r)
  }

  /** One read. */
  lemma HeadStep(script: seq<int>, size: nat, n: nat)
    ensures var r := Result(script, size, n);
            && (r > 0 <==> HeadReach(script, size, n) > 0)
            && (r > 0 ==> HeadReach(script, size, n) == r + HeadReach(Tail(script), size, n - r))
  {
  }

  lemma GoalStep(script: seq<int>, size: nat, n: nat, goal: nat)
    requires 0 < goal <= n && Result(script, size, n) > 0
    ensures var r := Result(script, size, n);
            if goal <= r then Calls(script, size, goal) == 1 && Held(script, size, n, goal) == r - goal
            else && Calls(script, size, goal) == 1 + Calls(Tail(script), size, goal - r)
                 && Held(script, size, n, goal) == Held(Tail(script), size, n - r, goal - r)
  {
  }

  /* ---------- what recvRequest returns ---------- */

  datatype Outcome = Request(body: seq<byte>) | ReadFailed | ParseFailed | BufferFull | BodyFailed

  /** One of the first k calls of the parser ended with a callback objecting. */
  predicate Objected(objections: seq<bool>, k: nat) {
    exists i :: 0 <= i < k && i < |objections| && objections[i]
  }

  /** How the head ends, by the last verdict. */
  function HeadOutcome(last: Verdict, objected: bool): (r: Outcome) {
    if objected then ParseFailed
    else match last
      case More => ReadFailed
      case Finished => Request([])
      case Bad => ParseFailed
  }

  /** The rest of the body, once the head is read: there, and of a size that is a positive int. */
  predicate RestArrives(script: seq<int>, n: nat, rest: nat) {
    rest == 0 || (rest <= Reach(script, n) && Int32(rest) > 0)
  }

  /** What is left to read of a body of that length behind a head of h bytes. */
  function Rest(script: seq<int>, size: nat, n: nat, h: nat, length: nat): (rest: nat)
    requires h <= n
  {
    var held := Held(script, size, n, h);
    if length > held then length - held else 0
  }

  predicate BodyArrives(script: seq<int>, size: nat, n: nat, h: nat, length: nat)
    requires h <= n
    ensures BodyArrives(script, size, n, h, length) ==> h + length <= n
  {
    RestArrives(Drop(script, Calls(script, size, h)), n - h - Held(script, size, n, h),
                Rest(script, size, n, h, length))
  }

  /** The end of the head in what arrives, as far as the reads get. */
  function HeadEnd(v: Machine, script: seq<int>, size: nat, s: seq<byte>): (h: nat)
    ensures h <= |s|
  {
    Stop(v, s, HeadReach(script, size, |s|))
  }

  /** What becomes of the head: how it ends, as far as the reads get and the callbacks let it. */
  function HeadResult(v: Machine, objections: seq<bool>, script: seq<int>, size: nat, s: seq<byte>): (r: Outcome) {
    var h := HeadEnd(v, script, size, s);
    HeadOutcome(VerdictAt(v, s, h), Objected(objections, Calls(script, size, h)))
  }

  /** What recvRequest returns for the bytes s that arrive: the body is the bytes right behind the head. */
  function Received(v: Machine, objections: seq<bool>, contentLength: nat, script: seq<int>, size: nat, s: seq<byte>)
    : (r: Outcome)
  {
    var head, h := HeadResult(v, objections, script, size, s), HeadEnd(v, script, size, s);
    var length := Int64(contentLength);
    if !head.Request? || length <= 0 then head
    else if BodyArrives(script, size, |s|, h, length) then Request(s[h..h + length])
    else BodyFailed
  }

  /* ---------- the split does not matter ---------- */

  /** Reads that never fail. */
  predicate Flows(script: seq<int>) {
    forall i :: 0 <= i < |script| ==> script[i] > 0
  }

  lemma {:induction false} FlowSupplies(script: seq<int>, size: nat)
    requires Flows(script) && size > 0
    ensures Supply(script) >= |script| && Supplied(script, size) >= |script|
  {
    if script != [] {
      FlowSupplies(script[1..], size);
    }
  }

  lemma {:induction false} FlowCalls(script: seq<int>, size: nat, goal: int)
    requires Flows(script) && size > 0
    ensures Calls(script, size, goal) <= if goal > 0 then goal else 0
  {
    if script != [] {
      FlowCalls(script[1..], size, goal - Min(script[0], size));
    }
  }

  /** For every way the bytes are split into reads that do not fail, and every size of the buffer, however small:
      a head of h bytes gives a request whose body is the bytes right behind it. */
  lemma SplitDoesNotMatter(v: Machine, objections: seq<bool>, length: nat, script: seq<int>, size: nat, s: seq<byte>,
                           h: nat)
    requires 0 < h && h + length <= |s| && VerdictAt(v, s, h).Finished? && Undecided(v, s, h - 1)
    requires Flows(script) && h + length <= |script| && size > 0 && length < 0x8000_0000 && !Objected(objections, h)
    ensures Received(v, objections, length, script, size, s) == Request(s[h..h + length])
  {
    FlowSupplies(script, size);
    StopIs(v, s, HeadReach(script, size, |s|), h);
    FlowCalls(script, size, h);
    var k := Calls(script, size, h);
    FlowSupplies(script[k..], size);
    assert s[h..h] == [];
  }

  /* ---------- the code ---------- */

  /** The head parser. The state of the automaton is the bytes it has taken; which of its calls end with an
      objection of a callback depends on how the bytes are cut, and is a parameter. */
  class HttpParser {
    const machine: Machine
    var objections: seq<bool>
    var taken: seq<byte>

    constructor (v: Machine, calls: seq<bool>)
      ensures machine == v && objections == calls && taken == []
    {
      machine, objections, taken := v, calls, [];
    }

    /** Nothing is decided yet. */
    ghost predicate Open()
      reads this`taken
    {
      Undecided(machine, taken, |taken|)
    }

    /** The automaton on the first len bytes of the buffer: how many it looks at, and its last verdict. */
    method Run(data: array<byte>, len: nat) returns (n: nat, last: Verdict)
      requires len <= data.Length && Open()
      ensures var s := taken + data[..len];
              |taken| + n == Stop(machine, s, |s|) && last == VerdictAt(machine, s, |taken| + n)
      ensures n <= len && (n == 0 ==> last.More?)
    {
      ghost var s := taken + data[..len];
      n, last := 0, More;
      forall i | 0 <= i <= |taken|
        ensures VerdictAt(machine, s, i).More?
      {
        SameVerdict(machine, taken, s, i);
      }
      while n < len && last.More?
        invariant n <= len && last == VerdictAt(machine, s, |taken| + n) && (n == 0 ==> last.More?)
        invariant forall i :: 0 <= i < |taken| + n ==> VerdictAt(machine, s, i).More?
      {
        n := n + 1;
        last := machine(taken + data[..n]);
        assert s[..|taken| + n] == taken + data[..n];
      }
      StopIs(machine, s, |s|, |taken| + n);
    }

    /** execute: takes bytes from the front of the buffer and moves the rest down. The byte that is no part of a
        head is looked at but not taken. */
    method Execute(data: array<byte>, len: nat) returns (n: nat, last: Verdict, objected: bool)
      requires len <= data.Length && Open()
      modifies this`taken, this`objections, data
      ensures n <= len && old(data[..len]) == old(data[..n]) + data[..len - n] && taken == old(taken) + old(data[..n])
      ensures var s := old(taken) + old(data[..len]);
              var h := Stop(machine, s, |s|);
              last == VerdictAt(machine, s, h) && |taken| == if last.Bad? then h - 1 else h
      ensures objected == Objected(old(objections), 1) && objections == Drop(old(objections), 1)
    {
      n, last := Run(data, len);
      if last.Bad? {
        n := n - 1;
      }
      objected := objections != [] && objections[0];
      objections := Drop(objections, 1);
      taken := taken + data[..n];
      forall i | 0 <= i < len - n {
        data[i] := data[n + i];
      }
    }
  }

  /** The automaton on a part of the input stops where it stops on the whole. */
  lemma StopInPart(v: Machine, part: seq<byte>, all: seq<byte>)
    requires part <= all
    ensures Stop(v, part, |part|) == Stop(v, all, |part|)
    ensures VerdictAt(v, part, Stop(v, part, |part|)) == VerdictAt(v, all, Stop(v, all, |part|))
  {
    var h := Stop(v, part, |part|);
    forall i | 0 <= i <= h
      ensures VerdictAt(v, part, i) == VerdictAt(v, all, i)
    {
      SameVerdict(v, part, all, i);
    }
    StopIs(v, all, |part|, h);
  }

  /** One read into the buffer. */
  method Fill(sock: Socket, data: array<byte>, offset: nat) returns (len: int, ghost d: seq<byte>)
    requires offset == 0
    modifies sock`script, sock`arriving, data
    ensures len == Result(old(sock.script), data.Length, |old(sock.arriving)|) && sock.script == Tail(old(sock.script))
    ensures old(sock.arriving) == d + sock.arriving && (len <= 0 ==> sock.arriving == old(sock.arriving))
    ensures len > 0 ==> |d| == len <= data.Length && data[..len] == d
  {
    var got;
    len, got := sock.Recv(data.Length - offset);
    d := got;
    if len > 0 {
      CopyInto(data, offset, got);
    }
  }

  /** One round of the head loop: a read into the buffer, which the automaton has emptied, and a call of the
      parser. */
  method HeadRound(sock: Socket, parser: HttpParser, data: array<byte>, offset: nat, ghost all: seq<byte>)
    returns (len: int, last: Verdict, objected: bool, offset': nat)
    requires offset == 0 && parser.taken + sock.arriving == all && Undecided(parser.machine, all, |parser.taken|)
    modifies sock`script, sock`arriving, parser`objections, parser`taken, data
    ensures len == Result(old(sock.script), data.Length, |old(sock.arriving)|) && sock.script == Tail(old(sock.script))
    ensures len <= 0 ==> sock.arriving == old(sock.arriving) && parser.taken == old(parser.taken) && offset' == 0
    ensures len > 0 ==>
              var h := Stop(parser.machine, all, |old(parser.taken)| + len);
              && last == VerdictAt(parser.machine, all, h) && |parser.taken| == (if last.Bad? then h - 1 else h)
              && objected == Objected(old(parser.objections), 1) && parser.objections == Drop(old(parser.objections), 1)
              && |parser.taken| + offset' == |old(parser.taken)| + len
    ensures offset' <= data.Length && parser.taken + (data[..offset'] + sock.arriving) == all
  {
    ghost var d;
    len, d := Fill(sock, data, offset);
    last, objected, offset' := More, false, offset;
    if len > 0 {
      var total := len + offset;
      ghost var taken := parser.taken;
      UndecidedPart(parser.machine, taken, all);
      var n;
      n, last, objected := parser.Execute(data, total);
      Regrouped(taken, d, [], sock.arriving);
      StopInPart(parser.machine, taken + d, all);
      offset' := total - n;
      Regrouped(taken, d[..n], data[..offset'], sock.arriving);
    } else {
      assert data[..0] + sock.arriving == sock.arriving;
    }
  }

  lemma Regrouped(a: seq<byte>, b: seq<byte>, c: seq<byte>, d: seq<byte>)
    ensures (a + b) + (c + d) == a + ((b + c) + d)
  {
  }

  /** What is left to read, to call and to hold after k reads of t bytes, of a head of h out of n bytes. */
  ghost predicate Counted(script0: seq<int>, size: nat, n: nat, h: nat, script: seq<int>, t: nat, k: nat) {
    && script == Drop(script0, k) && t <= h <= n
    && t + HeadReach(script, size, n - t) == HeadReach(script0, size, n)
    && k + Calls(script, size, h - t) == Calls(script0, size, h)
    && Held(script, size, n - t, h - t) == Held(script0, size, n, h)
  }

  lemma CountedNext(script0: seq<int>, size: nat, n: nat, h: nat, script: seq<int>, t: nat, k: nat)
    requires Counted(script0, size, n, h, script, t, k) && 0 < Result(script, size, n - t) <= h - t
    ensures Counted(script0, size, n, h, Tail(script), t + Result(script, size, n - t), k + 1)
  {
    HeadStep(script, size, n - t);
    GoalStep(script, size, n - t, h - t);
  }

  lemma StopPasses(v: Machine, s: seq<byte>, p: nat, m: nat)
    requires p <= m <= |s| && VerdictAt(v, s, Stop(v, s, p)).More?
    ensures Stop(v, s, p) == p <= Stop(v, s, m) && Undecided(v, s, p)
  {
  }

  /** After k rounds the automaton has taken t bytes of all, and nothing is decided. */
  ghost predicate SoFar(v: Machine, script0: seq<int>, size: nat, all: seq<byte>, script: seq<int>, t: nat, k: nat) {
    Undecided(v, all, t) && Counted(script0, size, |all|, HeadEnd(v, script0, size, all), script, t, k)
  }

  lemma SoFarStart(v: Machine, script: seq<int>, size: nat, all: seq<byte>)
    ensures SoFar(v, script, size, all, script, 0, 0)
  {
  }

  /** A read that fails ends the loop where the automaton stops. */
  lemma ReadEnds(v: Machine, script0: seq<int>, size: nat, all: seq<byte>, script: seq<int>, t: nat, k: nat)
    requires SoFar(v, script0, size, all, script, t, k) && Result(script, size, |all| - t) <= 0
    ensures HeadEnd(v, script0, size, all) == t && Calls(script0, size, t) == k
    ensures HeadReach(script0, size, |all|) == t
  {
    HeadStep(script, size, |all| - t);
  }

  /** A read that succeeds brings the end of the head nearer. */
  lemma RoundGoes(v: Machine, script0: seq<int>, size: nat, all: seq<byte>, script: seq<int>, t: nat, k: nat)
    requires SoFar(v, script0, size, all, script, t, k) && Result(script, size, |all| - t) > 0
    ensures t + Result(script, size, |all| - t) <= HeadReach(script0, size, |all|)
    ensures t < HeadEnd(v, script0, size, all) && k < Calls(script0, size, HeadEnd(v, script0, size, all))
  {
    HeadStep(script, size, |all| - t);
  }

  lemma RoundStops(v: Machine, script0: seq<int>, size: nat, all: seq<byte>, script: seq<int>, t: nat, k: nat, p: nat)
    requires SoFar(v, script0, size, all, script, t, k) && Result(script, size, |all| - t) > 0
    requires p == t + Result(script, size, |all| - t) && !VerdictAt(v, all, Stop(v, all, p)).More?
    ensures var h := HeadEnd(v, script0, size, all);
            h == Stop(v, all, p) && Calls(script0, size, h) == k + 1 && Held(script0, size, |all|, h) == p - h
  {
    RoundGoes(v, script0, size, all, script, t, k);
    var h := Stop(v, all, p);
    StopIs(v, all, HeadReach(script0, size, |all|), h);
    GoalStep(script, size, |all| - t, h - t);
  }

  lemma RoundGoesOn(v: Machine, script0: seq<int>, size: nat, all: seq<byte>, script: seq<int>, t: nat, k: nat, p: nat)
    requires SoFar(v, script0, size, all, script, t, k) && Result(script, size, |all| - t) > 0
    requires p == t + Result(script, size, |all| - t) && VerdictAt(v, all, Stop(v, all, p)).More?
    ensures Stop(v, all, p) == p && SoFar(v, script0, size, all, Tail(script), p, k + 1)
  {
    RoundGoes(v, script0, size, all, script, t, k);
    StopPasses(v, all, p, HeadReach(script0, size, |all|));
    CountedNext(script0, size, |all|, HeadEnd(v, script0, size, all), script, t, k);
  }

  /** How the head loop ends: with t bytes taken, held bytes in the buffer and the script of the reads to come. */
  ghost predicate Ended(v: Machine, objections: seq<bool>, script0: seq<int>, size: nat, all: seq<byte>, r: Outcome,
                        t: nat, held: nat, script: seq<int>)
  {
    var h := HeadEnd(v, script0, size, all);
    && r == HeadResult(v, objections, script0, size, all)
    && (r.ReadFailed? ==> t == h == HeadReach(script0, size, |all|) && held == 0)
    && (r.Request? ==> t == h && held == Held(script0, size, |all|, h))
    && (r.Request? ==> script == Drop(script0, Calls(script0, size, h)))
  }

  lemma ObjectedNext(objections: seq<bool>, k: nat)
    ensures Objected(objections, k + 1) <==> Objected(objections, k) || Objected(Drop(objections, k), 1)
  {
    if k < |objections| {
      assert Drop(objections, k)[0] == objections[k];
    }
  }

  /** The lemmas on a round, by how it ends: it has read up to p, and t' bytes are taken. */
  lemma RoundEnds(v: Machine, objections: seq<bool>, script0: seq<int>, size: nat, all: seq<byte>, script: seq<int>,
                  t: nat, k: nat, p: nat, last: Verdict, objected: bool, t': nat)
    requires SoFar(v, script0, size, all, script, t, k) && Result(script, size, |all| - t) > 0
    requires p == t + Result(script, size, |all| - t) && last == VerdictAt(v, all, Stop(v, all, p))
    requires !Objected(objections, k) && objected == Objected(Drop(objections, k), 1)
    requires t' == if last.Bad? then Stop(v, all, p) - 1 else Stop(v, all, p)
    ensures t < Stop(v, all, p)
    ensures last.Bad? || objected ==> HeadResult(v, objections, script0, size, all) == ParseFailed
    ensures last.Finished? && !objected ==>
              Ended(v, objections, script0, size, all, Request([]), t', p - t', Tail(script))
    ensures last.More? && !objected ==>
              t' == p && SoFar(v, script0, size, all, Tail(script), p, k + 1) && !Objected(objections, k + 1)
  {
    ObjectedNext(objections, k);
    RoundGoes(v, script0, size, all, script, t, k);
    if last.More? {
      RoundGoesOn(v, script0, size, all, script, t, k, p);
    } else {
      RoundStops(v, script0, size, all, script, t, k, p);
      DropNext(script0, k);
    }
  }

  lemma DropNext(script: seq<int>, k: nat)
    ensures Drop(script, k + 1) == Tail(Drop(script, k))
  {
  }

  /** The head loop is where it may go on. */
  ghost predicate Going(sock: Socket, parser: HttpParser, script0: seq<int>, size: nat, all: seq<byte>,
                        objections: seq<bool>, k: nat)
    reads sock`script, sock`arriving, parser`taken, parser`objections
  {
    && parser.taken + sock.arriving == all
    && SoFar(parser.machine, script0, size, all, sock.script, |parser.taken|, k)
    && parser.objections == Drop(objections, k) && !Objected(objections, k)
  }

  /** A round of the head loop: whether it was the last one, and then how the loop ends. */
  method Round(sock: Socket, parser: HttpParser, data: array<byte>, offset: nat, ghost script0: seq<int>,
               ghost all: seq<byte>, ghost objections: seq<bool>, ghost k: nat)
    returns (done: bool, r: Outcome, offset': nat)
    requires offset == 0 && Going(sock, parser, script0, data.Length, all, objections, k)
    modifies sock`script, sock`arriving, parser`objections, parser`taken, data
    ensures offset' <= data.Length && parser.taken + (data[..offset'] + sock.arriving) == all
    ensures done ==>
              Ended(parser.machine, objections, script0, data.Length, all, r, |parser.taken|, offset', sock.script)
    ensures !done ==> offset' == 0 && Going(sock, parser, script0, data.Length, all, objections, k + 1)
    ensures !done ==> |sock.script| < |old(sock.script)|
  {
    ghost var script, t, v := sock.script, |parser.taken|, parser.machine;
    var len, last, objected;
    len, last, objected, offset' := HeadRound(sock, parser, data, offset, all);
    assert |all| == t + |old(sock.arriving)|;
    if len <= 0 {
      ReadEnds(v, script0, data.Length, all, script, t, k);
      return true, ReadFailed, offset';
    }
    RoundEnds(v, objections, script0, data.Length, all, script, t, k, t + len, last, objected, |parser.taken|);
    if last.Bad? || objected {
      return true, ParseFailed, offset';
    }
    done := offset' == data.Length || last.Finished?;
    r := if offset' == data.Length then BufferFull else Request([]);
  }

  /** The head loop: reads until the parser has finished; what it has not taken stays in the buffer. That the
      buffer is full never happens, however long the head is. */
  method RecvHead(sock: Socket, parser: HttpParser, data: array<byte>) returns (r: Outcome, offset: nat)
    requires parser.taken == []
    modifies sock`script, sock`arriving, parser`objections, parser`taken, data
    ensures Ended(parser.machine, old(parser.objections), old(sock.script), data.Length, old(sock.arriving), r,
                  |parser.taken|, offset, sock.script)
    ensures offset <= data.Length && parser.taken + (data[..offset] + sock.arriving) == old(sock.arriving)
  {
    r, offset := ReadFailed, 0;
    ghost var all, script, objections, k := sock.arriving, sock.script, parser.objections, 0;
    SoFarStart(parser.machine, script, data.Length, all);
    assert [] + all == all;
    var done := false;
    while !done
      invariant done ==>
                  Ended(parser.machine, objections, script, data.Length, all, r, |parser.taken|, offset, sock.script)
      invariant offset <= data.Length && parser.taken + (data[..offset] + sock.arriving) == all
      invariant !done ==> offset == 0 && Going(sock, parser, script, data.Length, all, objections, k)
      decreases !done, |sock.script|
    {
      done, r, offset := Round(sock, parser, data, offset, script, all, objections, k);
      k := k + 1;
    }
  }

  /** The body: what the buffer still holds, then the rest from the connection. What the buffer holds behind
      the body is dropped. */
  method RecvBody(sock: Socket, data: array<byte>, offset: nat, length: nat)
    returns (r: Outcome, ghost dropped: seq<byte>)
    requires offset <= data.Length && 0 < length < 0x8000_0000_0000_0000
    modifies sock`script, sock`arriving
    ensures r.Request? || r.BodyFailed?
    ensures r.Request? <==>
            RestArrives(old(sock.script), |old(sock.arriving)|, if length > offset then length - offset else 0)
    ensures r.Request? ==> |r.body| == length && data[..offset] + old(sock.arriving) == r.body + dropped + sock.arriving
    ensures r.Request? ==> |dropped| == if offset > length then offset - length else 0
  {
    var body := new byte[length];
    ghost var got := [];
    dropped := [];
    if length >= offset {
      CopyInto(body, 0, data[..offset]);
      var ret := 1;
      if length > offset {
        ghost var had := body[..];
        ret, got := sock.ReadFixSize(body, offset, length - offset);
        OverwriteIs(had, offset, got);
      }
      assert offset + |got| == length ==> body[..] == data[..offset] + got;
      r := if ret <= 0 then BodyFailed else Request(body[..]);
    } else {
      CopyInto(body, 0, data[..length]);
      dropped := data[length..offset];
      assert body[..] == data[..length];
      r := Request(body[..]);
    }
  }

  lemma BodyBehind(all: seq<byte>, taken: seq<byte>, held: seq<byte>, arriving: seq<byte>, body: seq<byte>,
                   rest: seq<byte>)
    requires taken + (held + arriving) == all && held + arriving == body + rest
    ensures |taken| + |body| <= |all| && body == all[|taken|..|taken| + |body|] && rest == all[|taken| + |body|..]
  {
    assert all == taken + body + rest;
  }

  /** recvRequest: what comes back is what Received says, for every way the bytes arrive. Behind the body the
      buffer may hold more; that is dropped, and the connection goes on behind it. */
  method RecvRequest(sock: Socket, v: Machine, objections: seq<bool>, contentLength: nat, bufferSize: nat)
    returns (r: Outcome, ghost dropped: seq<byte>)
    modifies sock`script, sock`arriving
    ensures r == Received(v, objections, contentLength, old(sock.script), bufferSize, old(sock.arriving))
    ensures r.Request? ==>
              var h := HeadEnd(v, old(sock.script), bufferSize, old(sock.arriving));
              var held := Held(old(sock.script), bufferSize, |old(sock.arriving)|, h);
              && h + |r.body| <= |old(sock.arriving)|
              && old(sock.arriving)[h + |r.body|..] == dropped + sock.arriving
              && |dropped| == if held > |r.body| then held - |r.body| else 0
  {
    var parser := new HttpParser(v, objections);
    var data := new byte[bufferSize];
    ghost var all := sock.arriving;
    var offset;
    r, offset := RecvHead(sock, parser, data);
    dropped := data[..offset];
    var length := Int64(contentLength);
    ghost var held, arriving := data[..offset], sock.arriving;
    if r.Request? && length > 0 {
      r, dropped := RecvBody(sock, data, offset, length);
    }
    if r.Request? {
      assert r.body + (dropped + sock.arriving) == r.body + dropped + sock.arriving;
      BodyBehind(all, parser.taken, held, arriving, r.body, dropped + sock.arriving);
    }
  }
}
