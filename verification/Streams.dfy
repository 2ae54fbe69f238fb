/** Streams over a socket: the loops that move a fixed number of bytes whatever sizes
    the single transfers have. */
module Streams {
  import opened Wrappers
  import opened Blocks
  import opened ByteArrays

  /** Two slices in a row, the first taken before the sequence grew. */
  lemma Lengthened(s: seq<byte>, t: seq<byte>, p: nat, q: nat, r: nat)
    requires p <= q <= |s| && s <= t && q <= r <= |t|
    ensures s[p..q] + t[q..r] == t[p..r]
  {
    assert s[p..q] == t[p..q];
  }

  function Min(a: int, b: int): (m: int) {
    if a <= b then a else b
  }

  /** What a call returns that may move max bytes, n of them available, when its script entry is the first of
      these; with the script at its end the connection is closed. */
  function Result(script: seq<int>, max: nat, n: nat): (ret: int)
    ensures ret <= max && ret <= n
    ensures ret <= 0 ==> script == [] || script[0] <= 0 || max == 0 || n == 0
  {
    if script == [] then 0 else Min(script[0], Min(max, n))
  }

  /** A call may move any part of what it is asked for and is there, or fail in any way. */
  lemma AnythingMayHappen(ret: int, max: nat, n: nat, rest: seq<int>)
    requires ret <= max && ret <= n
    ensures Result([ret] + rest, max, n) == ret && Tail([ret] + rest) == rest
  {
    assert ([ret] + rest)[1..] == rest;
  }

  function Tail(script: seq<int>): (rest: seq<int>) {
    if script == [] then [] else script[1..]
  }

  /** How many bytes the calls can move before one of them fails. */
  function Supply(script: seq<int>): (n: nat) {
    if script == [] || script[0] <= 0 then 0 else script[0] + Supply(script[1..])
  }

  /** How many of n bytes the calls can move. */
  function Reach(script: seq<int>, n: nat): (m: nat) {
    Min(n, Supply(script))
  }

  /** One call for left bytes, n of them available: it fails exactly if nothing can be moved; otherwise it moves
      all that is left, or what the further calls can move is less by what it moved. */
  lemma ReachStep(script: seq<int>, left: nat, n: nat)
    requires left > 0
    ensures var m := Result(script, left, n);
            && (m > 0 <==> Reach(script, n) > 0) && m <= Reach(script, n)
            && (0 < m < left ==> Reach(script, n) == m + Reach(Tail(script), n - m))
  {
  }

  /** The same for a send, where all that is left is available. */
  lemma SendStep(script: seq<int>, left: nat)
    requires left > 0
    ensures var m := Result(script, left, left);
            && (m > 0 <==> Supply(script) > 0) && m <= Supply(script)
            && (0 < m < left ==> Supply(script) == m + Supply(Tail(script)))
  {
  }

  /** Calls that never fail move at least a byte each, so with enough of them all of n bytes are moved. */
  lemma {:induction false} NeverFailing(script: seq<int>, n: nat)
    requires n <= |script| && forall i :: 0 <= i < |script| ==> script[i] > 0
    ensures Reach(script, n) == n
  {
    if n > 0 {
      NeverFailing(script[1..], n - 1);
    }
  }

  /** The script after k calls. */
  function Drop<T>(s: seq<T>, k: nat): (rest: seq<T>) {
    if k <= |s| then s[k..] else []
  }

  /** How writeFixSize from a buffer ends: with a value, or asking for bytes behind the buffer. */
  datatype SendOutcome = Done(ret: int) | PastEnd

  /** One end of a connection: the bytes still to arrive, the bytes sent, and what the
      coming calls will do: a positive entry bounds the bytes a call moves, the others
      are returned as they are. */
  class Socket {
    var arriving: seq<byte>
    var sent: seq<byte>
    var script: seq<int>

    constructor (bytes: seq<byte>, results: seq<int>)
      ensures arriving == bytes && sent == [] && script == results
    {
      arriving, sent, script := bytes, [], results;
    }

    /** What the next call does with max bytes, n of them available. */
    method Next(max: nat, n: nat) returns (ret: int)
      modifies this`script
      ensures ret == Result(old(script), max, n) && script == Tail(old(script))
    {
      ret := Result(script, max, n);
      script := Tail(script);
    }

    /** recv: up to max bytes, in the order they were sent. */
    method Recv(max: nat) returns (ret: int, d: seq<byte>)
      modifies this`script, this`arriving
      ensures ret == Result(old(script), max, |old(arriving)|) && script == Tail(old(script))
      ensures |d| == (if ret > 0 then ret else 0) && old(arriving) == d + arriving
    {
      ret := Next(max, |arriving|);
      d := if ret > 0 then arriving[..ret] else [];
      arriving := arriving[|d|..];
    }

    /** send: some bytes from the front of d. */
    method Send(d: seq<byte>) returns (ret: int)
      modifies this`script, this`sent
      ensures ret == Result(old(script), |d|, |d|) && script == Tail(old(script))
      ensures sent == old(sent) + d[..if ret > 0 then ret else 0]
    {
      ret := Next(|d|, |d|);
      sent := sent + d[..if ret > 0 then ret else 0];
    }

    /** Stream::readFixSize into a buffer: exactly the next length bytes, however they arrive; got is what
        has arrived when it returns. That is less only if the connection ends or a call fails before. */
    method ReadFixSize(buffer: array<byte>, base: nat, length: nat) returns (ret: int, ghost got: seq<byte>)
      requires base + length <= buffer.Length && length < 0x8000_0000_0000_0000
      modifies this`script, this`arriving, buffer
      ensures |got| == Min(length, Reach(old(script), |old(arriving)|)) && old(arriving) == got + arriving
      ensures buffer[..] == Overwrite(old(buffer[..]), base, got)
      ensures if |got| == length then ret == Int32(length) else ret <= 0
    {
      ghost var was, total := buffer[..], Reach(script, |arriving|);
      var offset, left := 0, length;
      got := [];
      while left > 0
        invariant offset + left == length && |got| == offset && 0 <= left
        invariant old(arriving) == got + arriving && buffer[..] == Overwrite(was, base, got)
        invariant offset <= total && (left > 0 ==> offset + Reach(script, |arriving|) == total)
        decreases left
      {
        ReachStep(script, left, |arriving|);
        var len, d := Recv(left);
        if len <= 0 {
          return len, got;
        }
        OverwriteTwice(was, base, got, d);
        CopyInto(buffer, base + offset, d);
        offset := offset + len;
        left := left - len;
        got := got + d;
      }
      ret := Int32(length);
    }

    /** Stream::writeFixSize from a buffer. Its loop takes the wrong variable down, so what is left never
        gets less: it reports success for the empty buffer only, and exactly if the first send goes through
        it asks for as many bytes again from further on. */
    method WriteFixSize(data: seq<byte>) returns (r: SendOutcome)
      modifies this`script, this`sent
      ensures var first := Result(old(script), |data|, |data|);
              && r == (if data == [] then Done(0) else if first <= 0 then Done(first) else PastEnd)
              && sent == old(sent) + data[..if first > 0 then first else 0]
    {
      var offset, left := 0, |data|;
      while left > 0
        invariant left == |data|
        invariant if offset == 0 then sent == old(sent) && script == old(script)
                  else && data != [] && offset == Result(old(script), |data|, |data|) > 0
                       && sent == old(sent) + data[..offset]
        decreases |data| - offset
      {
        if offset + left > |data| {
          return PastEnd;
        }
        var len := Send(data[offset..offset + left]);
        assert data[0..|data|] == data;
        if len <= 0 {
          return Done(len);
        }
        offset := offset + len;
        len := len - left;
      }
      r := Done(Int32(|data|));
    }

    /** SocketStream::read into a ByteArray: the bytes that arrived are written at its position. */
    method ReadArray(ba: ByteArray, length: nat) returns (ret: int, ghost d: seq<byte>)
      requires ba.Valid()
      modifies this`script, this`arriving
      modifies ba`position, ba`capacity, ba`size, ba`cur, ba`nodes, ba`bytes, ba.nodes, Bufs(ba.nodes)
      ensures ret == Result(old(script), length, |old(arriving)|) && script == Tail(old(script))
      ensures |d| == (if ret > 0 then ret else 0) && old(arriving) == d + arriving
      ensures ba.Valid() && ba.Grown() && ba.position == old(ba.position) + |d|
      ensures ba.Contents() == Written(old(ba.Contents()), old(ba.position), d)
    {
      var rs, k := ba.GetWriteBuffers(length);
      var data;
      ret, data := Recv(length);
      d := data;
      ba.Deliver(rs, k, ret, data);
    }

    /** What has come in since the array stood at p with these contents is written there. */
    ghost predicate Filled(ba: ByteArray, start: seq<byte>, p: nat, got: seq<byte>)
      reads ba, ba.nodes, Bufs(ba.nodes)
    {
      ba.Valid() && p <= |start| && ba.position == p + |got| && ba.Contents() == Written(start, p, got)
    }

    /** Reads once; what has been got so far and this time are written one after the other. */
    method Fill(ba: ByteArray, left: nat, ghost start: seq<byte>, ghost p: nat, ghost got: seq<byte>)
      returns (ret: int, ghost d: seq<byte>)
      requires Filled(ba, start, p, got)
      modifies this`script, this`arriving
      modifies ba`position, ba`capacity, ba`size, ba`cur, ba`nodes, ba`bytes, ba.nodes, Bufs(ba.nodes)
      ensures ret == Result(old(script), left, |old(arriving)|) && script == Tail(old(script))
      ensures |d| == (if ret > 0 then ret else 0) && old(arriving) == d + arriving
      ensures Filled(ba, start, p, got + d) && ba.Grown()
    {
      ret, d := ReadArray(ba, left);
      WrittenParts(start, p, got, d);
    }

    /** Reads once more, and keeps the account of what is still to come. */
    method ReadMore(ba: ByteArray, left: nat, ghost start: seq<byte>, ghost p: nat, ghost got: seq<byte>,
                    ghost was: seq<byte>, ghost total: int)
      returns (ret: int, ghost got': seq<byte>)
      requires was == got + arriving && left > 0 && |got| + Reach(script, |arriving|) == total
      requires Filled(ba, start, p, got)
      modifies this`script, this`arriving
      modifies ba`position, ba`capacity, ba`size, ba`cur, ba`nodes, ba`bytes, ba.nodes, Bufs(ba.nodes)
      ensures ret <= left && |got'| == |got| + (if ret > 0 then ret else 0) && was == got' + arriving
      ensures if ret <= 0 then |got'| == total
              else |got'| <= total && (ret < left ==> |got'| + Reach(script, |arriving|) == total)
      ensures Filled(ba, start, p, got') && ba.Grown()
    {
      ghost var d;
      ReachStep(script, left, |arriving|);
      ret, d := Fill(ba, left, start, p, got);
      Regroup(got, d, arriving);
      got' := got + d;
    }

    /** Stream::readFixSize into a ByteArray: exactly the next length bytes, written at its position; less only
        if the connection ends or a call fails before. */
    method ReadArrayFixSize(ba: ByteArray, length: nat) returns (ret: int, ghost got: seq<byte>)
      requires ba.Valid() && length < 0x8000_0000_0000_0000
      modifies this`script, this`arriving
      modifies ba`position, ba`capacity, ba`size, ba`cur, ba`nodes, ba`bytes, ba.nodes, Bufs(ba.nodes)
      ensures |got| == Min(length, Reach(old(script), |old(arriving)|)) && old(arriving) == got + arriving
      ensures ba.Valid() && ba.position == old(ba.position) + |got|
      ensures ba.Contents() == Written(old(ba.Contents()), old(ba.position), got)
      ensures if |got| == length then ret == Int32(length) else ret <= 0
    {
      got := [];
      ghost var start, p, total := ba.Contents(), ba.position, Reach(script, |arriving|);
      var left := length;
      while left > 0
        invariant 0 <= left && |got| + left == length && old(arriving) == got + arriving
        invariant Filled(ba, start, p, got) && ba.Grown()
        invariant |got| <= total && (left > 0 ==> |got| + Reach(script, |arriving|) == total)
        decreases left
      {
        var len;
        len, got := ReadMore(ba, left, start, p, got, old(arriving), total);
        if len <= 0 {
          return len, got;
        }
        left := left - len;
      }
      ret := Int32(length);
    }

    /** SocketStream::write of a ByteArray. It sends from the blocks at the position without a look at
        the size: past the unread bytes it sends what the storage holds and makes that contents. */
    method WriteArray(ba: ByteArray, length: nat) returns (ret: int, ghost d: seq<byte>)
      requires ba.Valid()
      modifies this`script, this`sent
      modifies ba`position, ba`capacity, ba`size, ba`cur, ba`nodes, ba`bytes, ba.nodes
      ensures ret == Result(old(script), length, length) && script == Tail(old(script))
      ensures |d| == (if ret > 0 then ret else 0) && sent == old(sent) + d
      ensures ba.Valid() && ba.Grown() && ba.position == old(ba.position) + |d| && old(ba.Contents()) <= ba.Contents()
      ensures d == ba.Contents()[old(ba.position)..ba.position]
      ensures ba.size == if ba.position > old(ba.size) then ba.position else old(ba.size)
    {
      var out := ba.Outgoing(length);
      ret := Send(out);
      d := ba.Advance(ret, out);
    }

    /** What has gone out since the array stood at p with these contents. */
    ghost predicate Passed(ba: ByteArray, start: seq<byte>, p: nat, d: seq<byte>)
      reads ba, ba.nodes, Bufs(ba.nodes)
    {
      && ba.Valid() && start <= ba.Contents() && p <= ba.position && d == ba.Contents()[p..ba.position]
      && ba.size == if ba.position > |start| then ba.position else |start|
    }

    lemma PassedMeans(ba: ByteArray, start: seq<byte>, p: nat, d: seq<byte>)
      requires Passed(ba, start, p, d) && p <= |start|
      ensures ba.Contents() == start <==> |d| <= |start| - p
    {
    }

    /** Writes once more. */
    method WriteMore(ba: ByteArray, left: nat, ghost start: seq<byte>, ghost p: nat, ghost d: seq<byte>,
                     ghost was: seq<byte>, ghost total: int)
      returns (ret: int, ghost d': seq<byte>)
      requires Passed(ba, start, p, d) && sent == was + d && left > 0 && |d| + Supply(script) == total
      modifies this`script, this`sent
      modifies ba`position, ba`capacity, ba`size, ba`cur, ba`nodes, ba`bytes, ba.nodes
      ensures ret <= left && |d'| == |d| + (if ret > 0 then ret else 0) && sent == was + d'
      ensures if ret <= 0 then |d'| == total else |d'| <= total && (ret < left ==> |d'| + Supply(script) == total)
      ensures Passed(ba, start, p, d') && ba.Grown()
    {
      ghost var e, before, at := [], ba.Contents(), ba.position;
      SendStep(script, left);
      ret, e := WriteArray(ba, left);
      Lengthened(before, ba.Contents(), p, at, ba.position);
      Regroup(was, d, e);
      d' := d + e;
    }

    /** Stream::writeFixSize of a ByteArray: it stops short only if a send fails. */
    method WriteArrayFixSize(ba: ByteArray, length: nat) returns (ret: int, ghost d: seq<byte>)
      requires ba.Valid() && length < 0x8000_0000_0000_0000
      modifies this`script, this`sent
      modifies ba`position, ba`capacity, ba`size, ba`cur, ba`nodes, ba`bytes, ba.nodes
      ensures |d| == Min(length, Supply(old(script))) && sent == old(sent) + d
      ensures if |d| == length then ret == Int32(length) else ret <= 0
      ensures ba.Valid() && ba.position == old(ba.position) + |d| && old(ba.Contents()) <= ba.Contents()
      ensures d == ba.Contents()[old(ba.position)..ba.position]
      ensures ba.Contents() == old(ba.Contents()) <==> |d| <= old(ba.size - ba.position)
    {
      d := [];
      ghost var start, p, total := ba.Contents(), ba.position, Supply(script);
      var left := length;
      while left > 0
        invariant 0 <= left && |d| + left == length && sent == old(sent) + d
        invariant Passed(ba, start, p, d) && ba.Grown()
        invariant |d| <= total && (left > 0 ==> |d| + Supply(script) == total)
        decreases left
      {
        var len;
        len, d := WriteMore(ba, left, start, p, d, old(sent), total);
        if len <= 0 {
          PassedMeans(ba, start, p, d);
          return len, d;
        }
        left := left - len;
      }
      PassedMeans(ba, start, p, d);
      ret := Int32(length);
    }
  }
}
