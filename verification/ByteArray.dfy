/** Index arithmetic of fixed-size blocks, and flat overwriting. */
module Blocks {

  type byte = x: int | 0 <= x < 256

  /** d stored at p, byte by byte; everything else stays. */
  function Overwrite(b: seq<byte>, p: nat, d: seq<byte>): (r: seq<byte>)
    requires p + |d| <= |b|
    ensures |r| == |b|
    decreases |d|
  {
    if d == [] then b else Overwrite(b[p := d[0]], p + 1, d[1..])
  }

  lemma {:induction false} OverwriteIs(b: seq<byte>, p: nat, d: seq<byte>)
    requires p + |d| <= |b|
    ensures Overwrite(b, p, d) == b[..p] + d + b[p + |d|..]
    decreases |d|
  {
    if d != [] {
      OverwriteIs(b[p := d[0]], p + 1, d[1..]);
    }
  }

  lemma OverwriteTwice(b: seq<byte>, p: nat, d: seq<byte>, e: seq<byte>)
    requires p + |d| + |e| <= |b|
    ensures Overwrite(Overwrite(b, p, d), p + |d|, e) == Overwrite(b, p, d + e)
  {
    OverwriteIs(b, p, d);
    OverwriteIs(Overwrite(b, p, d), p + |d|, e);
    OverwriteIs(b, p, d + e);
  }

  lemma OverwriteHead(b: seq<byte>, p: nat, d: seq<byte>, n: nat)
    requires n <= |d| && p + |d| <= |b|
    ensures Overwrite(Overwrite(b, p, d[..n]), p + n, d[n..]) == Overwrite(b, p, d)
    ensures n == |d| ==> d[..n] == d
  {
    OverwriteTwice(b, p, d[..n], d[n..]);
    assert d[..n] + d[n..] == d;
  }

  lemma SliceOfSlice(flat: seq<byte>, a: nat, m: nat, off: nat, n: nat)
    requires a + m <= |flat| && off + n <= m
    ensures flat[a..a + m][off..off + n] == flat[a + off..a + off + n]
  {
    var x, y := flat[a..a + m][off..off + n], flat[a + off..a + off + n];
    forall i | 0 <= i < n
      ensures x[i] == y[i]
    {
      assert x[i] == flat[a..a + m][off + i] == flat[a + off + i];
    }
  }

  lemma Regroup(a: seq<byte>, b: seq<byte>, c: seq<byte>)
    ensures (a + b) + c == a + (b + c)
  {
  }

  /** Where block k starts: k * base, by repeated addition. */
  function Start(k: nat, base: nat): (p: nat)
  {
    if k == 0 then 0 else Start(k - 1, base) + base
  }

  lemma {:induction false} StartIsProduct(k: nat, base: nat)
    ensures Start(k, base) == k * base
  {
    if k > 0 {
      StartIsProduct(k - 1, base);
      assert k * base == (k - 1) * base + base;
    }
  }

  /** A block ends no later than a later block starts. */
  lemma {:induction false} BlockOrder(j: nat, k: nat, base: nat)
    requires j < k
    ensures Start(j, base) + base <= Start(k, base)
  {
    if j < k - 1 {
      BlockOrder(j, k - 1, base);
    }
  }

  /** Quotient and remainder of a position inside block k. */
  lemma BlockOf(k: nat, off: nat, base: nat)
    requires off < base
    ensures (Start(k, base) + off) / base == k && (Start(k, base) + off) % base == off
  {
    StartIsProduct(k, base);
    DivisionIsUnique(k * base + off, k, off, base);
  }

  lemma DivisionIsUnique(p: nat, k: nat, off: nat, base: nat)
    requires p == k * base + off && off < base
    ensures p / base == k && p % base == off
  {
    var q := p / base;
    assert p == q * base + p % base;
    if q < k {
      MulStep(q, k, base);
    } else if k < q {
      MulStep(k, q, base);
    }
  }

  lemma MulStep(a: nat, b: nat, c: nat)
    requires a < b
    ensures a * c + c <= b * c
  {
    assert (a + 1) * c <= b * c;
  }

  /** A position before the end lies in one of the n blocks. */
  lemma BlockExists(p: nat, n: nat, base: nat)
    requires base >= 1 && p < Start(n, base)
    ensures p / base < n && p == Start(p / base, base) + p % base
  {
    var q := p / base;
    StartIsProduct(q, base);
    StartIsProduct(n, base);
    assert p == q * base + p % base;
    if n < q {
      MulStep(n, q, base);
    }
  }

  /** The number of blocks that n more bytes need: n / base, rounded up. */
  method BlocksFor(n: nat, base: nat) returns (c: nat)
    requires base >= 1
    ensures n <= Start(c, base) < n + base
  {
    c := (n + base - 1) / base;
    StartIsProduct(c, base);
    assert n + base - 1 == c * base + (n + base - 1) % base;
  }

  lemma {:induction false} StartAdds(j: nat, k: nat, base: nat)
    ensures Start(j + k, base) == Start(j, base) + Start(k, base)
  {
    if k > 0 {
      StartAdds(j, k - 1, base);
    }
  }

  /** The blocks, laid end to end, are the flat sequence. */
  ghost predicate Tiled(blocks: seq<seq<byte>>, flat: seq<byte>, base: nat) {
    && |flat| == Start(|blocks|, base)
    && forall k :: 0 <= k < |blocks| ==> IsBlock(blocks[k], flat, k, base)
  }

  ghost predicate IsBlock(block: seq<byte>, flat: seq<byte>, k: nat, base: nat) {
    && Start(k, base) + base <= |flat|
    && block == flat[Start(k, base)..Start(k, base) + base]
  }

  lemma BlockUntouched(block: seq<byte>, flat: seq<byte>, j: nat, base: nat, p: nat, d: seq<byte>)
    requires IsBlock(block, flat, j, base) && p + |d| <= |flat|
    requires Start(j, base) + base <= p || p + |d| <= Start(j, base)
    ensures IsBlock(block, Overwrite(flat, p, d), j, base)
  {
    var start := Start(j, base);
    OverwriteIs(flat, p, d);
    assert (flat[..p] + d + flat[p + |d|..])[start..start + base] == flat[start..start + base];
  }

  lemma BlockTouched(block: seq<byte>, flat: seq<byte>, k: nat, base: nat, off: nat, d: seq<byte>)
    requires IsBlock(block, flat, k, base) && off + |d| <= base
    ensures IsBlock(Overwrite(block, off, d), Overwrite(flat, Start(k, base) + off, d), k, base)
  {
    var start := Start(k, base);
    var p := start + off;
    OverwriteIs(block, off, d);
    OverwriteIs(flat, p, d);
    assert block[..off] == flat[start..p] && block[off + |d|..] == flat[p + |d|..start + base];
    assert (flat[..p] + d + flat[p + |d|..])[start..start + base] == flat[start..p] + d + flat[p + |d|..start + base];
  }

  /** Overwriting inside block k is overwriting the flat sequence. */
  lemma TiledStore(blocks: seq<seq<byte>>, flat: seq<byte>, base: nat, k: nat, off: nat, d: seq<byte>)
    requires Tiled(blocks, flat, base) && k < |blocks| && off + |d| <= base
    ensures |blocks[k]| == base && Start(k, base) + off + |d| <= |flat|
    ensures Tiled(blocks[k := Overwrite(blocks[k], off, d)], Overwrite(flat, Start(k, base) + off, d), base)
  {
    assert IsBlock(blocks[k], flat, k, base);
    var p := Start(k, base) + off;
    var blocks', flat' := blocks[k := Overwrite(blocks[k], off, d)], Overwrite(flat, p, d);
    forall j | 0 <= j < |blocks'|
      ensures IsBlock(blocks'[j], flat', j, base)
    {
      assert IsBlock(blocks[j], flat, j, base);
      if j == k {
        BlockTouched(blocks[k], flat, k, base, off, d);
      } else {
        if j < k {
          BlockOrder(j, k, base);
        } else {
          BlockOrder(k, j, base);
        }
        BlockUntouched(blocks[j], flat, j, base, p, d);
      }
    }
  }

  lemma TiledAppend(blocks: seq<seq<byte>>, flat: seq<byte>, base: nat, b: seq<byte>)
    requires Tiled(blocks, flat, base) && |b| == base
    ensures Tiled(blocks + [b], flat + b, base)
  {
    var blocks', flat' := blocks + [b], flat + b;
    assert |flat'| == Start(|blocks'|, base);
    forall j | 0 <= j < |blocks'|
      ensures IsBlock(blocks'[j], flat', j, base)
    {
      if j < |blocks| {
        assert IsBlock(blocks[j], flat, j, base);
      }
    }
  }
}

/** ByteArray: a linked list of blocks of one size with a cursor, which behaves
    like one flat, growing byte sequence. */
module ByteArrays {
  import opened Blocks

  class Node {
    const buf: array<byte>
    var next: Node?

    constructor (n: nat)
      ensures fresh(buf) && buf.Length == n && next == null
    {
      buf := new byte[n];
      next := null;
    }
  }

  /** The list: through next to null, no block twice, all of one size. */
  ghost predicate Chain(nodes: seq<Node>, base: nat)
    reads nodes
  {
    && base >= 1 && |nodes| >= 1
    && (forall k :: 0 <= k < |nodes| ==> nodes[k].buf.Length == base)
    && (forall j, k :: 0 <= j < k < |nodes| ==> nodes[j] != nodes[k] && nodes[j].buf != nodes[k].buf)
    && (forall k :: 0 <= k < |nodes| - 1 ==> nodes[k].next == nodes[k + 1])
    && nodes[|nodes| - 1].next == null
  }

  ghost function Bufs(nodes: seq<Node>): (b: set<array<byte>>) {
    set n | n in nodes :: n.buf
  }

  ghost function BlockSeq(nodes: seq<Node>): (b: seq<seq<byte>>)
    reads Bufs(nodes)
    ensures |b| == |nodes| && forall k :: 0 <= k < |nodes| ==> b[k] == nodes[k].buf[..]
  {
    seq(|nodes|, k requires 0 <= k < |nodes| reads Bufs(nodes) => nodes[k].buf[..])
  }

  /** The block a cursor at p belongs to; none at the very end. */
  ghost function NodeAt(nodes: seq<Node>, base: nat, p: nat): (n: Node?) {
    if nodes == [] then null
    else if p < base then nodes[0]
    else NodeAt(nodes[1..], base, p - base)
  }

  /** The cursor at offset off of block k. */
  lemma {:induction false} NodeAtBlock(nodes: seq<Node>, base: nat, k: nat, off: nat)
    requires off < base && k < |nodes|
    ensures Start(k, base) + off < Start(|nodes|, base)
    ensures NodeAt(nodes, base, Start(k, base) + off) == nodes[k]
  {
    BlockOrder(k, |nodes|, base);
    if k > 0 {
      NodeAtBlock(nodes[1..], base, k - 1, off);
    }
  }

  /** The cursor where block k starts, or at the end. */
  lemma {:induction false} NodeAtStart(nodes: seq<Node>, base: nat, k: nat)
    requires base >= 1 && k <= |nodes|
    ensures Start(k, base) <= Start(|nodes|, base)
    ensures NodeAt(nodes, base, Start(k, base)) == if k < |nodes| then nodes[k] else null
  {
    if k < |nodes| {
      NodeAtBlock(nodes, base, k, 0);
    } else if k > 0 {
      NodeAtStart(nodes[1..], base, k - 1);
    }
  }

  /** Blocks appended behind a cursor do not move it. */
  lemma {:induction false} NodeAtGrown(nodes: seq<Node>, nodes': seq<Node>, base: nat, p: nat)
    requires base >= 1 && nodes <= nodes' && p < Start(|nodes|, base)
    ensures p < Start(|nodes'|, base) && NodeAt(nodes', base, p) == NodeAt(nodes, base, p)
  {
    if |nodes| < |nodes'| {
      BlockOrder(|nodes|, |nodes'|, base);
    }
    if p >= base {
      NodeAtGrown(nodes[1..], nodes'[1..], base, p - base);
    }
  }

  /** The cursor after growth: unmoved, or the first new block if it was at the end. */
  lemma CursorGrown(nodes: seq<Node>, nodes': seq<Node>, base: nat, p: nat)
    requires base >= 1 && nodes < nodes' && p <= Start(|nodes|, base)
    ensures NodeAt(nodes', base, p) == if p == Start(|nodes|, base) then nodes'[|nodes|] else NodeAt(nodes, base, p)
  {
    if p == Start(|nodes|, base) {
      NodeAtStart(nodes', base, |nodes|);
    } else {
      NodeAtGrown(nodes, nodes', base, p);
    }
  }

  /** The cursor is null exactly at the end, and otherwise is block p / base. */
  lemma CursorBlock(nodes: seq<Node>, base: nat, p: nat)
    requires base >= 1 && p <= Start(|nodes|, base)
    ensures NodeAt(nodes, base, p) == null <==> p == Start(|nodes|, base)
    ensures p < Start(|nodes|, base) ==>
              p / base < |nodes| && NodeAt(nodes, base, p) == nodes[p / base] && p == Start(p / base, base) + p % base
  {
    if p < Start(|nodes|, base) {
      BlockExists(p, |nodes|, base);
      NodeAtBlock(nodes, base, p / base, p % base);
    } else {
      NodeAtStart(nodes, base, |nodes|);
    }
  }

  /** The cursor after n more bytes of block k: in the block, or at the next one. */
  lemma CursorAfter(nodes: seq<Node>, base: nat, k: nat, off: nat, n: nat)
    requires off + n <= base && 1 <= base && k < |nodes|
    ensures NodeAt(nodes, base, Start(k, base) + off + n) ==
            if off + n < base then nodes[k] else if k + 1 < |nodes| then nodes[k + 1] else null
    ensures off + n == base ==> Start(k, base) + off + n == Start(k + 1, base)
    ensures k + 1 == |nodes| ==> Start(k, base) + base == Start(|nodes|, base)
  {
    if off + n < base {
      NodeAtBlock(nodes, base, k, off + n);
    } else {
      NodeAtStart(nodes, base, k + 1);
    }
  }

  /** memcpy into a block. */
  method CopyInto(a: array<byte>, off: nat, d: seq<byte>)
    requires off + |d| <= a.Length
    modifies a
    ensures a[..] == Overwrite(old(a[..]), off, d)
    ensures a[off..off + |d|] == d && a[..off] == old(a[..off]) && a[off + |d|..] == old(a[off + |d|..])
  {
    forall i | 0 <= i < |d| {
      a[off + i] := d[i];
    }
    OverwriteIs(old(a[..]), off, d);
  }

  /** The blocks in order hold the bytes in order. */
  ghost predicate Stored(nodes: seq<Node>, flat: seq<byte>, base: nat)
    reads nodes, Bufs(nodes)
  {
    Chain(nodes, base) && Tiled(BlockSeq(nodes), flat, base)
  }

  /** Copies d into block k at off; the flat view changes there and nowhere else. */
  method Store(ghost nodes: seq<Node>, ghost base: nat, ghost k: nat, buf: array<byte>, off: nat, d: seq<byte>,
               ghost flat: seq<byte>)
    requires Stored(nodes, flat, base) && k < |nodes| && buf == nodes[k].buf && off + |d| <= base
    modifies buf
    ensures Start(k, base) + off + |d| <= |flat|
    ensures Stored(nodes, Overwrite(flat, Start(k, base) + off, d), base)
  {
    TiledStore(BlockSeq(nodes), flat, base, k, off, d);
    ghost var blocks := BlockSeq(nodes);
    CopyInto(buf, off, d);
    assert BlockSeq(nodes) == blocks[k := Overwrite(blocks[k], off, d)];
  }

  /** Part of a block is part of the flat view. */
  lemma BlockSlice(nodes: seq<Node>, flat: seq<byte>, base: nat, k: nat, off: nat, n: nat)
    requires Stored(nodes, flat, base) && k < |nodes| && off + n <= base
    ensures Start(k, base) + off + n <= |flat|
    ensures nodes[k].buf[off..off + n] == flat[Start(k, base) + off..Start(k, base) + off + n]
  {
    var block, start := BlockSeq(nodes)[k], Start(k, base);
    assert IsBlock(block, flat, k, base);
    assert nodes[k].buf[off..off + n] == block[off..off + n] == flat[start..start + base][off..off + n];
    SliceOfSlice(flat, start, base, off, n);
  }

  /** One iovec: len bytes of a block's buffer from off on. */
  datatype Region = Region(buf: array<byte>, off: nat, len: nat)

  ghost function Total(rs: seq<Region>): (n: nat) {
    if rs == [] then 0 else rs[0].len + Total(rs[1..])
  }

  /** Region r is the storage at p, inside block k. */
  ghost predicate InBlock(r: Region, nodes: seq<Node>, base: nat, p: nat, k: nat) {
    k < |nodes| && r.buf == nodes[k].buf && p == Start(k, base) + r.off && r.off + r.len <= base
  }

  /** The regions, in order, are the storage from p on, one region a block from block k on. */
  ghost predicate Covers(rs: seq<Region>, nodes: seq<Node>, base: nat, p: nat, k: nat) {
    rs != [] ==> InBlock(rs[0], nodes, base, p, k) && Covers(rs[1..], nodes, base, p + rs[0].len, k + 1)
  }

  lemma {:induction false} CoversAppend(rs: seq<Region>, nodes: seq<Node>, base: nat, p: nat, k: nat, r: Region)
    requires Covers(rs, nodes, base, p, k) && InBlock(r, nodes, base, p + Total(rs), k + |rs|)
    ensures Covers(rs + [r], nodes, base, p, k) && Total(rs + [r]) == Total(rs) + r.len
  {
    if rs == [] {
      assert rs + [r] == [r] && [r][1..] == [];
    } else {
      CoversAppend(rs[1..], nodes, base, p + rs[0].len, k + 1, r);
      assert (rs + [r])[1..] == rs[1..] + [r];
    }
  }

  lemma {:induction false} CoversBufs(rs: seq<Region>, nodes: seq<Node>, base: nat, p: nat, k: nat)
    requires Chain(nodes, base) && Covers(rs, nodes, base, p, k)
    ensures forall r :: r in rs ==> r.buf in Bufs(nodes) && r.off + r.len <= r.buf.Length
  {
    if rs != [] {
      CoversBufs(rs[1..], nodes, base, p + rs[0].len, k + 1);
      assert rs == [rs[0]] + rs[1..];
    }
  }

  /** What the regions hold, one after the other. */
  ghost function Gathered(rs: seq<Region>): (d: seq<byte>)
    reads set r | r in rs :: r.buf
  {
    if rs == [] then [] else Slice(rs[0]) + Gathered(rs[1..])
  }

  ghost function Slice(r: Region): (d: seq<byte>)
    reads r.buf
  {
    if r.off + r.len <= r.buf.Length then r.buf[r.off..r.off + r.len] else []
  }

  lemma PrefixSlice(flat: seq<byte>, n: nat, i: nat, j: nat)
    requires i <= j <= n <= |flat|
    ensures flat[..n][i..j] == flat[i..j]
  {
  }

  /** Part of the unread bytes; all of them exactly if it ends where they end. */
  lemma UnreadPart(flat: seq<byte>, size: nat, p: nat, q: nat)
    requires p <= q <= size <= |flat|
    ensures flat[p..q] <= flat[..size][p..]
    ensures flat[p..q] == flat[..size][p..] <==> q == size
  {
    assert flat[..size][p..] == flat[p..size];
    assert |flat[p..q]| == q - p;
  }

  lemma SliceAdds(flat: seq<byte>, p: nat, a: nat, b: nat)
    requires p + a + b <= |flat|
    ensures flat[p..p + a] + flat[p + a..p + a + b] == flat[p..p + (a + b)]
  {
  }

  /** A region inside a block holds that part of the flat view. */
  lemma RegionSlice(r: Region, nodes: seq<Node>, base: nat, p: nat, k: nat, flat: seq<byte>)
    requires Stored(nodes, flat, base) && InBlock(r, nodes, base, p, k)
    ensures p + r.len <= |flat| && Slice(r) == flat[p..p + r.len]
  {
    BlockSlice(nodes, flat, base, k, r.off, r.len);
  }

  lemma {:induction false} GatheredIs(rs: seq<Region>, nodes: seq<Node>, base: nat, p: nat, k: nat, flat: seq<byte>)
    requires Stored(nodes, flat, base) && Covers(rs, nodes, base, p, k) && p <= |flat|
    ensures p + Total(rs) <= |flat| && Gathered(rs) == flat[p..p + Total(rs)]
  {
    if rs != [] {
      RegionSlice(rs[0], nodes, base, p, k, flat);
      GatheredIs(rs[1..], nodes, base, p + rs[0].len, k + 1, flat);
      SliceAdds(flat, p, rs[0].len, Total(rs[1..]));
    }
  }

  lemma RegionsHold(rs: seq<Region>, nodes: seq<Node>, base: nat, p: nat, k: nat, flat: seq<byte>)
    requires Stored(nodes, flat, base) && Covers(rs, nodes, base, p, k) && p <= |flat|
    ensures forall r :: r in rs ==> r.buf in Bufs(nodes) && r.off + r.len <= r.buf.Length
    ensures p + Total(rs) <= |flat| && Gathered(rs) == flat[p..p + Total(rs)]
  {
    CoversBufs(rs, nodes, base, p, k);
    GatheredIs(rs, nodes, base, p, k, flat);
  }

  /** What a vectored send takes from the regions. */
  method Gather(rs: seq<Region>) returns (d: seq<byte>)
    requires forall r :: r in rs ==> r.off + r.len <= r.buf.Length
    ensures d == Gathered(rs)
  {
    d := [];
    var i := |rs|;
    while i > 0
      invariant 0 <= i <= |rs| && d == Gathered(rs[i..])
    {
      i := i - 1;
      assert rs[i..][1..] == rs[i + 1..];
      d := rs[i].buf[rs[i].off..rs[i].off + rs[i].len] + d;
    }
    assert rs[0..] == rs;
  }

  /** What read does besides returning bytes: throw out_of_range, or dereference
      the cursor when it is null. */
  datatype ReadResult = Bytes(data: seq<byte>) | OutOfRange | NullCursor

  /** The flat specification of read: even a read of nothing needs a block at the position. */
  function ReadOf(s: seq<byte>, p: nat, n: nat, capacity: nat): (r: ReadResult)
    requires p <= |s|
  {
    if n > |s| - p then OutOfRange else if p == capacity then NullCursor else Bytes(s[p..p + n])
  }

  /** The flat specification of write: byte by byte, over what is there and then behind it. */
  function Written(s: seq<byte>, p: nat, d: seq<byte>): (r: seq<byte>)
    requires p <= |s|
    ensures |r| == if p + |d| <= |s| then |s| else p + |d|
    decreases |d|
  {
    if d == [] then s else Written(if p < |s| then s[p := d[0]] else s + [d[0]], p + 1, d[1..])
  }

  lemma {:induction false} WrittenIs(s: seq<byte>, p: nat, d: seq<byte>)
    requires p <= |s|
    ensures Written(s, p, d) == s[..p] + d + (if p + |d| <= |s| then s[p + |d|..] else [])
    decreases |d|
  {
    if d != [] {
      WrittenIs(if p < |s| then s[p := d[0]] else s + [d[0]], p + 1, d[1..]);
    }
  }

  /** Overwriting the storage at p is the flat write to the part in use. */
  lemma FlatWrite(flat: seq<byte>, size: nat, p: nat, d: seq<byte>)
    requires p <= size <= |flat| && p + |d| <= |flat|
    ensures Overwrite(flat, p, d)[..if p + |d| > size then p + |d| else size] == Written(flat[..size], p, d)
  {
    OverwriteIs(flat, p, d);
    WrittenIs(flat[..size], p, d);
  }

  /** Writing in two parts. */
  lemma WrittenHead(s: seq<byte>, p: nat, d: seq<byte>, n: nat)
    requires p <= |s| && n <= |d|
    ensures Written(Written(s, p, d[..n]), p + n, d[n..]) == Written(s, p, d)
  {
    WrittenIs(s, p, d[..n]);
    WrittenIs(Written(s, p, d[..n]), p + n, d[n..]);
    WrittenIs(s, p, d);
  }

  lemma WrittenParts(s: seq<byte>, p: nat, d: seq<byte>, e: seq<byte>)
    requires p <= |s|
    ensures Written(Written(s, p, d), p + |d|, e) == Written(s, p, d + e)
  {
    WrittenHead(s, p, d + e, |d|);
    assert (d + e)[..|d|] == d && (d + e)[|d|..] == e;
  }

  class ByteArray {
    const baseSize: nat
    const root: Node
    var position: nat
    var capacity: nat
    var size: nat
    var littleEndian: bool
    var cur: Node?

    /** The blocks in list order, and the storage as one sequence. */
    ghost var nodes: seq<Node>
    ghost var bytes: seq<byte>

    /** Everything but the cursor and the size. */
    ghost predicate Storage()
      reads this`nodes, this`bytes, this`capacity, nodes, Bufs(nodes)
    {
      && Stored(nodes, bytes, baseSize) && nodes[0] == root
      && capacity == Start(|nodes|, baseSize)
    }

    ghost predicate Valid()
      reads this, nodes, Bufs(nodes)
    {
      && Storage()
      && position <= size <= capacity
      && cur == NodeAt(nodes, baseSize, position)
    }

    /** The list keeps its blocks; the further ones are new. */
    twostate predicate Grown()
      reads this
    {
      old(nodes) <= nodes && forall k :: |old(nodes)| <= k < |nodes| ==> fresh(nodes[k]) && fresh(nodes[k].buf)
    }

    /** The bytes written so far. */
    ghost function Contents(): (s: seq<byte>)
      reads this, nodes, Bufs(nodes)
      requires Valid()
      ensures |s| == size
    {
      bytes[..size]
    }

    constructor (base: nat)
      requires base >= 1
      ensures Valid() && baseSize == base && position == 0 && Contents() == [] && !littleEndian && capacity == base
      ensures fresh(nodes) && fresh(Bufs(nodes))
    {
      var n := new Node(base);
      baseSize := base;
      root := n;
      cur := n;
      position, size := 0, 0;
      capacity := base;
      littleEndian := false;
      nodes := [n];
      bytes := n.buf[..];
      new;
      assert IsBlock(BlockSeq(nodes)[0], bytes, 0, baseSize);
      NodeAtStart(nodes, baseSize, 0);
    }

    /** Walks to the last block. */
    method Tail() returns (t: Node)
      requires Storage()
      ensures t == nodes[|nodes| - 1]
    {
      t := root;
      ghost var i := 0;
      while t.next != null
        invariant 0 <= i < |nodes| && t == nodes[i]
        invariant i < |nodes| - 1 ==> t.next == nodes[i + 1]
        decreases |nodes| - i
      {
        t := t.next;
        i := i + 1;
      }
    }

    /** Links one new block behind the last. */
    method Append(t: Node) returns (n: Node)
      requires Storage() && t == nodes[|nodes| - 1]
      modifies this`capacity, this`nodes, this`bytes, t`next
      ensures Storage() && fresh(n) && fresh(n.buf)
      ensures nodes == old(nodes) + [n] && old(bytes) <= bytes && capacity == old(capacity) + baseSize
    {
      n := new Node(baseSize);
      TiledAppend(BlockSeq(nodes), bytes, baseSize, n.buf[..]);
      ghost var blocks := BlockSeq(nodes);
      t.next := n;
      nodes := nodes + [n];
      bytes := bytes + n.buf[..];
      capacity := capacity + baseSize;
      assert BlockSeq(nodes) == blocks + [n.buf[..]];
    }

    /** The same, in the terms of growth. */
    method AppendNext(t: Node) returns (n: Node)
      requires Storage() && t == nodes[|nodes| - 1]
      modifies this`capacity, this`nodes, this`bytes, t`next
      ensures Storage() && Grown() && |nodes| == |old(nodes)| + 1 && n == nodes[|nodes| - 1] && fresh(n)
      ensures old(bytes) <= bytes
    {
      n := Append(t);
    }

    /** Links count new blocks behind the last and returns the first of them. */
    method Grow(count: nat) returns (first: Node?)
      requires Storage()
      modifies this`capacity, this`nodes, this`bytes, nodes
      ensures Storage() && Grown() && |nodes| == |old(nodes)| + count && old(bytes) <= bytes
      ensures first == if count == 0 then null else nodes[|old(nodes)|]
    {
      var tmp := Tail();
      first := null;
      for i := 0 to count
        invariant Storage() && Grown() && |nodes| == |old(nodes)| + i && old(bytes) <= bytes
        invariant tmp == nodes[|nodes| - 1]
        invariant first == if i == 0 then null else nodes[|old(nodes)|]
      {
        assert tmp in old(nodes) || fresh(tmp);
        var next := AppendNext(tmp);
        if first == null {
          first := next;
        }
        tmp := next;
      }
    }

    /** Appends as many blocks as need more bytes take, at least one. */
    method Extend(need: nat) returns (first: Node?)
      requires Storage() && need > 0
      modifies this`capacity, this`nodes, this`bytes, nodes
      ensures Storage() && Grown() && old(nodes) < nodes && old(bytes) <= bytes && first == nodes[|old(nodes)|]
      ensures old(capacity) + need <= capacity < old(capacity) + need + baseSize
    {
      var count := BlocksFor(need, baseSize);
      StartAdds(|nodes|, count, baseSize);
      first := Grow(count);
    }

    /** Makes room for n bytes behind the position, with no more blocks than that takes. */
    method AddCapacity(n: nat)
      requires Valid()
      modifies this`capacity, this`cur, this`nodes, this`bytes, nodes
      ensures Valid() && n <= capacity - position && Grown() && Contents() == old(Contents())
      ensures capacity == old(capacity) || capacity < position + n + baseSize
    {
      var oldCap := capacity - position;
      if oldCap < n {
        var first := Extend(n - oldCap);
        CursorGrown(old(nodes), nodes, baseSize, position);
        if oldCap == 0 {
          cur := first;
        }
      }
    }

    /** The memcpy of write, into the cursor's block. */
    method PutBytes(ghost k: nat, npos: nat, d: seq<byte>)
      requires Storage() && k < |nodes| && cur == nodes[k] && position == Start(k, baseSize) + npos
      requires npos + |d| <= baseSize
      modifies this`bytes, nodes[k].buf
      ensures Storage()
      ensures position + |d| <= |old(bytes)| && bytes == Overwrite(old(bytes), position, d)
    {
      Store(nodes, baseSize, k, cur.buf, npos, d, bytes);
      bytes := Overwrite(bytes, position, d);
    }

    /** Moves on by n bytes of block k: within it, or to the next one when this one is used up. */
    method MoveOn(ghost k: nat, npos: nat, n: nat)
      requires Storage() && k < |nodes| && cur == nodes[k] && position == Start(k, baseSize) + npos &&
               npos + n <= baseSize
      modifies this`cur, this`position
      ensures position == old(position) + n && cur == NodeAt(nodes, baseSize, position)
      ensures npos + n == baseSize && position < capacity ==>
                k + 1 < |nodes| && cur == nodes[k + 1] && position == Start(k + 1, baseSize)
    {
      CursorAfter(nodes, baseSize, k, npos, n);
      if cur.buf.Length == npos + n {
        cur := cur.next;
      }
      position := position + n;
    }

    /** Copies the first n bytes of data to the cursor's block and moves on; the rest of the data leads to the
        same bytes. */
    method PutNext(ghost k: nat, npos: nat, data: seq<byte>, n: nat, ghost goal: seq<byte>) returns (rest: seq<byte>)
      requires Storage() && k < |nodes| && cur == nodes[k] && position == Start(k, baseSize) + npos
      requires npos + n <= baseSize && n <= |data|
      requires position + |data| <= |bytes| && Overwrite(bytes, position, data) == goal
      modifies this`bytes, this`cur, this`position, nodes[k].buf
      ensures Storage() && position == old(position) + n && cur == NodeAt(nodes, baseSize, position)
      ensures |rest| == |data| - n && position + |rest| <= |bytes| && Overwrite(bytes, position, rest) == goal
      ensures npos + n == baseSize && position < capacity ==>
                k + 1 < |nodes| && cur == nodes[k + 1] && position == Start(k + 1, baseSize)
    {
      OverwriteHead(bytes, position, data, n);
      PutBytes(k, npos, data[..n]);
      MoveOn(k, npos, n);
      rest := data[n..];
    }

    /** Where the position lies in the cursor's block. */
    method Offset() returns (npos: nat, ghost k: nat)
      requires Storage() && cur == NodeAt(nodes, baseSize, position) && position < capacity
      ensures npos < baseSize && k < |nodes| && cur == nodes[k] && position == Start(k, baseSize) + npos
    {
      CursorBlock(nodes, baseSize, position);
      npos, k := position % baseSize, position / baseSize;
    }

    /** The copy loop of write: fills the cursor's block, then the next ones. */
    method Fill(data: seq<byte>)
      requires Storage() && cur == NodeAt(nodes, baseSize, position) && position + |data| <= capacity && data != []
      modifies this`bytes, this`cur, this`position, Bufs(nodes)
      ensures Storage() && position == old(position) + |data|
      ensures cur == NodeAt(nodes, baseSize, position)
      ensures position <= |old(bytes)| && bytes == Overwrite(old(bytes), old(position), data)
    {
      ghost var goal := Overwrite(bytes, position, data);
      var npos: nat, k: nat := Offset();
      var ncap: nat := cur.buf.Length - npos;
      var left := data;
      while left != []
        invariant Storage() && cur == NodeAt(nodes, baseSize, position)
        invariant position + |left| == old(position) + |data| <= |bytes| && Overwrite(bytes, position, left) == goal
        invariant left != [] ==> k < |nodes| && cur == nodes[k] && position == Start(k, baseSize) + npos
        invariant left != [] ==> npos < baseSize && ncap == baseSize - npos
        decreases |left|
      {
        left := PutNext(k, npos, left, if ncap >= |left| then |left| else ncap, goal);
        if left != [] {
          k := k + 1;
          ncap := cur.buf.Length;
          npos := 0;
        }
      }
    }

    /** The rest of write, once there is room. */
    method Put(data: seq<byte>)
      requires Valid() && position + |data| <= capacity && data != []
      modifies this`bytes, this`cur, this`position, this`size, Bufs(nodes)
      ensures Valid() && Contents() == Written(old(Contents()), old(position), data)
      ensures position == old(position) + |data|
    {
      FlatWrite(bytes, size, position, data);
      Fill(data);
      if position > size {
        size := position;
      }
    }

    /** write: the flat write at the position, whatever the block size. */
    method Write(data: seq<byte>)
      requires Valid()
      modifies this`position, this`capacity, this`size, this`cur, this`nodes, this`bytes, nodes, Bufs(nodes)
      ensures Valid() && Contents() == Written(old(Contents()), old(position), data)
      ensures position == old(position) + |data|
      ensures Grown() && (capacity == old(capacity) || capacity < position + baseSize)
    {
      if data != [] {
        AddCapacity(|data|);
        Put(data);
      }
    }

    /** Adds n bytes of block k from npos on to the bytes from position p on. */
    method Piece(ghost k: nat, c: Node, npos: nat, n: nat, ghost p: nat, out: seq<byte>) returns (out': seq<byte>)
      requires Storage() && k < |nodes| && c == nodes[k] && npos + n <= baseSize
      requires p <= Start(k, baseSize) + npos <= |bytes| && out == bytes[p..Start(k, baseSize) + npos]
      ensures Start(k, baseSize) + npos + n <= |bytes| && out' == bytes[p..Start(k, baseSize) + npos + n]
    {
      BlockSlice(nodes, bytes, baseSize, k, npos, n);
      SliceAdds(bytes, p, Start(k, baseSize) + npos - p, n);
      out' := out + c.buf[npos..npos + n];
    }

    /** Takes n bytes of the cursor's block and moves on. */
    method TakeNext(ghost k: nat, npos: nat, n: nat, ghost p: nat, out: seq<byte>) returns (out': seq<byte>)
      requires Storage() && k < |nodes| && cur == nodes[k] && position == Start(k, baseSize) + npos
      requires npos + n <= baseSize && p <= position <= |bytes| && out == bytes[p..position]
      modifies this`cur, this`position
      ensures position == old(position) + n <= |bytes| && cur == NodeAt(nodes, baseSize, position)
      ensures p <= position && out' == bytes[p..position]
      ensures npos + n == baseSize && position < capacity ==>
                k + 1 < |nodes| && cur == nodes[k + 1] && position == Start(k + 1, baseSize)
    {
      out' := Piece(k, cur, npos, n, p, out);
      MoveOn(k, npos, n);
    }

    /** The copy loop of read. */
    method Take(n: nat) returns (out: seq<byte>)
      requires Storage() && cur == NodeAt(nodes, baseSize, position) && position < capacity && position + n <= capacity
      modifies this`cur, this`position
      ensures cur == NodeAt(nodes, baseSize, position) && position == old(position) + n <= |bytes|
      ensures out == bytes[old(position)..position]
    {
      ghost var p := position;
      var npos: nat, k: nat := Offset();
      var ncap: nat := cur.buf.Length - npos;
      var left: nat := n;
      out := [];
      while left > 0
        invariant 0 <= left && p <= position && position + left == p + n <= |bytes|
        invariant cur == NodeAt(nodes, baseSize, position) && out == bytes[p..position]
        invariant left > 0 ==> k < |nodes| && cur == nodes[k] && position == Start(k, baseSize) + npos
        invariant left > 0 ==> npos < baseSize && ncap == baseSize - npos
      {
        var m := if ncap >= left then left else ncap;
        out := TakeNext(k, npos, m, p, out);
        left := left - m;
        if left > 0 {
          k := k + 1;
          ncap := cur.buf.Length;
          npos := 0;
        }
      }
    }

    /** read: the flat read at the position, whatever the block size. */
    method Read(n: nat) returns (r: ReadResult)
      requires Valid()
      modifies this`cur, this`position
      ensures Valid() && r == ReadOf(Contents(), old(position), n, capacity)
      ensures r.OutOfRange? <==> old(position) + n > size
      ensures r.NullCursor? <==> n == 0 && old(position) == size == capacity
      ensures position == old(position) + (if r.Bytes? then n else 0)
      ensures r.Bytes? ==> r.data == Contents()[old(position)..position]
    {
      CursorBlock(nodes, baseSize, position);
      if n > size - position {
        r := OutOfRange;
      } else if cur == null {
        r := NullCursor;
      } else {
        var out := Take(n);
        PrefixSlice(bytes, size, old(position), position);
        r := Bytes(out);
      }
    }

    /** toString: the unread bytes, with nothing changed. */
    method ToString() returns (out: seq<byte>)
      requires Valid()
      ensures out == Contents()[position..]
    {
      out := [];
      UnreadPart(bytes, size, position, size);
      if position < size {
        var npos: nat, k: nat := Offset();
        var c: Node? := cur;
        var ncap: nat := c.buf.Length - npos;
        var left, pos := size - position, position;
        while left > 0
          invariant 0 <= left && position <= pos && pos + left == size && out == bytes[position..pos]
          invariant left > 0 ==> k < |nodes| && c == nodes[k] && pos == Start(k, baseSize) + npos
          invariant left > 0 ==> npos < baseSize && ncap == baseSize - npos
        {
          var m := if ncap >= left then left else ncap;
          out := Piece(k, c, npos, m, position, out);
          CursorAfter(nodes, baseSize, k, npos, m);
          pos := pos + m;
          left := left - m;
          if left > 0 {
            c := c.next;
            k := k + 1;
            ncap := c.buf.Length;
            npos := 0;
          }
        }
      }
    }

    /** setPosition: any place in the storage; moving past the size makes the bytes there part of the contents. */
    method SetPosition(v: nat) returns (ok: bool)
      requires Valid()
      modifies this`position, this`size, this`cur
      ensures ok <==> v <= capacity
      ensures Valid() && position == (if ok then v else old(position))
      ensures size == (if ok && v > old(size) then v else old(size)) && old(Contents()) <= Contents()
    {
      ok := v <= capacity;
      if ok {
        var c := Locate(v);
        position, cur := v, c;
        if position > size {
          size := position;
        }
      }
    }

    /** Walks from the first block to the one at v. */
    method Locate(v: nat) returns (n: Node?)
      requires Storage() && v <= capacity
      ensures n == NodeAt(nodes, baseSize, v)
    {
      var rest := v;
      ghost var k := 0;
      var c := root;
      while rest > c.buf.Length
        invariant 0 <= k < |nodes| && c == nodes[k] && rest >= 0 && v == Start(k, baseSize) + rest
        decreases rest
      {
        rest := rest - c.buf.Length;
        CursorAfter(nodes, baseSize, k, 0, baseSize);
        c := c.next;
        k := k + 1;
      }
      CursorAfter(nodes, baseSize, k, 0, rest);
      n := if rest == c.buf.Length then c.next else c;
    }

    /** clear: one empty block again. */
    method Clear()
      requires Valid()
      modifies this`position, this`capacity, this`size, this`cur, this`nodes, this`bytes, root`next
      ensures Valid() && Contents() == [] && position == 0 && capacity == baseSize && nodes == [root]
    {
      position, size := 0, 0;
      capacity := baseSize;
      cur := root;
      root.next := null;
      nodes := [root];
      bytes := root.buf[..];
      assert IsBlock(BlockSeq(nodes)[0], bytes, 0, baseSize);
      NodeAtStart(nodes, baseSize, 0);
    }

    /** The blocks at the position as regions of len bytes in all. */
    method Regions(len: nat) returns (rs: seq<Region>, ghost k: nat)
      requires Storage() && cur == NodeAt(nodes, baseSize, position) && 0 < len && position + len <= capacity
      ensures Covers(rs, nodes, baseSize, position, k) && Total(rs) == len
    {
      var npos: nat;
      npos, k := Offset();
      var c: Node := cur;
      var ncap: nat := c.buf.Length - npos;
      var left := len;
      ghost var j, pos := k, position;
      rs := [];
      while left > 0
        invariant 0 <= left && Covers(rs, nodes, baseSize, position, k) && Total(rs) == len - left && j == k + |rs|
        invariant left > 0 ==> j < |nodes| && c == nodes[j] && pos == position + Total(rs) == Start(j, baseSize) + npos
        invariant left > 0 ==> npos < baseSize && ncap == baseSize - npos
      {
        var m := if ncap >= left then left else ncap;
        CursorAfter(nodes, baseSize, j, npos, m);
        CoversAppend(rs, nodes, baseSize, position, k, Region(c.buf, npos, m));
        rs := rs + [Region(c.buf, npos, m)];
        left := left - m;
        j, pos := j + 1, pos + m;
        if left > 0 {
          c := c.next;
          ncap := c.buf.Length;
          npos := 0;
        }
      }
    }

    /** The same regions, with what they hold. */
    method FilledRegions(len: nat) returns (rs: seq<Region>)
      requires Storage() && cur == NodeAt(nodes, baseSize, position) && 0 < len && position + len <= capacity
      ensures (forall r :: r in rs ==> r.buf in Bufs(nodes) && r.off + r.len <= r.buf.Length)
      ensures position + len <= |bytes| && Gathered(rs) == bytes[position..position + len]
    {
      ghost var k;
      rs, k := Regions(len);
      RegionsHold(rs, nodes, baseSize, position, k, bytes);
    }

    /** getReadBuffers: regions that hold the next len unread bytes, or all of them if there are fewer. */
    method GetReadBuffers(len: nat) returns (rs: seq<Region>, total: nat)
      requires Valid()
      ensures total == (if len > size - position then size - position else len)
      ensures (forall r :: r in rs ==> r.buf in Bufs(nodes)) && Gathered(rs) == Contents()[position..position + total]
    {
      total := if len > size - position then size - position else len;
      rs := [];
      if total > 0 {
        rs := FilledRegions(total);
        PrefixSlice(bytes, size, position, position + total);
      }
    }

    /** getWriteBuffers: room for len bytes behind the position; nothing readable changes. */
    method GetWriteBuffers(len: nat) returns (rs: seq<Region>, ghost k: nat)
      requires Valid()
      modifies this`capacity, this`cur, this`nodes, this`bytes, nodes
      ensures Valid() && position + len <= capacity && Grown() && Contents() == old(Contents())
      ensures Covers(rs, nodes, baseSize, position, k) && Total(rs) == len
    {
      rs, k := [], 0;
      if len > 0 {
        AddCapacity(len);
        rs, k := Regions(len);
      }
    }

    /** Fills one region, or the start of it. */
    method FillRegion(r: Region, ghost p: nat, ghost k: nat, d: seq<byte>)
      requires Storage() && InBlock(r, nodes, baseSize, p, k) && |d| <= r.len
      modifies this`bytes, r.buf
      ensures Storage() && p + |d| <= |old(bytes)| && bytes == Overwrite(old(bytes), p, d)
    {
      Store(nodes, baseSize, k, r.buf, r.off, d, bytes);
      bytes := Overwrite(bytes, p, d);
    }

    /** A vectored receive: the bytes that arrived fill the regions in order. */
    method Receive(rs: seq<Region>, ghost p: nat, ghost k: nat, d: seq<byte>)
      requires Storage() && Covers(rs, nodes, baseSize, p, k) && |d| <= Total(rs) && p + |d| <= |bytes|
      modifies this`bytes, Bufs(nodes)
      ensures Storage() && bytes == Overwrite(old(bytes), p, d)
      decreases |rs|
    {
      if d != [] {
        var m := if |d| <= rs[0].len then |d| else rs[0].len;
        OverwriteHead(bytes, p, d, m);
        FillRegion(rs[0], p, k, d[..m]);
        if |d| > rs[0].len {
          Receive(rs[1..], p + m, k + 1, d[m..]);
        }
      }
    }

    /** The position moved by the result of a transfer, if that is positive: what is passed is contents, old
        or new. */
    method Advance(ret: int, ghost out: seq<byte>) returns (ghost d: seq<byte>)
      requires Valid() && position + |out| <= capacity && ret <= |out|
      requires position + |out| <= |bytes| && out == bytes[position..position + |out|]
      modifies this`position, this`size, this`cur
      ensures d == out[..if ret > 0 then ret else 0]
      ensures Valid() && position == old(position) + |d| && old(Contents()) <= Contents()
      ensures d == Contents()[old(position)..position]
      ensures size == if position > old(size) then position else old(size)
    {
      d := out[..if ret > 0 then ret else 0];
      SliceOfSlice(bytes, position, |out|, 0, |d|);
      if ret > 0 {
        var ok := SetPosition(position + ret);
      }
      PrefixSlice(bytes, size, old(position), position);
    }

    /** What a vectored send takes from regions at the position. */
    method Collect(rs: seq<Region>, ghost k: nat) returns (d: seq<byte>)
      requires Storage() && Covers(rs, nodes, baseSize, position, k) && position <= |bytes|
      ensures position + Total(rs) <= |bytes| && d == bytes[position..position + Total(rs)]
    {
      RegionsHold(rs, nodes, baseSize, position, k, bytes);
      d := Gather(rs);
    }

    /** What a vectored send takes from len bytes of write buffers. */
    method Outgoing(len: nat) returns (d: seq<byte>)
      requires Valid()
      modifies this`capacity, this`cur, this`nodes, this`bytes, nodes
      ensures Valid() && Grown() && Contents() == old(Contents())
      ensures position + len <= |bytes| == capacity && d == bytes[position..position + len]
    {
      var rs, k := GetWriteBuffers(len);
      d := Collect(rs, k);
    }

    /** The ret bytes that arrived, if any, received into write buffers, and the position moved behind them: a
        write. */
    method Deliver(rs: seq<Region>, ghost k: nat, ret: int, d: seq<byte>)
      requires Valid() && Covers(rs, nodes, baseSize, position, k) && |d| <= Total(rs) && position + |d| <= capacity
      requires |d| == if ret > 0 then ret else 0
      modifies this`bytes, this`position, this`size, this`cur, Bufs(nodes)
      ensures Valid() && position == old(position) + |d|
      ensures Contents() == Written(old(Contents()), old(position), d)
    {
      if ret > 0 {
        FlatWrite(bytes, size, position, d);
        Receive(rs, position, k, d);
        var ok := SetPosition(position + ret);
      }
    }

    /** When writeToFile gets through. */
    ghost predicate Savable()
      reads this
    {
      baseSize > 0 && (position == size || position % baseSize == 0 || size - position >= baseSize)
    }

    /** Where the loop of writeToFile stands: at the block of pos, or, once it went wrong, with
        fewer bytes to go than its offset in the block. */
    ghost predicate Saving(c: Node?, pos: nat, left: nat)
      reads this
    {
      && baseSize > 0
      && (left == 0 ==> Savable())
      && (left > 0 ==>
            || (c == NodeAt(nodes, baseSize, pos) && (pos == position || (pos % baseSize == 0 && Savable())))
            || (!Savable() && pos % baseSize > left))
    }

    /** Where the loop of writeToFile goes on after len bytes at offset diff of block k. */
    lemma SaveNext(pos: nat, left: nat, k: nat, diff: nat, len: nat)
      requires Valid() && left > 0 && pos + left == size && position <= pos && k < |nodes|
      requires Saving(nodes[k], pos, left) && pos == Start(k, baseSize) + diff && diff == pos % baseSize && len > 0
      requires diff + len == if left > baseSize then baseSize else left
      ensures Saving(nodes[k].next, pos + len, left - len)
    {
      CursorAfter(nodes, baseSize, k, diff, len);
      if diff + len == baseSize {
        BlockOf(k + 1, 0, baseSize);
      } else {
        BlockOf(k, diff + len, baseSize);
      }
    }

    /** The offset of a position in its block, block k. */
    method BlockAt(pos: nat) returns (diff: nat, ghost k: nat)
      requires Storage() && pos < capacity
      ensures diff == pos % baseSize < baseSize && k < |nodes| && pos == Start(k, baseSize) + diff
      ensures NodeAt(nodes, baseSize, pos) == nodes[k]
    {
      CursorBlock(nodes, baseSize, pos);
      diff, k := pos % baseSize, pos / baseSize;
    }

    /** One round of the loop of writeToFile. */
    method SaveRound(c: Node?, pos: nat, left: nat, out: seq<byte>) returns (len: int, c': Node?, out': seq<byte>)
      requires Valid() && Saving(c, pos, left) && left > 0 && pos + left == size && position <= pos
      requires out == bytes[position..pos]
      ensures len <= 0 ==> !Savable() && out' == out
      ensures len > 0 ==> len <= left && Saving(c', pos + len, left - len) && out' == bytes[position..pos + len]
    {
      var diff, k := BlockAt(pos);
      len := (if left > baseSize then baseSize else left) - diff;
      c', out' := c, out;
      if len > 0 {
        SaveNext(pos, left, k, diff, len);
        out' := Piece(k, c, diff, len, position, out);
        c' := c.next;
      }
    }

    /** writeToFile: the bytes put into the file, and whether every length it asks for is positive. */
    method WriteToFile() returns (out: seq<byte>, ok: bool)
      requires Valid()
      ensures ok <==> position == size || position % baseSize == 0 || size - position >= baseSize
      ensures out <= Contents()[position..] && (ok <==> out == Contents()[position..])
    {
      var readSize := size - position;
      var pos := position;
      var c := cur;
      out := [];
      while readSize > 0
        invariant readSize >= 0 && position <= pos && pos + readSize == size && out == bytes[position..pos]
        invariant Saving(c, pos, readSize)
      {
        var len;
        len, c, out := SaveRound(c, pos, readSize, out);
        if len <= 0 {
          UnreadPart(bytes, size, position, pos);
          return out, false;
        }
        pos := pos + len;
        readSize := readSize - len;
      }
      UnreadPart(bytes, size, position, pos);
      ok := true;
    }

    /** Writes the first n bytes of what is left of a file; the rest of it leads to the same contents. */
    method WriteChunk(left: seq<byte>, n: nat, ghost goal: seq<byte>) returns (rest: seq<byte>)
      requires Valid() && n <= |left| && Written(Contents(), position, left) == goal
      modifies this`position, this`capacity, this`size, this`cur, this`nodes, this`bytes, nodes, Bufs(nodes)
      ensures Valid() && Grown() && position == old(position) + n
      ensures |rest| == |left| - n && Written(Contents(), position, rest) == goal
    {
      WrittenHead(Contents(), position, left, n);
      Write(left[..n]);
      rest := left[n..];
    }

    /** readFromFile: block-sized chunks until a read comes up short; the flat write of the whole file. */
    method ReadFromFile(file: seq<byte>)
      requires Valid()
      modifies this`position, this`capacity, this`size, this`cur, this`nodes, this`bytes, nodes, Bufs(nodes)
      ensures Valid() && Contents() == Written(old(Contents()), old(position), file)
      ensures position == old(position) + |file| && Grown()
    {
      ghost var goal := Written(Contents(), position, file);
      var left := file;
      var eof := false;
      while !eof
        invariant Valid() && Grown() && position + |left| == old(position) + |file| && (eof ==> left == [])
        invariant Written(Contents(), position, left) == goal
        decreases if eof then 0 else 1, |left|
      {
        eof := |left| < baseSize;
        left := WriteChunk(left, if eof then |left| else baseSize, goal);
      }
    }
  }

  /** Saved by one array and loaded by another, of any block size, the unread bytes are the same. */
  method FileRoundTrip(ba: ByteArray, base: nat) returns (d: seq<byte>, ok: bool)
    requires ba.Valid() && base >= 1
    ensures ok <==> ba.position == ba.size || ba.position % ba.baseSize == 0 || ba.size - ba.position >= ba.baseSize
    ensures ok <==> d == ba.Contents()[ba.position..]
  {
    var out;
    out, ok := ba.WriteToFile();
    var copy := new ByteArray(base);
    copy.ReadFromFile(out);
    assert copy.Contents() == out by {
      WrittenIs([], 0, out);
    }
    var back := copy.SetPosition(0);
    assert copy.Contents() == out && out[0..] == out;
    d := copy.ToString();
  }
}
