/** The typed writers and readers of ByteArray. */
module TypedArrays {
  import opened Blocks
  import opened ByteArrays
  import opened Codec

  /** The loop of writeUint32 and 64; its buffer of five or ten bytes is always enough. */
  method VintBytes(v: nat, w: nat) returns (d: seq<byte>)
    requires (w == 4 || w == 8) && v < Modulus(w)
    ensures d == Vint(v)
  {
    var tmp := new byte[MaxGroups(w)];
    var i, value := 0, v;
    VintFits(v, w);
    while value >= 0x80
      invariant 0 <= i && i + |Vint(value)| <= tmp.Length && tmp[..i] + Vint(value) == Vint(v)
      decreases value
    {
      ghost var done := tmp[..i];
      tmp[i] := value % 0x80 + 0x80;
      assert tmp[..i + 1] == done + [value % 0x80 + 0x80];
      assert done + Vint(value) == (done + [value % 0x80 + 0x80]) + Vint(value / 0x80);
      i := i + 1;
      value := value / 0x80;
    }
    ghost var done := tmp[..i];
    tmp[i] := value;
    i := i + 1;
    assert tmp[..i] == done + [value];
    d := tmp[..i];
  }

  /** v shifted left by k groups of seven bits. */
  function Shift(v: nat, k: nat): (u: nat) {
    if k == 0 then v else 128 * Shift(v, k - 1)
  }

  lemma {:induction false} ShiftAdds(b: nat, v: nat, k: nat)
    ensures Shift(b + 128 * v, k) == Shift(b, k) + Shift(v, k + 1)
  {
    if k > 0 {
      ShiftAdds(b, v, k - 1);
    }
  }

  lemma {:induction false} ShiftZero(k: nat)
    ensures Shift(0, k) == 0
  {
    if k > 0 {
      ShiftZero(k - 1);
    }
  }

  /** acc, of k groups, and what the groups behind them add up to. */
  ghost function Joined(acc: nat, k: nat, r: Sum): (t: Sum) {
    if r.Short? then Short else Sum(acc + Shift(r.value, k), k + r.used)
  }

  /** k groups of the number at p are read, and they add up to acc. */
  ghost predicate Scanned(s: seq<byte>, p: nat, w: nat, acc: nat, k: nat) {
    && (w == 4 || w == 8) && k <= MaxGroups(w) && p + k <= |s|
    && Groups(s, p, MaxGroups(w)) == Joined(acc, k, Groups(s, p + k, MaxGroups(w) - k))
  }

  lemma ScanStart(s: seq<byte>, p: nat, w: nat)
    requires p <= |s| && (w == 4 || w == 8)
    ensures Scanned(s, p, w, 0, 0)
  {
  }

  /** b & 0x7f. */
  function Low(b: byte): (c: byte) {
    if b < 0x80 then b else b - 0x80
  }

  lemma ScanLast(s: seq<byte>, p: nat, w: nat, acc: nat, k: nat)
    requires Scanned(s, p, w, acc, k) && k < MaxGroups(w) && p + k < |s| && s[p + k] < 0x80
    ensures VintAt(s, p, w) == Got(Wrap(acc + Shift(s[p + k], k), w), p + k + 1)
  {
  }

  lemma ScanMore(s: seq<byte>, p: nat, w: nat, acc: nat, k: nat)
    requires Scanned(s, p, w, acc, k) && k < MaxGroups(w) && p + k < |s| && s[p + k] >= 0x80
    ensures Scanned(s, p, w, acc + Shift(s[p + k] - 0x80, k), k + 1)
  {
    var r := Groups(s, p + k + 1, MaxGroups(w) - k - 1);
    if r.Sum? {
      ShiftAdds(s[p + k] - 0x80, r.value, k);
    }
  }

  /** One more byte: the last one, or one more group. */
  lemma ScanByte(s: seq<byte>, p: nat, w: nat, acc: nat, k: nat, shifted: nat)
    requires Scanned(s, p, w, acc, k) && k < MaxGroups(w) && p + k < |s|
    requires shifted == Shift(Low(s[p + k]), k)
    ensures if s[p + k] < 0x80 then VintAt(s, p, w) == Got(Wrap(acc + shifted, w), p + k + 1)
            else Scanned(s, p, w, acc + shifted, k + 1)
  {
    if s[p + k] < 0x80 {
      ScanLast(s, p, w, acc, k);
    } else {
      ScanMore(s, p, w, acc, k);
    }
  }

  lemma ScanEnd(s: seq<byte>, p: nat, w: nat, acc: nat, k: nat)
    requires Scanned(s, p, w, acc, k)
    ensures k == MaxGroups(w) ==> VintAt(s, p, w) == Got(Wrap(acc, w), p + k)
    ensures k < MaxGroups(w) && p + k == |s| ==> VintAt(s, p, w) == Thrown
  {
    ShiftZero(k);
  }

  lemma WrapSum(x: nat, y: nat, w: nat)
    requires w == 4 || w == 8
    ensures Wrap(Wrap(x, w) + y, w) == Wrap(x + y, w)
  {
    var m := Modulus(w);
    var z := Wrap(x, w) + y;
    DivisionIsUnique(x + y, x / m + z / m, z % m, m);
  }

  /** One byte more, added in the arithmetic of the word. */
  lemma ScanWrapped(s: seq<byte>, p: nat, w: nat, acc: nat, k: nat, result: nat, shifted: nat)
    requires Scanned(s, p, w, acc, k) && k < MaxGroups(w) && p + k < |s| && result == Wrap(acc, w)
    requires shifted == Shift(Low(s[p + k]), k)
    ensures Wrap(result + shifted, w) == Wrap(acc + shifted, w)
    ensures if s[p + k] < 0x80 then VintAt(s, p, w) == Got(Wrap(result + shifted, w), p + k + 1)
            else Scanned(s, p, w, acc + shifted, k + 1)
  {
    WrapSum(acc, shifted, w);
    ScanByte(s, p, w, acc, k, shifted);
  }

  /** readFuint8. */
  method GetByte(ba: ByteArray) returns (r: Parsed<byte>)
    requires ba.Valid()
    modifies ba`cur, ba`position
    ensures ba.Valid()
    ensures r == if old(ba.position) < ba.size
                 then Got(ba.Contents()[old(ba.position)], old(ba.position) + 1) else Thrown
    ensures ba.position == if r.Got? then r.next else old(ba.position)
  {
    var d := ba.Read(1);
    r := if d.Bytes? then Got(d.data[0], ba.position) else Thrown;
  }

  /** One round of the loop of readUint32 and 64. */
  method GetGroup(ba: ByteArray, w: nat, result: nat, k: nat, ghost s: seq<byte>, ghost p: nat, ghost acc: nat)
    returns (r: Parsed<byte>, result': nat, ghost acc': nat)
    requires ba.Valid() && ba.Contents() == s && ba.position == p + k
    requires Scanned(s, p, w, acc, k) && k < MaxGroups(w) && result == Wrap(acc, w)
    modifies ba`cur, ba`position
    ensures ba.Valid() && !r.Crashed? && result' == Wrap(acc', w)
    ensures r.Thrown? ==> VintAt(s, p, w) == Thrown
    ensures r.Got? ==> ba.position == p + k + 1
    ensures r.Got? && r.x < 0x80 ==> VintAt(s, p, w) == Got(result', p + k + 1)
    ensures r.Got? && r.x >= 0x80 ==> Scanned(s, p, w, acc', k + 1)
  {
    ScanEnd(s, p, w, acc, k);
    r := GetByte(ba);
    result', acc' := result, acc;
    if r.Got? {
      var shifted := Shift(Low(r.x), k);
      ScanWrapped(s, p, w, acc, k, result, shifted);
      result' := Wrap(result + shifted, w);
      acc' := acc + shifted;
    }
  }

  /** readUint32 and 64: the shifted groups, in the arithmetic of the word. */
  method GetVint(ba: ByteArray, w: nat) returns (r: Parsed<nat>)
    requires ba.Valid() && (w == 4 || w == 8)
    modifies ba`cur, ba`position
    ensures ba.Valid() && r == VintAt(ba.Contents(), old(ba.position), w)
    ensures r.Got? ==> ba.position == r.next
  {
    ghost var s, p := ba.Contents(), ba.position;
    ghost var acc: nat := 0;
    var result, k: nat := 0, 0;
    var i := 0;
    ScanStart(s, p, w);
    while i < 8 * w
      invariant i == 7 * k && Scanned(s, p, w, acc, k) && result == Wrap(acc, w)
      invariant ba.Valid() && ba.Contents() == s && ba.position == p + k
      decreases 8 * w - i
    {
      var c;
      c, result, acc := GetGroup(ba, w, result, k, s, p, acc);
      if !c.Got? {
        return Thrown;
      }
      if c.x < 0x80 {
        return Got(result, ba.position);
      }
      k := k + 1;
      i := i + 7;
    }
    ScanEnd(s, p, w, acc, k);
    r := Got(result, ba.position);
  }

  /** The length in front of a string. */
  method PutPrefix(ba: ByteArray, n: nat, f: Prefix, host: bool)
    requires ba.Valid()
    modifies ba`position, ba`capacity, ba`size, ba`cur, ba`nodes, ba`bytes, ba.nodes, Bufs(ba.nodes)
    ensures ba.Valid() && ba.Grown() && (ba.capacity == old(ba.capacity) || ba.capacity < ba.position + ba.baseSize)
    ensures ba.position == old(ba.position) + |PrefixBytes(n, f, ba.littleEndian, host)|
    ensures ba.Contents() == Written(old(ba.Contents()), old(ba.position), PrefixBytes(n, f, ba.littleEndian, host))
  {
    if f.Variable? {
      var d := VintBytes(Cut(n, f), 8);
      ba.Write(d);
    } else {
      ba.Write(PrefixBytes(n, f, ba.littleEndian, host));
    }
  }

  /** Writes behind what was written last. */
  method PutMore(ba: ByteArray, t: seq<byte>, ghost was: seq<byte>, ghost p: nat, ghost h: seq<byte>)
    requires ba.Valid() && p <= |was| && ba.Contents() == Written(was, p, h) && ba.position == p + |h|
    modifies ba`position, ba`capacity, ba`size, ba`cur, ba`nodes, ba`bytes, ba.nodes, Bufs(ba.nodes)
    ensures ba.Valid() && ba.Grown() && (ba.capacity == old(ba.capacity) || ba.capacity < ba.position + ba.baseSize)
    ensures ba.position == p + |h + t| && ba.Contents() == Written(was, p, h + t)
  {
    WrittenParts(was, p, h, t);
    ba.Write(t);
  }

  /** The string writers. */
  method PutText(ba: ByteArray, t: seq<byte>, f: Prefix, host: bool)
    requires ba.Valid()
    modifies ba`position, ba`capacity, ba`size, ba`cur, ba`nodes, ba`bytes, ba.nodes, Bufs(ba.nodes)
    ensures ba.Valid() && ba.Grown() && (ba.capacity == old(ba.capacity) || ba.capacity < ba.position + ba.baseSize)
    ensures ba.position == old(ba.position) + |PrefixBytes(|t|, f, ba.littleEndian, host) + t|
    ensures ba.Contents() ==
            Written(old(ba.Contents()), old(ba.position), PrefixBytes(|t|, f, ba.littleEndian, host) + t)
  {
    ghost var was, p := ba.Contents(), ba.position;
    PutPrefix(ba, |t|, f, host);
    PutMore(ba, t, was, p, PrefixBytes(|t|, f, ba.littleEndian, host));
  }

  /** writeInt32, 64, writeUint32 and 64: the bytes, signed numbers by their zigzag code. */
  method VarintBytes(n: int, w: nat, signed: bool) returns (d: seq<byte>)
    requires (w == 4 || w == 8) && InRange(n, Modulus(w), signed)
    ensures d == Vint(if signed then ZigZag(n, Modulus(w)) else n)
  {
    if signed {
      ZigZagRoundTrip(n, Modulus(w));
    }
    d := VintBytes(if signed then ZigZag(n, Modulus(w)) else n, w);
  }

  /** The typed writers: the flat write of the value's encoding. */
  method Put(ba: ByteArray, x: Datum, k: Kind, host: bool)
    requires ba.Valid() && HasKind(x, k)
    modifies ba`position, ba`capacity, ba`size, ba`cur, ba`nodes, ba`bytes, ba.nodes, Bufs(ba.nodes)
    ensures ba.Valid() && ba.Grown() && (ba.capacity == old(ba.capacity) || ba.capacity < ba.position + ba.baseSize)
    ensures ba.position == old(ba.position) + |Encoded(x, k, ba.littleEndian, host)|
    ensures ba.Contents() == Written(old(ba.Contents()), old(ba.position), Encoded(x, k, ba.littleEndian, host))
  {
    match k
    case Fixed(w, signed) =>
      ba.Write(PutFixed(Unsigned(x.n, Modulus(w)), w, ba.littleEndian, host));
    case Varint(w, signed) =>
      var d := VarintBytes(x.n, w, signed);
      ba.Write(d);
    case String(f) =>
      PutText(ba, x.s, f, host);
  }

  /** A fixed-width read. */
  method GetWord(ba: ByteArray, w: nat, host: bool) returns (r: Parsed<nat>)
    requires ba.Valid()
    modifies ba`cur, ba`position
    ensures ba.Valid() && r == FixedAt(ba.Contents(), old(ba.position), w, ba.littleEndian, host, ba.capacity)
    ensures r.Got? ==> ba.position == r.next
  {
    var d := ba.Read(w);
    match d
    case OutOfRange => r := Thrown;
    case NullCursor => r := Crashed;
    case Bytes(b) => r := Got(GetFixed(b, ba.littleEndian, host), ba.position);
  }

  method GetPrefix(ba: ByteArray, f: Prefix, host: bool) returns (r: Parsed<nat>)
    requires ba.Valid()
    modifies ba`cur, ba`position
    ensures ba.Valid() && r == PrefixAt(ba.Contents(), old(ba.position), f, ba.littleEndian, host, ba.capacity)
    ensures r.Got? ==> ba.position == r.next
  {
    match f
    case Fixed16 => r := GetWord(ba, 2, host);
    case Fixed32 => r := GetWord(ba, 4, host);
    case Fixed64 => r := GetWord(ba, 8, host);
    case Variable => r := GetVint(ba, 8);
  }

  /** The typed readers. */
  method Get(ba: ByteArray, k: Kind, host: bool) returns (r: Parsed<Datum>)
    requires ba.Valid() && ValidKind(k)
    modifies ba`cur, ba`position
    ensures ba.Valid() && r == Decoded(ba.Contents(), old(ba.position), k, ba.littleEndian, host, ba.capacity)
    ensures r.Got? ==> ba.position == r.next
  {
    match k
    case Fixed(w, signed) =>
      var u := GetWord(ba, w, host);
      match u {
        case Thrown => r := Thrown;
        case Crashed => r := Crashed;
        case Got(v, q) => r := Got(Number(if signed then Signed(v, Modulus(w)) else v), q);
      }
    case Varint(w, signed) =>
      var u := GetVint(ba, w);
      match u {
        case Thrown => r := Thrown;
        case Crashed => r := Crashed;
        case Got(v, q) => r := Got(Number(if signed then UnZigZag(v, Modulus(w)) else v), q);
      }
    case String(f) =>
      var u := GetPrefix(ba, f, host);
      match u {
        case Thrown => r := Thrown;
        case Crashed => r := Crashed;
        case Got(n, q) =>
          var d := ba.Read(n);
          match d {
            case OutOfRange => r := Thrown;
            case NullCursor => r := Crashed;
            case Bytes(b) => r := Got(Text(b), ba.position);
          }
      }
  }

  /** Writing at the end appends. */
  lemma WrittenAtEnd(s: seq<byte>, d: seq<byte>)
    ensures Written(s, |s|, d) == s + d
  {
    WrittenIs(s, |s|, d);
  }

  lemma WrittenBefore(was: seq<byte>, e: seq<byte>, t: seq<byte>)
    ensures Written(was, |was|, e) + t == was + (e + t)
  {
    WrittenAtEnd(was, e);
  }

  lemma EncodedNext(was: seq<byte>, items: seq<Item>, i: nat, little: bool, host: bool)
    requires ValidItems(items) && i < |items|
    ensures Written(was, |was|, Encoded(items[i].x, items[i].k, little, host))
          + WriteAll(Encoder(little, host), items[i + 1..])
         == was + WriteAll(Encoder(little, host), items[i..])
  {
    WrittenBefore(was, Encoded(items[i].x, items[i].k, little, host), WriteAll(Encoder(little, host), items[i + 1..]));
    assert items[i..][1..] == items[i + 1..];
  }

  /** One more value at the end. */
  method PutNext(ba: ByteArray, items: seq<Item>, i: nat, host: bool, ghost all: seq<byte>)
    requires ba.Valid() && ba.position == ba.size && ValidItems(items) && i < |items|
    requires ba.Contents() + WriteAll(Encoder(ba.littleEndian, host), items[i..]) == all
    modifies ba`position, ba`capacity, ba`size, ba`cur, ba`nodes, ba`bytes, ba.nodes, Bufs(ba.nodes)
    ensures ba.Valid() && ba.Grown() && ba.position == ba.size && old(ba.position) <= ba.position
    ensures ba.capacity == old(ba.capacity) || ba.capacity < ba.position + ba.baseSize
    ensures ba.Contents() + WriteAll(Encoder(ba.littleEndian, host), items[i + 1..]) == all
  {
    EncodedNext(ba.Contents(), items, i, ba.littleEndian, host);
    Put(ba, items[i].x, items[i].k, host);
  }

  /** All the values into an empty array. */
  method PutAll(ba: ByteArray, items: seq<Item>, host: bool)
    requires ba.Valid() && ba.size == 0 && ba.capacity == ba.baseSize && ValidItems(items)
    modifies ba`position, ba`capacity, ba`size, ba`cur, ba`nodes, ba`bytes, ba.nodes, Bufs(ba.nodes)
    ensures ba.Valid() && ba.Grown() && ba.Contents() == WriteAll(Encoder(ba.littleEndian, host), items)
    ensures ba.capacity == ba.baseSize || ba.capacity < ba.size + ba.baseSize
  {
    ghost var all := WriteAll(Encoder(ba.littleEndian, host), items);
    assert items[0..] == items && ba.Contents() == [];
    for i := 0 to |items|
      invariant ba.Valid() && ba.Grown() && ba.position == ba.size
      invariant ba.capacity == ba.baseSize || ba.capacity < ba.position + ba.baseSize
      invariant ba.Contents() + WriteAll(Encoder(ba.littleEndian, host), items[i..]) == all
    {
      PutNext(ba, items, i, host, all);
    }
  }

  /** Reads one value after the other until one fails. */
  method GetAll(ba: ByteArray, ks: seq<Kind>, host: bool) returns (r: Parsed<seq<Datum>>)
    requires ba.Valid() && forall i :: 0 <= i < |ks| ==> ValidKind(ks[i])
    modifies ba`cur, ba`position
    ensures ba.Valid() && r == ReadAll(Reader(ba.Contents(), ba.littleEndian, host, ba.capacity), old(ba.position), ks)
    ensures r.Got? ==> ba.position == r.next
    decreases |ks|
  {
    if ks == [] {
      return Got([], ba.position);
    }
    var x := Get(ba, ks[0], host);
    match x
    case Thrown => r := Thrown;
    case Crashed => r := Crashed;
    case Got(d, q) =>
      r := GetAll(ba, ks[1..], host);
      r := Before(d, r);
  }

  /** The storage is full exactly if the size is a positive multiple of the block size. */
  lemma FullStorage(size: nat, blocks: nat, base: nat)
    requires base >= 1 && size <= Start(blocks, base) && (blocks == 1 || Start(blocks, base) < size + base)
    requires size >= 1
    ensures size == Start(blocks, base) <==> size % base == 0
  {
    if size == Start(blocks, base) {
      BlockOf(blocks, 0, base);
    } else {
      BlockExists(size, blocks, base);
      BlockOrder(size / base, blocks, base);
    }
  }

  /** Values that fill an array, read back from its start. */
  method ReadBack(ba: ByteArray, items: seq<Item>, host: bool, host': bool) returns (r: Parsed<seq<Datum>>)
    requires ba.Valid() && ValidItems(items) && ba.Contents() == WriteAll(Encoder(ba.littleEndian, host), items)
    modifies ba`position, ba`size, ba`cur
    ensures ba.Valid() && ba.size == old(ba.size)
    ensures Comes(r, Readable(items, ba.size, ba.capacity), Data(items), ba.size) && (r.Got? ==> ba.position == r.next)
    ensures items == [] <==> ba.size == 0
  {
    var ok := ba.SetPosition(0);
    AllRoundTrip(items, ba.Contents(), ba.littleEndian, host, host', ba.capacity);
    r := GetAll(ba, Kinds(items), host');
  }

  /** Any values written to a fresh array of any block size come back from its start, with nothing left to
      read, exactly if every string length fits its prefix and the last value is not an empty string that
      fills the last block. */
  method RoundTrip(items: seq<Item>, base: nat, little: bool, host: bool, host': bool)
    returns (r: Parsed<seq<Datum>>, left: nat)
    requires base >= 1 && ValidItems(items)
    ensures var n := |WriteAll(Encoder(little, host), items)|;
            if AllFit(items) && !(EndsEmpty(items) && n % base == 0) then r == Got(Data(items), n) && left == 0
            else !Yields(r, Data(items))
  {
    var ba := new ByteArray(base);
    ba.littleEndian := little;
    PutAll(ba, items, host);
    r := ReadBack(ba, items, host, host');
    if items != [] {
      FullStorage(ba.size, |ba.nodes|, base);
    }
    left := ba.size - ba.position;
  }
}
