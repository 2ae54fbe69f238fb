/** The encodings of ByteArray on flat byte sequences: fixed-width integers in either byte
    order, base-128 integers, zigzag, and strings with a length in front. */
module Codec {
  import opened Blocks
  import opened ByteArrays

  // ----- fixed width -----

  /** The w low bytes of v, least significant first. */
  function Digits(v: nat, w: nat): (d: seq<byte>)
    ensures |d| == w
  {
    if w == 0 then [] else [v % 256] + Digits(v / 256, w - 1)
  }

  /** The number whose bytes are d, least significant first. */
  function Value(d: seq<byte>): (v: nat) {
    if d == [] then 0 else d[0] + 256 * Value(d[1..])
  }

  /** How many numbers w bytes can tell apart. */
  function Span(w: nat): (n: nat)
    ensures n >= 1
  {
    if w == 0 then 1 else 256 * Span(w - 1)
  }

  lemma {:induction false} DigitsValue(v: nat, w: nat)
    requires v < Span(w)
    ensures Value(Digits(v, w)) == v
  {
    if w > 0 {
      DigitsValue(v / 256, w - 1);
      assert Digits(v, w)[1..] == Digits(v / 256, w - 1);
    }
  }

  lemma {:induction false} ValueDigits(d: seq<byte>)
    ensures Value(d) < Span(|d|) && Digits(Value(d), |d|) == d
  {
    if d != [] {
      ValueDigits(d[1..]);
      assert Value(d) / 256 == Value(d[1..]);
      assert d == [d[0]] + d[1..];
    }
  }

  function Reverse(d: seq<byte>): (r: seq<byte>)
    ensures |r| == |d|
  {
    if d == [] then [] else Reverse(d[1..]) + [d[0]]
  }

  lemma {:induction false} ReverseTwice(d: seq<byte>)
    ensures Reverse(Reverse(d)) == d
  {
    if d != [] {
      ReverseAppend(Reverse(d[1..]), d[0]);
      ReverseTwice(d[1..]);
    }
  }

  lemma {:induction false} ReverseAppend(d: seq<byte>, b: byte)
    ensures Reverse(d + [b]) == [b] + Reverse(d)
  {
    if d != [] {
      ReverseAppend(d[1..], b);
      assert (d + [b])[1..] == d[1..] + [b];
    } else {
      assert d + [b] == [b];
    }
  }

  /** Bytes in the given order, from or to least significant first. */
  function Ordered(d: seq<byte>, little: bool): (r: seq<byte>)
    ensures |r| == |d|
  {
    if little then d else Reverse(d)
  }

  lemma OrderedTwice(d: seq<byte>, little: bool)
    ensures Ordered(Ordered(d, little), little) == d
  {
    ReverseTwice(d);
  }

  /** byteswap on a w-byte integer. */
  function ByteSwap(v: nat, w: nat): (r: nat) {
    Value(Reverse(Digits(v, w)))
  }

  /** The bytes a w-byte integer has in the memory of a host. */
  function Memory(v: nat, w: nat, host: bool): (d: seq<byte>) {
    Ordered(Digits(v, w), host)
  }

  /** writeFuint*: swap unless the array's order is the host's, then copy the memory. */
  function PutFixed(v: nat, w: nat, little: bool, host: bool): (d: seq<byte>) {
    Memory(if little != host then ByteSwap(v, w) else v, w, host)
  }

  /** readFuint*: read the memory, then swap unless the array's order is the host's. */
  function GetFixed(d: seq<byte>, little: bool, host: bool): (v: nat) {
    var m := Value(Ordered(d, host));
    if little != host then ByteSwap(m, |d|) else m
  }

  /** What goes over the wire is the array's byte order, on every host. */
  lemma FixedIsPortable(v: nat, w: nat, little: bool, host: bool)
    ensures PutFixed(v, w, little, host) == Ordered(Digits(v, w), little)
  {
    if little != host {
      ValueDigits(Reverse(Digits(v, w)));
      ReverseTwice(Digits(v, w));
    }
  }

  lemma GetFixedIs(d: seq<byte>, little: bool, host: bool)
    ensures GetFixed(d, little, host) == Value(Ordered(d, little)) < Span(|d|)
  {
    ValueDigits(Ordered(d, host));
    ValueDigits(Ordered(d, little));
    if little != host && !host {
      ReverseTwice(d);
    }
  }

  /** Written on one host, read on another. */
  lemma FixedRoundTrip(v: nat, w: nat, little: bool, host: bool, host': bool)
    requires v < Span(w)
    ensures |PutFixed(v, w, little, host)| == w && GetFixed(PutFixed(v, w, little, host), little, host') == v
  {
    FixedIsPortable(v, w, little, host);
    GetFixedIs(Ordered(Digits(v, w), little), little, host');
    OrderedTwice(Digits(v, w), little);
    DigitsValue(v, w);
  }

  // ----- two's complement -----

  /** The modulus of a machine word of that many bytes. */
  function Modulus(w: nat): (m: nat)
    requires w == 1 || w == 2 || w == 4 || w == 8
  {
    if w == 1 then 0x100 else if w == 2 then 0x1_0000 else if w == 4 then 0x1_0000_0000 else 0x1_0000_0000_0000_0000
  }

  lemma SpanIsModulus(w: nat)
    requires w == 1 || w == 2 || w == 4 || w == 8
    ensures Span(w) == Modulus(w)
  {
    assert Span(1) == 0x100;
    assert Span(2) == 0x1_0000;
    assert Span(3) == 0x100_0000;
    assert Span(4) == 0x1_0000_0000;
    assert Span(6) == 256 * (256 * Span(4));
    assert Span(8) == 256 * (256 * Span(6));
  }

  /** Conversion to the unsigned word. */
  function Unsigned(n: int, m: nat): (u: nat)
    requires 0 <= n + m && n < m
  {
    if n < 0 then n + m else n
  }

  /** Conversion to the signed word. */
  function Signed(u: nat, m: nat): (n: int) {
    if 2 * u < m then u else u - m
  }

  predicate SignedRange(n: int, m: nat) {
    0 <= 2 * n + m < 2 * m
  }

  lemma ModSmall(n: int, m: nat)
    requires 0 <= n < m
    ensures n % m == n
  {
  }

  // ----- zigzag -----

  /** EncodeZigzag32 and 64, in the words of modulus m. */
  function ZigZag(n: int, m: nat): (u: nat)
    requires m >= 1 && SignedRange(n, m)
  {
    if n < 0 then (-n * 2 - 1) % m else n * 2
  }

  /** (u >> 1) ^ -(u & 1): with the low bit set, the complement of the rest. */
  function UnZigZag(u: nat, m: nat): (n: int)
    requires u < m
  {
    Signed(if u % 2 == 0 then u / 2 else m - 1 - u / 2, m)
  }

  /** The two are inverse bijections between the signed and the unsigned words, and numbers near zero get
      small codes. */
  lemma ZigZagRoundTrip(n: int, m: nat)
    requires m >= 2 && m % 2 == 0 && SignedRange(n, m)
    ensures ZigZag(n, m) == (if n < 0 then -2 * n - 1 else 2 * n) < m
    ensures UnZigZag(ZigZag(n, m), m) == n
  {
    if n < 0 {
      ModSmall(-2 * n - 1, m);
    }
  }

  lemma UnZigZagRoundTrip(u: nat, m: nat)
    requires m >= 2 && m % 2 == 0 && u < m
    ensures SignedRange(UnZigZag(u, m), m) && ZigZag(UnZigZag(u, m), m) == u
  {
    ZigZagRoundTrip(if u % 2 == 0 then u / 2 else -(u / 2) - 1, m);
  }

  // ----- base 128 -----

  /** writeUint32 and 64: seven bits a byte, least significant first, the top bit saying that more follow. */
  function Vint(v: nat): (d: seq<byte>)
    ensures |d| >= 1
  {
    if v < 128 then [v] else [v % 128 + 128] + Vint(v / 128)
  }

  /** How many numbers g groups of seven bits can tell apart. */
  function GroupSpan(g: nat): (n: nat)
    ensures n >= 1
  {
    if g == 0 then 1 else 128 * GroupSpan(g - 1)
  }

  /** The encoding is the shortest one. */
  lemma {:induction false} VintIsMinimal(v: nat)
    ensures v < GroupSpan(|Vint(v)|) && (|Vint(v)| > 1 ==> v >= GroupSpan(|Vint(v)| - 1))
  {
    if v >= 128 {
      VintIsMinimal(v / 128);
    } else {
      assert GroupSpan(1) == 128;
    }
  }

  lemma {:induction false} VintLength(v: nat, g: nat)
    requires g >= 1 && v < GroupSpan(g)
    ensures |Vint(v)| <= g
  {
    if v >= 128 {
      assert g >= 2 by { assert GroupSpan(1) == 128; }
      VintLength(v / 128, g - 1);
    }
  }

  /** The groups a reader of w bytes takes at most: while the shift is below the width. */
  function MaxGroups(w: nat): (g: nat)
    requires w == 4 || w == 8
  {
    if w == 4 then 5 else 10
  }

  /** A 32-bit number takes at most five bytes, a 64-bit number at most ten. */
  lemma VintFits(v: nat, w: nat)
    requires (w == 4 || w == 8) && v < Modulus(w)
    ensures |Vint(v)| <= MaxGroups(w)
  {
    assert GroupSpan(2) == 0x4000;
    assert GroupSpan(4) == 0x1000_0000 by { assert GroupSpan(3) == 0x20_0000; }
    assert GroupSpan(5) == 128 * GroupSpan(4);
    assert GroupSpan(7) == 128 * (128 * GroupSpan(5));
    assert GroupSpan(9) == 128 * (128 * GroupSpan(7));
    assert GroupSpan(10) == 128 * GroupSpan(9);
    VintLength(v, MaxGroups(w));
  }

  datatype Sum = Sum(value: nat, used: nat) | Short

  /** What at most g groups from p on add up to, and how many bytes that takes. */
  function Groups(s: seq<byte>, p: nat, g: nat): (r: Sum)
    ensures r.Sum? && p <= |s| ==> p + r.used <= |s|
    decreases g
  {
    if g == 0 then Sum(0, 0)
    else if p >= |s| then Short
    else if s[p] < 128 then Sum(s[p], 1)
    else
      match Groups(s, p + 1, g - 1)
      case Short => Short
      case Sum(v, n) => Sum(s[p] - 128 + 128 * v, n + 1)
  }

  /** The reader takes exactly the bytes the writer put, whatever comes behind them. */
  lemma {:induction false} VintRoundTrip(v: nat, s: seq<byte>, p: nat, g: nat)
    requires p + |Vint(v)| <= |s| && s[p..p + |Vint(v)|] == Vint(v) && |Vint(v)| <= g
    ensures Groups(s, p, g) == Sum(v, |Vint(v)|)
    decreases v
  {
    assert s[p] == Vint(v)[0];
    if v >= 128 {
      assert s[p + 1..p + |Vint(v)|] == s[p..p + |Vint(v)|][1..];
      assert Vint(v)[1..] == Vint(v / 128);
      VintRoundTrip(v / 128, s, p + 1, g - 1);
    }
  }

  // ----- typed values -----

  /** How a string's length goes in front of it. */
  datatype Prefix = Fixed16 | Fixed32 | Fixed64 | Variable

  /** What a reader is asked for: an integer of w bytes, fixed or base-128, signed or not, or a string.
      A float is the fixed unsigned integer with its bits. */
  datatype Kind = Fixed(w: nat, signed: bool) | Varint(w: nat, signed: bool) | String(prefix: Prefix)

  datatype Datum = Number(n: int) | Text(s: seq<byte>)

  predicate ValidKind(k: Kind) {
    match k
    case Fixed(w, _) => w == 1 || w == 2 || w == 4 || w == 8
    case Varint(w, _) => w == 4 || w == 8
    case String(_) => true
  }

  /** The C++ argument types: an integer in the range of its type, a string whose size is a size_t. */
  predicate HasKind(x: Datum, k: Kind) {
    && ValidKind(k)
    && match k
       case Fixed(w, signed) => x.Number? && InRange(x.n, Modulus(w), signed)
       case Varint(w, signed) => x.Number? && InRange(x.n, Modulus(w), signed)
       case String(_) => x.Text? && |x.s| < Modulus(8)
  }

  predicate InRange(n: int, m: nat, signed: bool) {
    if signed then SignedRange(n, m) else 0 <= n < m
  }

  /** What a length is cut to by the integer in front of a string. */
  function Cut(n: nat, f: Prefix): (m: nat)
    ensures m <= n
    ensures m < (if f.Fixed16? then 0x1_0000 else if f.Fixed32? then 0x1_0000_0000 else 0x1_0000_0000_0000_0000)
    ensures m == n <==>
            n < (if f.Fixed16? then 0x1_0000 else if f.Fixed32? then 0x1_0000_0000 else 0x1_0000_0000_0000_0000)
  {
    if f.Fixed16? then n % 0x1_0000 else if f.Fixed32? then n % 0x1_0000_0000 else n % 0x1_0000_0000_0000_0000
  }

  /** The bytes of a length in front of a string; a length that does not fit loses its high bits. */
  function PrefixBytes(n: nat, f: Prefix, little: bool, host: bool): (d: seq<byte>) {
    match f
    case Fixed16 => PutFixed(Cut(n, f), 2, little, host)
    case Fixed32 => PutFixed(Cut(n, f), 4, little, host)
    case Fixed64 => PutFixed(Cut(n, f), 8, little, host)
    case Variable => Vint(Cut(n, f))
  }

  /** What the writers put for a value. */
  function Encoded(x: Datum, k: Kind, little: bool, host: bool): (d: seq<byte>)
    requires HasKind(x, k)
  {
    match k
    case Fixed(w, signed) => PutFixed(Unsigned(x.n, Modulus(w)), w, little, host)
    case Varint(w, signed) => Vint(if signed then ZigZag(x.n, Modulus(w)) else x.n)
    case String(p) => PrefixBytes(|x.s|, p, little, host) + x.s
  }

  /** A value and where reading goes on; out_of_range; or a read through a null cursor. */
  datatype Parsed<T> = Got(x: T, next: nat) | Thrown | Crashed

  function FixedAt(s: seq<byte>, p: nat, w: nat, little: bool, host: bool, capacity: nat): (r: Parsed<nat>)
    requires p <= |s|
    ensures r.Got? ==> r.next <= |s|
  {
    match ReadOf(s, p, w, capacity)
    case OutOfRange => Thrown
    case NullCursor => Crashed
    case Bytes(d) => Got(GetFixed(d, little, host), p + w)
  }

  /** What is left of v in a word of w bytes. */
  function Wrap(v: nat, w: nat): (u: nat)
    requires w == 4 || w == 8
    ensures u < Modulus(w) && (v < Modulus(w) ==> u == v)
  {
    if w == 4 then v % 0x1_0000_0000 else v % 0x1_0000_0000_0000_0000
  }

  function VintAt(s: seq<byte>, p: nat, w: nat): (r: Parsed<nat>)
    requires p <= |s| && (w == 4 || w == 8)
    ensures r.Got? ==> r.x < Modulus(w) && r.next <= |s|
  {
    match Groups(s, p, MaxGroups(w))
    case Short => Thrown
    case Sum(v, n) => Got(Wrap(v, w), p + n)
  }

  function PrefixAt(s: seq<byte>, p: nat, f: Prefix, little: bool, host: bool, capacity: nat): (r: Parsed<nat>)
    requires p <= |s|
    ensures r.Got? ==> r.next <= |s|
  {
    match f
    case Fixed16 => FixedAt(s, p, 2, little, host, capacity)
    case Fixed32 => FixedAt(s, p, 4, little, host, capacity)
    case Fixed64 => FixedAt(s, p, 8, little, host, capacity)
    case Variable => VintAt(s, p, 8)
  }

  function TextAt(s: seq<byte>, p: nat, n: nat, capacity: nat): (r: Parsed<Datum>)
    requires p <= |s|
    ensures r.Got? ==> r.next <= |s|
  {
    match ReadOf(s, p, n, capacity)
    case OutOfRange => Thrown
    case NullCursor => Crashed
    case Bytes(d) => Got(Text(d), p + n)
  }

  /** What the readers make of the bytes at p of an array with that capacity. */
  function Decoded(s: seq<byte>, p: nat, k: Kind, little: bool, host: bool, capacity: nat): (r: Parsed<Datum>)
    requires p <= |s| && ValidKind(k)
    ensures r.Got? ==> r.next <= |s|
  {
    match k
    case Fixed(w, signed) => (
      match FixedAt(s, p, w, little, host, capacity)
      case Got(u, q) => Got(Number(if signed then Signed(u, Modulus(w)) else u), q)
      case Thrown => Thrown
      case Crashed => Crashed)
    case Varint(w, signed) => (
      match VintAt(s, p, w)
      case Got(u, q) => Got(Number(if signed then UnZigZag(u, Modulus(w)) else u), q)
      case Thrown => Thrown
      case Crashed => Crashed)
    case String(f) => (
      match PrefixAt(s, p, f, little, host, capacity)
      case Got(n, q) => TextAt(s, q, n, capacity)
      case Thrown => Thrown
      case Crashed => Crashed)
  }

  // ----- round trips -----

  lemma FixedAtRoundTrip(u: nat, w: nat, s: seq<byte>, p: nat, little: bool, host: bool, host': bool, capacity: nat)
    requires u < Span(w) && w > 0
    requires p + w <= |s| <= capacity && s[p..p + w] == PutFixed(u, w, little, host)
    ensures FixedAt(s, p, w, little, host', capacity) == Got(u, p + w)
  {
    FixedRoundTrip(u, w, little, host, host');
  }

  lemma VintAtRoundTrip(u: nat, w: nat, s: seq<byte>, p: nat)
    requires (w == 4 || w == 8) && u < Modulus(w)
    requires p + |Vint(u)| <= |s| && s[p..p + |Vint(u)|] == Vint(u)
    ensures VintAt(s, p, w) == Got(u, p + |Vint(u)|)
  {
    VintFits(u, w);
    VintRoundTrip(u, s, p, MaxGroups(w));
  }

  lemma PrefixRoundTrip(n: nat, f: Prefix, s: seq<byte>, p: nat, little: bool, host: bool, host': bool, capacity: nat)
    requires var e := PrefixBytes(n, f, little, host); p + |e| <= |s| <= capacity && s[p..p + |e|] == e
    ensures PrefixAt(s, p, f, little, host', capacity) == Got(Cut(n, f), p + |PrefixBytes(n, f, little, host)|)
  {
    match f
    case Fixed16 => SpanIsModulus(2); FixedRoundTrip(Cut(n, f), 2, little, host, host');
    case Fixed32 => SpanIsModulus(4); FixedRoundTrip(Cut(n, f), 4, little, host, host');
    case Fixed64 => SpanIsModulus(8); FixedRoundTrip(Cut(n, f), 8, little, host, host');
    case Variable => VintAtRoundTrip(Cut(n, f), 8, s, p);
  }

  /** A string whose length its prefix can tell. */
  predicate Fits(x: Datum, k: Kind) {
    x.Text? && k.String? ==> (k.prefix.Fixed16? ==> |x.s| < 0x1_0000) && (k.prefix.Fixed32? ==> |x.s| < 0x1_0000_0000)
  }

  lemma FixedDatum(n: int, w: nat, signed: bool, s: seq<byte>, p: nat, little: bool, host: bool, host': bool,
                   capacity: nat)
    requires ValidKind(Fixed(w, signed)) && InRange(n, Modulus(w), signed)
    requires p + w <= |s| <= capacity && s[p..p + w] == PutFixed(Unsigned(n, Modulus(w)), w, little, host)
    ensures Decoded(s, p, Fixed(w, signed), little, host', capacity) == Got(Number(n), p + w)
  {
    SpanIsModulus(w);
    FixedAtRoundTrip(Unsigned(n, Modulus(w)), w, s, p, little, host, host', capacity);
  }

  lemma VarintDatum(n: int, u: nat, w: nat, signed: bool, s: seq<byte>, p: nat, little: bool, host: bool, capacity: nat)
    requires ValidKind(Varint(w, signed)) && InRange(n, Modulus(w), signed)
    requires u == if signed then ZigZag(n, Modulus(w)) else n
    requires p + |Vint(u)| <= |s| && s[p..p + |Vint(u)|] == Vint(u)
    ensures Decoded(s, p, Varint(w, signed), little, host, capacity) == Got(Number(n), p + |Vint(u)|)
  {
    if signed {
      ZigZagRoundTrip(n, Modulus(w));
    }
    VintAtRoundTrip(u, w, s, p);
  }

  predicate Yields<T(==)>(r: Parsed<T>, x: T) {
    r.Got? && r.x == x
  }

  /** What is read is x, with reading to go on at q, exactly if ok; otherwise it is not x. */
  predicate Comes<T(==)>(r: Parsed<T>, ok: bool, x: T, q: nat) {
    if ok then r == Got(x, q) else !Yields(r, x)
  }

  /** Read back, each value is the one written, and reading goes on right behind it, exactly if its length
      fits its prefix and it is not an empty string that ends where the storage ends. */
  lemma DatumRoundTrip(x: Datum, k: Kind, e: seq<byte>, s: seq<byte>, p: nat,
                       little: bool, host: bool, host': bool, capacity: nat)
    requires HasKind(x, k) && e == Encoded(x, k, little, host)
    requires p + |e| <= |s| <= capacity && s[p..p + |e|] == e
    ensures |e| >= 1
    ensures Comes(Decoded(s, p, k, little, host', capacity), First(Item(x, k), p + |e|, capacity), x, p + |e|)
  {
    match k
    case Fixed(w, signed) =>
      FixedIsPortable(Unsigned(x.n, Modulus(w)), w, little, host);
      FixedDatum(x.n, w, signed, s, p, little, host, host', capacity);
    case Varint(w, signed) =>
      VarintDatum(x.n, if signed then ZigZag(x.n, Modulus(w)) else x.n, w, signed, s, p, little, host', capacity);
    case String(f) =>
      PrefixIsNotEmpty(|x.s|, f, little, host);
      var h := PrefixBytes(|x.s|, f, little, host);
      TextRoundTrip(x.s, f, h, s, p, little, host, host', capacity);
      TextDecoded(f, s, p, Cut(|x.s|, f), p + |h|, little, host', capacity);
  }

  lemma PrefixIsNotEmpty(n: nat, f: Prefix, little: bool, host: bool)
    ensures |PrefixBytes(n, f, little, host)| >= 1
  {
  }

  lemma TextDecoded(f: Prefix, s: seq<byte>, p: nat, n: nat, q: nat, little: bool, host: bool, capacity: nat)
    requires p <= |s| && q <= |s| && PrefixAt(s, p, f, little, host, capacity) == Got(n, q)
    ensures Decoded(s, p, String(f), little, host, capacity) == TextAt(s, q, n, capacity)
  {
  }

  lemma TextRoundTrip(t: seq<byte>, f: Prefix, h: seq<byte>, s: seq<byte>, p: nat,
                      little: bool, host: bool, host': bool, capacity: nat)
    requires |t| < Modulus(8) && h == PrefixBytes(|t|, f, little, host)
    requires p + |h + t| <= |s| <= capacity && s[p..p + |h + t|] == h + t
    ensures PrefixAt(s, p, f, little, host', capacity) == Got(Cut(|t|, f), p + |h|)
    ensures Comes(TextAt(s, p + |h|, Cut(|t|, f), capacity),
                  Cut(|t|, f) == |t| && !(t == [] && p + |h| == capacity), Text(t), p + |h| + |t|)
  {
    SplitSlice(s, p, h, t);
    PrefixRoundTrip(|t|, f, s, p, little, host, host', capacity);
    TextAtRoundTrip(t, Cut(|t|, f), s, p + |h|, capacity);
  }

  lemma SplitSlice(s: seq<byte>, p: nat, h: seq<byte>, t: seq<byte>)
    requires p + |h + t| <= |s| && s[p..p + |h + t|] == h + t
    ensures s[p..p + |h|] == h && s[p + |h|..p + |h| + |t|] == t
  {
    assert s[p..p + |h|] == s[p..p + |h + t|][..|h|];
    assert s[p + |h|..p + |h| + |t|] == s[p..p + |h + t|][|h|..];
  }

  lemma TextAtRoundTrip(t: seq<byte>, m: nat, s: seq<byte>, q: nat, capacity: nat)
    requires m <= |t| && q + |t| <= |s| <= capacity && s[q..q + |t|] == t
    ensures Comes(TextAt(s, q, m, capacity), m == |t| && !(t == [] && q == capacity), Text(t), q + |t|)
  {
  }

  /** A value with the writer and reader it goes through. */
  datatype Item = Item(x: Datum, k: Kind)

  predicate ValidItems(items: seq<Item>) {
    forall i :: 0 <= i < |items| ==> HasKind(items[i].x, items[i].k)
  }

  /** All the values, written with en one after the other. */
  function WriteAll(en: Item -> seq<byte>, items: seq<Item>): (d: seq<byte>) {
    if items == [] then [] else en(items[0]) + WriteAll(en, items[1..])
  }

  /** The writers. */
  function Encoder(little: bool, host: bool): (en: Item -> seq<byte>) {
    (it: Item) => if HasKind(it.x, it.k) then Encoded(it.x, it.k, little, host) else []
  }

  /** Reads one value after the other with rd until one fails. */
  function ReadAll(rd: (nat, Kind) -> Parsed<Datum>, p: nat, ks: seq<Kind>): (r: Parsed<seq<Datum>>)
    decreases |ks|
  {
    if ks == [] then Got([], p)
    else
      match rd(p, ks[0])
      case Thrown => Thrown
      case Crashed => Crashed
      case Got(x, q) => Before(x, ReadAll(rd, q, ks[1..]))
  }

  function Before(x: Datum, r: Parsed<seq<Datum>>): (r': Parsed<seq<Datum>>) {
    if r.Got? then Got([x] + r.x, r.next) else r
  }

  /** The readers over a byte sequence; past its end there is nothing to read. */
  function Reader(s: seq<byte>, little: bool, host: bool, capacity: nat): (rd: (nat, Kind) -> Parsed<Datum>) {
    (p: nat, k: Kind) => if p <= |s| && ValidKind(k) then Decoded(s, p, k, little, host, capacity) else Thrown
  }

  function Kinds(items: seq<Item>): (ks: seq<Kind>)
    ensures |ks| == |items| && forall i :: 0 <= i < |ks| ==> ks[i] == items[i].k
  {
    seq(|items|, i requires 0 <= i < |items| => items[i].k)
  }

  function Data(items: seq<Item>): (xs: seq<Datum>)
    ensures |xs| == |items| && forall i :: 0 <= i < |xs| ==> xs[i] == items[i].x
  {
    seq(|items|, i requires 0 <= i < |items| => items[i].x)
  }

  predicate AllFit(items: seq<Item>) {
    forall i :: 0 <= i < |items| ==> Fits(items[i].x, items[i].k)
  }

  predicate EndsEmpty(items: seq<Item>) {
    items != [] && items[|items| - 1].x == Text([])
  }

  /** When all the values come back. */
  predicate Readable(items: seq<Item>, size: nat, capacity: nat) {
    AllFit(items) && !(EndsEmpty(items) && size == capacity)
  }

  /** When a value that ends at q comes back. */
  predicate First(it: Item, q: nat, capacity: nat) {
    Fits(it.x, it.k) && !(it.x == Text([]) && q == capacity)
  }

  lemma ReadableCons(items: seq<Item>, size: nat, capacity: nat, q: nat)
    requires items != [] && q <= size <= capacity && (items[1..] == [] <==> q == size)
    ensures Readable(items, size, capacity) <==>
            First(items[0], q, capacity) && Readable(items[1..], size, capacity)
  {
    assert forall i :: 0 < i < |items| ==> items[i] == items[1..][i - 1];
  }

  lemma SplitTail(s: seq<byte>, p: nat, h: seq<byte>, t: seq<byte>)
    requires p <= |s| && s[p..] == h + t
    ensures |s| == p + |h| + |t| && s[p..p + |h|] == h && s[p + |h|..] == t
  {
    assert s[p..p + |h|] == s[p..][..|h|];
    assert s[p + |h|..] == s[p..][|h|..];
  }

  /** What rd reads from p on, value by value: each that ends at its place comes back if it can. */
  ghost predicate Laid(rd: (nat, Kind) -> Parsed<Datum>, items: seq<Item>, p: nat, size: nat, capacity: nat)
    decreases |items|
  {
    if items == [] then p == size
    else exists q: nat :: LaidAt(rd, items, p, q, size, capacity)
  }

  /** The first value ends at q. */
  ghost predicate LaidAt(rd: (nat, Kind) -> Parsed<Datum>, items: seq<Item>, p: nat, q: nat, size: nat, capacity: nat)
    requires items != []
    decreases |items|, 0
  {
    && p < q <= size
    && Comes(rd(p, items[0].k), First(items[0], q, capacity), items[0].x, q)
    && Laid(rd, items[1..], q, size, capacity)
  }

  lemma {:induction false} LaidComes(rd: (nat, Kind) -> Parsed<Datum>, items: seq<Item>, p: nat, size: nat,
                                     capacity: nat)
    requires Laid(rd, items, p, size, capacity) && p <= size <= capacity
    ensures Comes(ReadAll(rd, p, Kinds(items)), Readable(items, size, capacity), Data(items), size)
    ensures items == [] <==> p == size
    decreases |items|
  {
    if items != [] {
      var q: nat :| LaidAt(rd, items, p, q, size, capacity);
      var rest := items[1..];
      LaidComes(rd, rest, q, size, capacity);
      ReadableCons(items, size, capacity, q);
      BeforeComes(rd(p, items[0].k), First(items[0], q, capacity), items[0].x, q,
                  ReadAll(rd, q, Kinds(rest)), Readable(rest, size, capacity), Data(rest), size);
      assert Kinds(items)[1..] == Kinds(rest) && Data(items) == [items[0].x] + Data(rest);
    }
  }

  /** One value, and the ones behind it. */
  lemma BeforeComes(d: Parsed<Datum>, ok: bool, x: Datum, q: nat, r: Parsed<seq<Datum>>, ok': bool, xs: seq<Datum>,
                    size: nat)
    requires Comes(d, ok, x, q) && Comes(r, ok', xs, size)
    ensures ok && ok' ==> Before(x, r) == Got([x] + xs, size)
    ensures d.Got? && Yields(Before(d.x, r), [x] + xs) ==> d.x == x && Yields(r, xs)
  {
    if d.Got? && Yields(Before(d.x, r), [x] + xs) {
      var ys := [d.x] + r.x;
      assert ys[0] == x && ys[1..] == xs && ys[1..] == r.x;
    }
  }

  /** The bytes e in s, wherever they are, make rd read the value if that can be. */
  ghost predicate Faithful(e: seq<byte>, rd: (nat, Kind) -> Parsed<Datum>, it: Item, s: seq<byte>, capacity: nat) {
    |e| >= 1 && forall p: nat :: FaithfulAt(e, rd, it, s, p, capacity)
  }

  ghost predicate FaithfulAt(e: seq<byte>, rd: (nat, Kind) -> Parsed<Datum>, it: Item, s: seq<byte>, p: nat,
                             capacity: nat)
  {
    p + |e| <= |s| && s[p..p + |e|] == e ==> Comes(rd(p, it.k), First(it, p + |e|, capacity), it.x, p + |e|)
  }

  /** Values written one after the other lie so. */
  lemma {:induction false} WrittenIsLaid(en: Item -> seq<byte>, rd: (nat, Kind) -> Parsed<Datum>, items: seq<Item>,
                                         s: seq<byte>, p: nat, capacity: nat)
    requires p <= |s| <= capacity && s[p..] == WriteAll(en, items)
    requires forall it :: it in items ==> Faithful(en(it), rd, it, s, capacity)
    ensures Laid(rd, items, p, |s|, capacity)
    decreases |items|
  {
    if items != [] {
      var e := en(items[0]);
      SplitTail(s, p, e, WriteAll(en, items[1..]));
      WrittenIsLaid(en, rd, items[1..], s, p + |e|, capacity);
      assert Faithful(e, rd, items[0], s, capacity) && FaithfulAt(e, rd, items[0], s, p, capacity);
      assert LaidAt(rd, items, p, p + |e|, |s|, capacity);
    }
  }

  lemma EncodedIsNotEmpty(it: Item, e: seq<byte>, little: bool, host: bool)
    requires HasKind(it.x, it.k) && e == Encoded(it.x, it.k, little, host)
    ensures |e| >= 1
  {
    DatumRoundTrip(it.x, it.k, e, e, 0, little, host, host, |e|);
  }

  lemma CodecIsFaithfulAt(it: Item, e: seq<byte>, s: seq<byte>, p: nat, rd: (nat, Kind) -> Parsed<Datum>,
                          little: bool, host: bool, host': bool, capacity: nat)
    requires HasKind(it.x, it.k) && |s| <= capacity && e == Encoded(it.x, it.k, little, host)
    requires rd == Reader(s, little, host', capacity)
    ensures FaithfulAt(e, rd, it, s, p, capacity)
  {
    if p + |e| <= |s| && s[p..p + |e|] == e {
      DatumRoundTrip(it.x, it.k, e, s, p, little, host, host', capacity);
    }
  }

  lemma CodecIsFaithful(it: Item, e: seq<byte>, s: seq<byte>, rd: (nat, Kind) -> Parsed<Datum>,
                        little: bool, host: bool, host': bool, capacity: nat)
    requires HasKind(it.x, it.k) && |s| <= capacity && e == Encoded(it.x, it.k, little, host)
    requires rd == Reader(s, little, host', capacity)
    ensures Faithful(e, rd, it, s, capacity)
  {
    EncodedIsNotEmpty(it, e, little, host);
    forall p: nat
      ensures FaithfulAt(e, rd, it, s, p, capacity)
    {
      CodecIsFaithfulAt(it, e, s, p, rd, little, host, host', capacity);
    }
  }

  /** All values read back are the ones written, exactly if all lengths fit and the last value is not an
      empty string at the end of the storage. */
  lemma AllRoundTrip(items: seq<Item>, s: seq<byte>, little: bool, host: bool, host': bool, capacity: nat)
    requires ValidItems(items) && |s| <= capacity && s == WriteAll(Encoder(little, host), items)
    ensures Comes(ReadAll(Reader(s, little, host', capacity), 0, Kinds(items)),
                  Readable(items, |s|, capacity), Data(items), |s|)
    ensures items == [] <==> |s| == 0
  {
    assert s[0..] == s;
    var en, rd := Encoder(little, host), Reader(s, little, host', capacity);
    forall it | it in items
      ensures Faithful(en(it), rd, it, s, capacity)
    {
      CodecIsFaithful(it, Encoded(it.x, it.k, little, host), s, rd, little, host, host', capacity);
    }
    WrittenIsLaid(en, rd, items, s, 0, capacity);
    LaidComes(rd, items, 0, |s|, capacity);
  }
}
