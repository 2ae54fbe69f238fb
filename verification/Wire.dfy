/** The encodings of ByteArray byte by byte: which digit of a number is which byte of its encoding. */
module Wire {
  import opened Blocks
  import opened ByteArrays
  import opened Codec

  function Power(b: nat, i: nat): (n: nat)
    requires b >= 1
    ensures n >= 1
  {
    if i == 0 then 1 else b * Power(b, i - 1)
  }

  /** Digit i of a number in base b, the lowest one being digit 0. */
  function DigitOf(v: nat, b: nat, i: nat): (d: nat)
    requires b >= 1
    ensures d < b
  {
    v / Power(b, i) % b
  }

  lemma {:induction false} SpanIsPower(i: nat)
    ensures Span(i) == Power(256, i) && GroupSpan(i) == Power(128, i)
  {
    if i > 0 {
      SpanIsPower(i - 1);
    }
  }

  lemma Scaled(a: nat, b: nat, q: nat, r: nat)
    requires r < b
    ensures a * (b * q + r) == q * (a * b) + a * r && a * r + a <= a * b
  {
    assert a * (b * q + r) == a * (b * q) + a * r;
    assert a * (r + 1) <= a * b;
  }

  lemma Positive(a: nat, b: nat)
    requires a >= 1 && b >= 1
    ensures a * b >= 1
  {
  }

  /** The quotient by a product. */
  lemma DivTwice(v: nat, a: nat, b: nat)
    requires a >= 1 && b >= 1
    ensures a * b >= 1 && v / (a * b) == v / a / b
  {
    var q := v / a;
    Positive(a, b);
    DivParts(v, a, b, q, v % a, q / b, q % b);
  }

  lemma DivParts(v: nat, a: nat, b: nat, q: nat, r: nat, x: nat, y: nat)
    requires v == a * q + r && r < a && q == b * x + y && y < b && a * b >= 1
    ensures v / (a * b) == x
  {
    Scaled(a, b, x, y);
    var m, rest := a * b, a * y + r;
    assert v == x * m + rest && rest < m;
    DivisionIsUnique(v, x, rest, m);
  }

  /** The lower digits are those of the quotient, one place down. */
  lemma DigitBelow(v: nat, b: nat, i: nat)
    requires b >= 1 && i > 0
    ensures DigitOf(v, b, i) == DigitOf(v / b, b, i - 1)
  {
    DivTwice(v, b, Power(b, i - 1));
  }

  // ----- fixed width -----

  lemma {:induction false} DigitsAre(v: nat, w: nat, i: nat)
    requires i < w
    ensures Digits(v, w)[i] == DigitOf(v, 256, i)
  {
    if i > 0 {
      DigitsAre(v / 256, w - 1, i - 1);
      DigitBelow(v, 256, i);
    } else {
      assert Power(256, 0) == 1;
    }
  }

  lemma {:induction false} ReverseIs(d: seq<byte>, i: nat)
    requires i < |d|
    ensures Reverse(d)[i] == d[|d| - 1 - i]
  {
    if i < |d| - 1 {
      ReverseIs(d[1..], i);
    }
  }

  /** The digit that byte i of w bytes holds: from the lowest one on in little endian, from the highest in big. */
  function Place(w: nat, i: nat, little: bool): (j: nat)
    requires i < w
  {
    if little then i else w - 1 - i
  }

  lemma OrderedAre(v: nat, w: nat, little: bool, i: nat)
    requires i < w
    ensures Ordered(Digits(v, w), little)[i] == DigitOf(v, 256, Place(w, i, little))
  {
    var d := Digits(v, w);
    DigitsAre(v, w, Place(w, i, little));
    if !little {
      ReverseIs(d, i);
    }
  }

  /** writeFuint*: on every host the bytes of the number, in the array's byte order. */
  lemma FixedBytes(v: nat, w: nat, little: bool, host: bool, i: nat)
    requires i < w
    ensures |PutFixed(v, w, little, host)| == w
    ensures PutFixed(v, w, little, host)[i] == DigitOf(v, 256, Place(w, i, little))
  {
    FixedIsPortable(v, w, little, host);
    OrderedAre(v, w, little, i);
  }

  /** readFuint*: on every host the number with these digits, in the array's byte order. */
  lemma FixedRead(d: seq<byte>, little: bool, host: bool)
    ensures GetFixed(d, little, host) < Power(256, |d|)
    ensures forall i :: 0 <= i < |d| ==> d[i] == DigitOf(GetFixed(d, little, host), 256, Place(|d|, i, little))
  {
    var v := GetFixed(d, little, host);
    SpanIsPower(|d|);
    GetFixedIs(d, little, host);
    ValueDigits(Ordered(d, little));
    OrderedTwice(d, little);
    FixedIsPortable(v, |d|, little, host);
    forall i | 0 <= i < |d|
      ensures d[i] == DigitOf(v, 256, Place(|d|, i, little))
    {
      FixedBytes(v, |d|, little, host, i);
    }
  }

  // ----- base 128 -----

  /** writeUint32 and 64: the digits in base 128 from the lowest on, with 128 added to all but the last. */
  lemma {:induction false} VintBytes(v: nat, i: nat)
    requires i < |Vint(v)|
    ensures Vint(v)[i] == DigitOf(v, 128, i) + if i < |Vint(v)| - 1 then 128 else 0
    ensures v < Power(128, |Vint(v)|) && (|Vint(v)| > 1 ==> v >= Power(128, |Vint(v)| - 1))
  {
    VintIsMinimal(v);
    SpanIsPower(|Vint(v)|);
    SpanIsPower(|Vint(v)| - 1);
    if i > 0 {
      VintBytes(v / 128, i - 1);
      DigitBelow(v, 128, i);
    } else {
      assert Power(128, 0) == 1;
    }
  }

  lemma DigitAbove(v: nat, d: nat, b: nat, i: nat)
    requires b >= 1 && d < b
    ensures DigitOf(d + b * v, b, i) == if i == 0 then d else DigitOf(v, b, i - 1)
  {
    DivisionIsUnique(d + b * v, v, d, b);
    if i > 0 {
      DigitBelow(d + b * v, b, i);
    } else {
      assert Power(b, 0) == 1;
    }
  }

  /** Groups of seven bits, all but the last marked as going on, whose bits make up the number; fewer than g only
      if the last one is not marked. */
  ghost predicate MakeUp(d: seq<byte>, g: nat, v: nat) {
    && |d| <= g && v < Power(128, |d|) && (|d| < g ==> d != [] && d[|d| - 1] < 128)
    && (forall i :: 0 <= i < |d| - 1 ==> d[i] >= 128)
    && (forall i :: 0 <= i < |d| ==> DigitOf(v, 128, i) == d[i] % 128)
  }

  lemma MakeUpOne(b: byte, g: nat)
    requires b < 128 && g > 0
    ensures MakeUp([b], g, b)
  {
    assert Power(128, 0) == 1 && Power(128, 1) == 128;
  }

  lemma OneDigitMore(v: nat, d: nat, n: nat)
    requires v < Power(128, n) && d < 128
    ensures d + 128 * v < Power(128, n + 1)
  {
  }

  lemma MakeUpMore(b: byte, d: seq<byte>, g: nat, v: nat)
    requires MakeUp(d, g, v) && b >= 128
    ensures MakeUp([b] + d, g + 1, b - 128 + 128 * v)
  {
    var d', v' := [b] + d, b - 128 + 128 * v;
    OneDigitMore(v, b - 128, |d|);
    forall i | 0 <= i < |d'|
      ensures DigitOf(v', 128, i) == d'[i] % 128
    {
      DigitAbove(v, b - 128, 128, i);
      assert i > 0 ==> d'[i] == d[i - 1];
    }
  }

  /** A reader of at most g groups from p on: they make up the number, or all bytes there are marked, and too few. */
  ghost predicate Accounted(s: seq<byte>, p: nat, g: nat, r: Sum) {
    match r
    case Short => |s| - p < g && forall i :: p <= i < |s| ==> s[i] >= 128
    case Sum(v, n) => p + n <= |s| && MakeUp(s[p..p + n], g, v)
  }

  lemma AccountedNone(s: seq<byte>, p: nat)
    requires p <= |s|
    ensures Accounted(s, p, 0, Sum(0, 0))
  {
    assert s[p..p] == [] && Power(128, 0) == 1;
  }

  lemma AccountedOne(s: seq<byte>, p: nat, g: nat)
    requires p < |s| && s[p] < 128 && g > 0
    ensures Accounted(s, p, g, Sum(s[p], 1))
  {
    MakeUpOne(s[p], g);
    assert s[p..p + 1] == [s[p]];
  }

  lemma AccountedMore(s: seq<byte>, p: nat, g: nat, r: Sum)
    requires p < |s| && s[p] >= 128 && Accounted(s, p + 1, g, r)
    ensures Accounted(s, p, g + 1, if r.Short? then Short else Sum(s[p] - 128 + 128 * r.value, r.used + 1))
  {
    if r.Sum? {
      MakeUpMore(s[p], s[p + 1..p + 1 + r.used], g, r.value);
      assert s[p..p + (r.used + 1)] == [s[p]] + s[p + 1..p + 1 + r.used];
    }
  }

  /** readUint32 and 64: the groups from p on. */
  lemma {:induction false} GroupsRead(s: seq<byte>, p: nat, g: nat)
    requires p <= |s|
    ensures Accounted(s, p, g, Groups(s, p, g))
    decreases g
  {
    if g == 0 {
      AccountedNone(s, p);
    } else if p < |s| && s[p] < 128 {
      AccountedOne(s, p, g);
    } else if p < |s| {
      GroupsRead(s, p + 1, g - 1);
      AccountedMore(s, p, g - 1, Groups(s, p + 1, g - 1));
    }
  }

  // ----- typed values -----

  lemma {:induction false} ModulusIsPower(w: nat)
    requires w == 1 || w == 2 || w == 4 || w == 8
    ensures Modulus(w) == Power(256, w)
  {
    SpanIsModulus(w);
    SpanIsPower(w);
  }

  lemma UnsignedIs(n: int, m: nat)
    requires m >= 1 && 0 <= n + m && n < m
    ensures Unsigned(n, m) == n % m
  {
  }

  /** writeFint* and writeFuint*: the digits of the number modulo the word, in the array's byte order. */
  lemma EncodedFixed(n: int, w: nat, signed: bool, little: bool, host: bool, i: nat)
    requires HasKind(Number(n), Fixed(w, signed)) && i < w
    ensures |Encoded(Number(n), Fixed(w, signed), little, host)| == w
    ensures Encoded(Number(n), Fixed(w, signed), little, host)[i] ==
            DigitOf(n % Power(256, w), 256, Place(w, i, little))
  {
    ModulusIsPower(w);
    UnsignedIs(n, Modulus(w));
    FixedBytes(Unsigned(n, Modulus(w)), w, little, host, i);
  }

  /** writeInt* and writeUint*: digits in base 128; of a signed number, those of 2n, or of -2n - 1 if it is
      negative. */
  lemma EncodedVarint(n: int, w: nat, signed: bool, little: bool, host: bool, i: nat)
    requires HasKind(Number(n), Varint(w, signed)) && i < |Encoded(Number(n), Varint(w, signed), little, host)|
    ensures var u := if !signed then n else if n < 0 then -2 * n - 1 else 2 * n;
            var d := Encoded(Number(n), Varint(w, signed), little, host);
            && 0 <= u < Power(128, |d|) && (|d| > 1 ==> u >= Power(128, |d| - 1))
            && d[i] == DigitOf(u, 128, i) + if i < |d| - 1 then 128 else 0
  {
    if signed {
      ZigZagRoundTrip(n, Modulus(w));
    }
    VintBytes(if signed then ZigZag(n, Modulus(w)) else n, i);
  }

  /** The integer in front of a string. */
  function PrefixKind(f: Prefix): (k: Kind) {
    match f
    case Fixed16 => Fixed(2, false)
    case Fixed32 => Fixed(4, false)
    case Fixed64 => Fixed(8, false)
    case Variable => Varint(8, false)
  }

  /** writeStringF16, F32, F64 and Vint: the length, as far as the integer holds it, and then the bytes. */
  lemma EncodedText(t: seq<byte>, f: Prefix, little: bool, host: bool)
    requires |t| < Modulus(8)
    ensures var k := PrefixKind(f);
            Encoded(Text(t), String(f), little, host) ==
            Encoded(Number(|t| % Power(256, k.w)), k, little, host) + t
  {
    ModulusIsPower(PrefixKind(f).w);
  }

  lemma SignedIs(u: nat, m: nat, signed: bool)
    requires u < m && m % 2 == 0
    ensures var n := if signed then Signed(u, m) else u; InRange(n, m, signed) && n % m == u
  {
    UnsignedIs(if signed then Signed(u, m) else u, m);
  }

  lemma DecodedNumber(d: seq<byte>, w: nat, signed: bool, little: bool, host: bool)
    requires ValidKind(Fixed(w, signed)) && |d| == w
    ensures var u := GetFixed(d, little, host);
            var n := if signed then Signed(u, Modulus(w)) else u;
            && InRange(n, Modulus(w), signed)
            && forall i :: 0 <= i < w ==> d[i] == DigitOf(n % Power(256, w), 256, Place(w, i, little))
  {
    ModulusIsPower(w);
    FixedRead(d, little, host);
    SignedIs(GetFixed(d, little, host), Modulus(w), signed);
  }

  /** readFint* and readFuint*: the number of that type whose digits these bytes are; out of range exactly if they
      are not all there. */
  lemma DecodedFixed(s: seq<byte>, p: nat, w: nat, signed: bool, little: bool, host: bool, capacity: nat)
    requires p <= |s| <= capacity && ValidKind(Fixed(w, signed))
    ensures match Decoded(s, p, Fixed(w, signed), little, host, capacity)
            case Thrown => p + w > |s|
            case Crashed => false
            case Got(x, q) =>
              && q == p + w <= |s| && HasKind(x, Fixed(w, signed))
              && forall i :: 0 <= i < w ==>
                   s[p..q][i] == DigitOf(x.n % Power(256, w), 256, Place(w, i, little))
  {
    if p + w <= |s| {
      var d := s[p..p + w];
      DecodedNumber(d, w, signed, little, host);
      assert ReadOf(s, p, w, capacity) == Bytes(d);
    }
  }

  /** readInt* and readUint*: the number these groups make up, modulo the word; if signed, half of it, or -1 minus
      that if it is odd. */
  lemma DecodedVarint(s: seq<byte>, p: nat, w: nat, signed: bool, little: bool, host: bool, capacity: nat)
    requires p <= |s| && ValidKind(Varint(w, signed))
    ensures match Decoded(s, p, Varint(w, signed), little, host, capacity)
            case Thrown => Groups(s, p, MaxGroups(w)).Short?
            case Crashed => false
            case Got(x, q) =>
              && Groups(s, p, MaxGroups(w)).Sum? && q == p + Groups(s, p, MaxGroups(w)).used
              && var u := Groups(s, p, MaxGroups(w)).value % Power(256, w);
                 x == Number(if !signed then u else if u % 2 == 0 then u / 2 else -1 - u / 2)
  {
    ModulusIsPower(w);
  }

  lemma PrefixDecoded(s: seq<byte>, p: nat, f: Prefix, little: bool, host: bool, capacity: nat)
    requires p <= |s| <= capacity
    ensures Decoded(s, p, PrefixKind(f), little, host, capacity) ==
            match PrefixAt(s, p, f, little, host, capacity)
            case Got(n, q) => Got(Number(n), q)
            case Thrown => Thrown
            case Crashed => Crashed
  {
    match f
    case Fixed16 =>
    case Fixed32 =>
    case Fixed64 =>
    case Variable =>
  }

  /** The bytes of a string of that length from q on. */
  function TextOf(s: seq<byte>, q: nat, n: nat, capacity: nat): (r: Parsed<Datum>)
    requires q <= |s| <= capacity
  {
    if q + n > |s| then Thrown
    else if n == 0 && q == capacity then Crashed
    else Got(Text(s[q..q + n]), q + n)
  }

  lemma TextDecoded(s: seq<byte>, q: nat, n: nat, capacity: nat)
    requires q <= |s| <= capacity
    ensures TextAt(s, q, n, capacity) == TextOf(s, q, n, capacity)
  {
  }

  /** readStringF16, F32, F64 and Vint: the integer in front, and that many bytes behind it. */
  lemma DecodedText(s: seq<byte>, p: nat, f: Prefix, little: bool, host: bool, capacity: nat)
    requires p <= |s| <= capacity
    ensures match Decoded(s, p, PrefixKind(f), little, host, capacity)
            case Thrown => Decoded(s, p, String(f), little, host, capacity) == Thrown
            case Crashed => Decoded(s, p, String(f), little, host, capacity) == Crashed
            case Got(x, q) =>
              && x.Number? && x.n >= 0 && q <= |s|
              && Decoded(s, p, String(f), little, host, capacity) == TextOf(s, q, x.n, capacity)
  {
    PrefixDecoded(s, p, f, little, host, capacity);
    match PrefixAt(s, p, f, little, host, capacity)
    case Got(n, q) => TextDecoded(s, q, n, capacity);
    case Thrown =>
    case Crashed =>
  }
}
