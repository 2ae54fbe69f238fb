/** IPv6Address::insert: the text form of an address, and how such text is read back. */
module Ipv6 {
  import opened Wrappers

  type group = x: int | 0 <= x < 0x1_0000

  const DIGITS: string := "0123456789abcdef"

  /** Hexadecimal, no leading zeros. */
  function Hex(n: nat): (t: string)
    ensures |t| >= 1
  {
    if n < 16 then [DIGITS[n]] else Hex(n / 16) + [DIGITS[n % 16]]
  }

  // ----- the text -----

  /** Groups in hexadecimal, each behind a colon. */
  function Colons(gs: seq<group>): (t: string) {
    if gs == [] then "" else ":" + (Hex(gs[0]) + Colons(gs[1..]))
  }

  /** Groups in hexadecimal with colons between them. */
  function Joined(gs: seq<group>): (t: string) {
    if gs == [] then "" else Hex(gs[0]) + Colons(gs[1..])
  }

  /** The first zero group from k on; -1 if there is none. */
  function FirstZero(g: seq<group>, k: nat): (i: int)
    requires |g| == 8 && k <= 8
    ensures -1 <= i < 8 && (i >= 0 ==> k <= i && g[i] == 0)
    ensures forall x :: k <= x < (if i < 0 then 8 else i) ==> g[x] != 0
    decreases 8 - k
  {
    if k == 8 then -1 else if g[k] == 0 then k else FirstZero(g, k + 1)
  }

  /** The end of the run of zeros that begins at k. */
  function RunEnd(g: seq<group>, k: nat): (e: nat)
    requires |g| == 8 && k <= 8
    ensures k <= e <= 8 && (forall x :: k <= x < e ==> g[x] == 0) && (e < 8 ==> g[e] != 0)
    decreases 8 - k
  {
    if k < 8 && g[k] == 0 then RunEnd(g, k + 1) else k
  }

  /** The text of an address: its groups with colons between them, and a double colon for the first run of
      zeros, the whole of it. */
  function Text(g: seq<group>): (t: string)
    requires |g| == 8
  {
    var z := FirstZero(g, 0);
    if z < 0 then Joined(g) else Joined(g[..z]) + "::" + Joined(g[RunEnd(g, z)..])
  }

  /** The digits of a group: the number, with no zero in front. */
  lemma {:induction false} HexIsShort(n: nat)
    ensures |Hex(n)| > 1 ==> Hex(n)[0] != '0'
    ensures Hex(n) == "0" <==> n == 0
  {
    if n >= 16 {
      HexIsShort(n / 16);
      assert Hex(n)[0] == Hex(n / 16)[0];
    }
  }

  // ----- writing -----

  /** Whether group i is the first one behind a run of zeros that has been left out. */
  predicate Resumes(g: seq<group>, i: nat, used: bool)
    requires |g| == 8 && i < 8
  {
    i > 0 && g[i - 1] == 0 && !used
  }

  /** What the loop writes for group i. */
  function Piece(g: seq<group>, i: nat, used: bool): (t: string)
    requires |g| == 8 && i < 8
  {
    (if Resumes(g, i, used) then ":" else "") + (if i > 0 then ":" else "") + Hex(g[i])
  }

  /** What the loop writes from group i on; used says whether a run of zeros has been left out. */
  function Rest(g: seq<group>, i: nat, used: bool): (t: string)
    requires |g| == 8 && i <= 8
    decreases 8 - i
  {
    if i == 8 then (if !used && g[7] == 0 then "::" else "")
    else if g[i] == 0 && !used then Rest(g, i + 1, used)
    else Piece(g, i, used) + Rest(g, i + 1, used || Resumes(g, i, used))
  }

  lemma RestStep(t: string, g: seq<group>, i: nat, used: bool)
    requires |g| == 8 && i < 8 && !(g[i] == 0 && !used)
    ensures t + Rest(g, i, used) == (t + Piece(g, i, used)) + Rest(g, i + 1, used || Resumes(g, i, used))
  {
  }

  /** Behind the zeros left out every group is written. */
  lemma {:induction false} RestIsColons(g: seq<group>, i: nat)
    requires |g| == 8 && 0 < i <= 8
    ensures Rest(g, i, true) == Colons(g[i..])
    decreases 8 - i
  {
    if i < 8 {
      RestIsColons(g, i + 1);
      assert g[i..][1..] == g[i + 1..];
      PieceIs(g, i, true);
    }
  }

  /** The zeros from k to i are not written yet: the rest begins with the double colon. */
  lemma {:induction false} RestIsGap(g: seq<group>, k: nat, i: nat)
    requires |g| == 8 && k < i <= 8 && forall x :: k <= x < i ==> g[x] == 0
    ensures Rest(g, i, false) == "::" + Joined(g[RunEnd(g, i)..])
    decreases 8 - i
  {
    if i < 8 && g[i] == 0 {
      RestIsGap(g, k, i + 1);
    } else if i < 8 {
      RestIsColons(g, i + 1);
      assert g[i..][1..] == g[i + 1..];
      assert Rest(g, i, false) == "::" + (Hex(g[i]) + Rest(g, i + 1, true));
    }
  }

  /** What follows a group that is not zero: groups up to the first zero, and then the gap. */
  function Following(g: seq<group>, i: nat): (t: string)
    requires |g| == 8 && i <= 8
  {
    var z := FirstZero(g, i);
    if z < 0 then Colons(g[i..]) else Colons(g[i..z]) + ("::" + Joined(g[RunEnd(g, z)..]))
  }

  lemma {:induction false} RestFollows(g: seq<group>, i: nat)
    requires |g| == 8 && 0 < i <= 8 && g[i - 1] != 0
    ensures Rest(g, i, false) == Following(g, i)
    decreases 8 - i
  {
    if i < 8 && g[i] == 0 {
      RestIsGap(g, i, i + 1);
      assert g[i..i] == [] && RunEnd(g, i) == RunEnd(g, i + 1);
      assert "" + Rest(g, i, false) == Rest(g, i, false);
    } else if i < 8 {
      RestFollows(g, i + 1);
      PieceIs(g, i, false);
      FollowingStep(g, i);
    }
  }

  lemma FollowingStep(g: seq<group>, i: nat)
    requires |g| == 8 && i < 8 && g[i] != 0
    ensures Following(g, i) == ":" + (Hex(g[i]) + Following(g, i + 1))
  {
    var z := FirstZero(g, i);
    assert z == FirstZero(g, i + 1);
    if z < 0 {
      assert g[i..][1..] == g[i + 1..];
    } else {
      assert g[i..z][1..] == g[i + 1..z];
      Behind(":", Hex(g[i]), Colons(g[i + 1..z]), "::" + Joined(g[RunEnd(g, z)..]));
    }
  }

  lemma Behind(a: string, b: string, c: string, d: string)
    ensures (a + (b + c)) + d == a + (b + (c + d))
  {
  }

  /** The loop writes the text. */
  lemma PrintIsText(g: seq<group>)
    requires |g| == 8
    ensures Rest(g, 0, false) == Text(g)
  {
    if g[0] == 0 {
      RestIsGap(g, 0, 1);
      TextGap(g);
    } else {
      RestFollows(g, 1);
      PieceIs(g, 0, false);
      TextStart(g);
    }
  }

  lemma TextGap(g: seq<group>)
    requires |g| == 8 && g[0] == 0
    ensures Text(g) == "::" + Joined(g[RunEnd(g, 1)..])
  {
    assert RunEnd(g, 0) == RunEnd(g, 1) && g[..0] == [];
    assert "" + "::" == "::";
  }

  lemma TextStart(g: seq<group>)
    requires |g| == 8 && g[0] != 0
    ensures Text(g) == Hex(g[0]) + Following(g, 1)
  {
    var z := FirstZero(g, 0);
    assert z == FirstZero(g, 1);
    if z >= 0 {
      assert g[..z][1..] == g[1..z];
      Regrouped(Hex(g[0]), Colons(g[1..z]), "::", Joined(g[RunEnd(g, z)..]));
    }
  }

  lemma Regrouped(a: string, b: string, c: string, d: string)
    ensures (a + b) + c + d == a + (b + (c + d))
  {
  }

  /** One group of the loop of insert. */
  method PrintGroup(g: seq<group>, i: nat, used: bool) returns (t: string, used': bool)
    requires |g| == 8 && i < 8
    ensures t == Piece(g, i, used) && used' == (used || Resumes(g, i, used))
  {
    t, used' := "", used;
    if i > 0 && g[i - 1] == 0 && !used {
      t := t + ":";
      used' := true;
    }
    if i > 0 {
      t := t + ":";
    }
    t := t + Hex(g[i]);
  }

  /** The loop of insert. */
  method Print(g: seq<group>) returns (t: string)
    requires |g| == 8
    ensures t == Text(g) && Parse(t) == Some(g)
  {
    PrintIsText(g);
    PrintParses(g);
    t := "";
    var used := false;
    for i := 0 to 8
      invariant t + Rest(g, i, used) == Rest(g, 0, false)
    {
      if g[i] == 0 && !used {
        continue;
      }
      RestStep(t, g, i, used);
      var p;
      p, used := PrintGroup(g, i, used);
      t := t + p;
    }
    if !used && g[7] == 0 {
      t := t + "::";
    }
  }

  // ----- reading, as section 2.2 of RFC 4291 has it -----

  /** What the reader has seen last. */
  datatype Last = Nothing | Lead | Colon | Digit

  /** The groups read, the digits of the one being read, and where the double colon was. */
  datatype Reader = Reader(groups: seq<group>, value: group, digits: nat, gap: int, last: Last) | Bad

  const BEGIN: Reader := Reader([], 0, 0, -1, Nothing)

  function DigitOf(c: char): (d: int)
    ensures -1 <= d < 16
  {
    if '0' <= c <= '9' then c as int - '0' as int
    else if 'a' <= c <= 'f' then c as int - 'a' as int + 10
    else -1
  }

  function Step(r: Reader, c: char): (r': Reader) {
    if r.Bad? then Bad
    else if c == ':' then
      match r.last
      case Nothing => r.(last := Lead)
      case Lead => r.(gap := 0, last := Colon)
      case Digit => Reader(r.groups + [r.value], 0, 0, r.gap, Colon)
      case Colon => if r.gap >= 0 then Bad else r.(gap := |r.groups|)
    else if DigitOf(c) < 0 || r.last.Lead? || r.digits == 4 || 16 * r.value + DigitOf(c) >= 0x1_0000 then Bad
    else r.(value := 16 * r.value + DigitOf(c), digits := r.digits + 1, last := Digit)
  }

  function Read(r: Reader, t: string): (r': Reader)
    decreases |t|
  {
    if t == "" then r else Read(Step(r, t[0]), t[1..])
  }

  function Zeros(n: nat): (z: seq<group>)
    ensures |z| == n && forall i :: 0 <= i < n ==> z[i] == 0
  {
    if n == 0 then [] else [0] + Zeros(n - 1)
  }

  /** The address a text stands for: eight groups, or fewer with a double colon for the missing zeros. */
  function Finish(r: Reader): (g: Option<seq<group>>) {
    if r.Bad? || r.last.Lead? || r.last.Nothing? then None
    else if r.last.Colon? && r.gap != |r.groups| then None
    else
      var gs := if r.last.Digit? then r.groups + [r.value] else r.groups;
      if r.gap < 0 then (if |gs| == 8 then Some(gs) else None)
      else if |gs| < 8 && r.gap <= |gs| then Some(gs[..r.gap] + Zeros(8 - |gs|) + gs[r.gap..])
      else None
  }

  function Parse(t: string): (g: Option<seq<group>>) {
    Finish(Read(BEGIN, t))
  }

  // ----- reading what was written -----

  lemma {:induction false} ReadAppend(r: Reader, a: string, b: string)
    ensures Read(r, a + b) == Read(Read(r, a), b)
    decreases |a|
  {
    if a == "" {
      assert a + b == b;
    } else {
      ReadAppend(Step(r, a[0]), a[1..], b);
      assert (a + b)[1..] == a[1..] + b;
    }
  }

  lemma DigitsRead(d: nat)
    requires d < 16
    ensures DigitOf(DIGITS[d]) == d && DIGITS[d] != ':'
  {
  }

  /** The most digits a number below 16^k takes. */
  function Power16(k: nat): (n: nat)
    ensures n >= 1
  {
    if k == 0 then 1 else 16 * Power16(k - 1)
  }

  lemma {:induction false} HexLength(n: nat, k: nat)
    requires k >= 1 && n < Power16(k)
    ensures |Hex(n)| <= k
  {
    if n >= 16 {
      assert k >= 2 by { assert Power16(1) == 16; }
      HexLength(n / 16, k - 1);
    }
  }

  /** Reading a group's digits gives the group. */
  lemma {:induction false} HexRead(r: Reader, n: group)
    requires r.Reader? && r.digits == 0 && r.value == 0 && !r.last.Lead? && |Hex(n)| <= 4
    ensures Read(r, Hex(n)) == r.(value := n, digits := |Hex(n)|, last := Digit)
    decreases n
  {
    if n < 16 {
      DigitsRead(n);
      assert Hex(n)[1..] == "";
    } else {
      var m := n / 16;
      HexRead(r, m);
      ReadAppend(r, Hex(m), [DIGITS[n % 16]]);
      DigitsRead(n % 16);
      var r' := Read(r, Hex(m));
      assert [DIGITS[n % 16]][1..] == "";
      assert Read(r', [DIGITS[n % 16]]) == Step(r', DIGITS[n % 16]);
    }
  }

  lemma GroupRead(r: Reader, n: group)
    requires r.Reader? && r.digits == 0 && r.value == 0 && !r.last.Lead?
    ensures Read(r, Hex(n)) == r.(value := n, digits := |Hex(n)|, last := Digit)
  {
    assert Power16(4) == 0x1_0000 by { assert Power16(2) == 0x100; }
    HexLength(n, 4);
    HexRead(r, n);
  }

  lemma ColonRead(r: Reader, t: string)
    ensures Read(r, ":" + t) == Read(Step(r, ':'), t)
  {
    assert (":" + t)[1..] == t;
  }

  /** The next group: the open one is closed, and the digits are read. */
  lemma NextRead(r: Reader, n: group, t: string)
    requires r.Reader? && r.last.Digit?
    ensures Read(r, ":" + (Hex(n) + t)) == Read(Reader(r.groups + [r.value], n, |Hex(n)|, r.gap, Digit), t)
  {
    ColonRead(r, Hex(n) + t);
    ReadAppend(Step(r, ':'), Hex(n), t);
    GroupRead(Step(r, ':'), n);
  }

  /** The reader when groups up to k are read, none of them left out, and the last one is still open. */
  function Plain(g: seq<group>, k: nat): (r: Reader)
    requires |g| == 8 && k <= 8
  {
    if k == 0 then BEGIN else Reader(g[..k - 1], g[k - 1], |Hex(g[k - 1])|, -1, Digit)
  }

  /** The reader when the zeros from k to j were left out and the groups from j to i are read. */
  function Gapped(g: seq<group>, k: nat, j: nat, i: nat): (r: Reader)
    requires |g| == 8 && k < j < i <= 8
  {
    Reader(g[..k] + g[j..i - 1], g[i - 1], |Hex(g[i - 1])|, k, Digit)
  }

  /** A double colon after k groups. */
  lemma GapRead(g: seq<group>, k: nat, t: string)
    requires |g| == 8 && k < 8
    ensures Read(Plain(g, k), "::" + t) == Read(Reader(g[..k], 0, 0, k, Colon), t)
  {
    ColonRead(Plain(g, k), ":" + t);
    assert "::" + t == ":" + (":" + t);
    ColonRead(Step(Plain(g, k), ':'), t);
    assert k > 0 ==> g[..k - 1] + [g[k - 1]] == g[..k];
  }

  /** The text read is that of the address, with the double colon after the first gap groups. */
  predicate Stands(r: Reader, g: seq<group>, gap: int) {
    Finish(r) == Some(g) && r.Reader? && r.gap == gap
  }

  lemma GappedFinish(g: seq<group>, k: nat, j: nat)
    requires |g| == 8 && k < j < 8 && forall x :: k <= x < j ==> g[x] == 0
    ensures Finish(Gapped(g, k, j, 8)) == Some(g)
  {
    var gs := g[..k] + g[j..7] + [g[7]];
    assert gs == g[..k] + g[j..];
    assert gs[..k] == g[..k] && gs[k..] == g[j..];
    assert g[..k] + Zeros(j - k) + g[j..] == g;
  }

  /** With the zeros left out, the groups that follow are read one by one. */
  lemma {:induction false} GappedParses(g: seq<group>, k: nat, j: nat, i: nat)
    requires |g| == 8 && k < j < i <= 8 && forall x :: k <= x < j ==> g[x] == 0
    ensures Stands(Read(Gapped(g, k, j, i), Rest(g, i, true)), g, k)
    decreases 8 - i
  {
    var r := Gapped(g, k, j, i);
    if i == 8 {
      GappedFinish(g, k, j);
    } else {
      var rest := Rest(g, i + 1, true);
      PieceIs(g, i, true);
      NextRead(r, g[i], rest);
      assert r.groups + [r.value] == g[..k] + g[j..i];
      GappedParses(g, k, j, i + 1);
    }
  }

  /** Before that: the groups up to k are read, and the ones from k to i are zeros not written yet. */
  lemma {:induction false} PlainParses(g: seq<group>, k: nat, i: nat)
    requires |g| == 8 && k <= i <= 8 && (forall x :: k <= x < i ==> g[x] == 0) && (k > 0 ==> g[k - 1] != 0)
    ensures Stands(Read(Plain(g, k), Rest(g, i, false)), g, FirstZero(g, k))
    decreases 8 - i
  {
    if i == 8 {
      LastParses(g, k);
    } else if g[i] == 0 {
      PlainParses(g, k, i + 1);
    } else if k == i {
      NextParses(g, i);
      PlainParses(g, i + 1, i + 1);
    } else {
      var rest := Rest(g, i + 1, true);
      assert Rest(g, i, false) == "::" + (Hex(g[i]) + rest);
      GapRead(g, k, Hex(g[i]) + rest);
      var r := Reader(g[..k], 0, 0, k, Colon);
      ReadAppend(r, Hex(g[i]), rest);
      GroupRead(r, g[i]);
      assert g[..k] + g[i..i] == g[..k];
      GappedParses(g, k, i, i + 1);
    }
  }

  /** What is written from a group that is not behind left-out zeros. */
  lemma PieceIs(g: seq<group>, i: nat, used: bool)
    requires |g| == 8 && i < 8 && (g[i] != 0 || used) && !Resumes(g, i, used)
    ensures Rest(g, i, used) == (if i > 0 then ":" else "") + (Hex(g[i]) + Rest(g, i + 1, used))
  {
    var colon := if i > 0 then ":" else "";
    assert "" + colon == colon;
    assert Rest(g, i, used) == (colon + Hex(g[i])) + Rest(g, i + 1, used);
  }

  lemma NextParses(g: seq<group>, i: nat)
    requires |g| == 8 && i < 8 && g[i] != 0 && (i > 0 ==> g[i - 1] != 0)
    ensures Read(Plain(g, i), Rest(g, i, false)) == Read(Plain(g, i + 1), Rest(g, i + 1, false))
  {
    var rest := Rest(g, i + 1, false);
    PieceIs(g, i, false);
    if i == 0 {
      assert "" + (Hex(g[i]) + rest) == Hex(g[i]) + rest;
      ReadAppend(BEGIN, Hex(g[i]), rest);
      GroupRead(BEGIN, g[i]);
    } else {
      NextRead(Plain(g, i), g[i], rest);
      assert g[..i - 1] + [g[i - 1]] == g[..i];
    }
  }

  lemma LastParses(g: seq<group>, k: nat)
    requires |g| == 8 && k <= 8 && (forall x :: k <= x < 8 ==> g[x] == 0) && (k > 0 ==> g[k - 1] != 0)
    ensures Stands(Read(Plain(g, k), Rest(g, 8, false)), g, FirstZero(g, k))
  {
    if k < 8 {
      GapRead(g, k, "");
      assert "::" + "" == "::";
      assert g[..k][..k] + Zeros(8 - k) + g[..k][k..] == g;
    } else {
      assert g[..7] + [g[7]] == g;
    }
  }

  /** Every address is read back from its text, and what the double colon stands for begins with the first
      zero group. */
  lemma PrintParses(g: seq<group>)
    requires |g| == 8
    ensures Parse(Text(g)) == Some(g)
    ensures Read(BEGIN, Text(g)).Reader? && Read(BEGIN, Text(g)).gap == FirstZero(g, 0)
  {
    PrintIsText(g);
    PlainParses(g, 0, 0);
  }

  /** No two addresses have the same text. */
  lemma PrintIsInjective(g: seq<group>, h: seq<group>)
    requires |g| == 8 && |h| == 8 && Text(g) == Text(h)
    ensures g == h
  {
    PrintParses(g);
    PrintParses(h);
  }
}
