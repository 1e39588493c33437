/** The text form of IPv6 addresses: what the printing loop writes between the brackets, against a
    reader of the forms of section 2.2 of RFC 4291. */
module AddressText {
  import opened Bits
  import opened Endian
  import opened Options
  import opened Prefix

  // ---- Groups and their digits ----

  type Group = x: int | 0 <= x < 65536

  const DIGITS := "0123456789abcdef"

  function DigitChar(v: nat): char
    requires v < 16
  {
    DIGITS[v]
  }

  function Hex(v: nat): (s: string)
    ensures s != ""
  {
    if v < 16 then [DigitChar(v)] else Hex(v / 16) + [DigitChar(v % 16)]
  }

  // The value of a lower-case hexadecimal digit.
  function Digit(c: char): Option<nat> {
    if '0' <= c <= '9' then Some((c - '0') as nat)
    else if 'a' <= c <= 'f' then Some((c - 'a') as nat + 10)
    else None
  }

  function Number(s: string): Option<nat> {
    if s == "" then Some(0)
    else
      var high, low := Number(s[..|s| - 1]), Digit(s[|s| - 1]);
      if high.None? || low.None? then None else Some(16 * high.value + low.value)
  }

  lemma DigitOf(v: nat)
    requires v < 16
    ensures Digit(DigitChar(v)) == Some(v) && DigitChar(v) != ':'
  {
  }

  lemma {:induction false} NumberOfHex(v: nat)
    ensures Number(Hex(v)) == Some(v) && ':' !in Hex(v)
  {
    hide DigitChar, Digit;
    DigitOf(v % 16);
    if v < 16 {
      assert Hex(v)[..0] == "";
    } else {
      NumberOfHex(v / 16);
      assert Hex(v)[..|Hex(v)| - 1] == Hex(v / 16);
    }
  }

  lemma HexIsShort(v: Group)
    ensures |Hex(v)| <= 4
  {
    assert v / 16 / 16 / 16 < 16;
    assert |Hex(v / 16 / 16 / 16)| == 1;
    assert |Hex(v / 16 / 16)| <= 2;
    assert |Hex(v / 16)| <= 3;
  }

  // ---- Reading: section 2.2 of RFC 4291 ----

  // The text up to the first colon.
  function FieldLen(t: string): (n: nat)
    ensures n <= |t| && (forall i | 0 <= i < n :: t[i] != ':') && (n < |t| ==> t[n] == ':')
  {
    if t == "" || t[0] == ':' then 0 else 1 + FieldLen(t[1..])
  }

  // Groups of one to four digits separated by single colons.
  function ReadGroups(t: string): Option<seq<nat>>
    decreases |t|
  {
    var n := FieldLen(t);
    var v := if 1 <= n <= 4 then Number(t[..n]) else None;
    if v.None? then None
    else if n == |t| then Some([v.value])
    else
      var rest := ReadGroups(t[n + 1..]);
      if rest.None? then None else Some([v.value] + rest.value)
  }

  function ReadSome(t: string): Option<seq<nat>> { if t == "" then Some([]) else ReadGroups(t) }

  predicate PairAt(t: string, i: nat) { i + 1 < |t| && t[i] == ':' && t[i + 1] == ':' }

  // The first double colon, or the length if there is none.
  function PairIndex(t: string): (n: nat)
    ensures n <= |t| && (n < |t| ==> PairAt(t, n)) && forall i: nat | i < n :: !PairAt(t, i)
    ensures n == |t| ==> forall i: nat :: !PairAt(t, i)
  {
    if t == "" || PairAt(t, 0) then 0
    else
      assert forall i: nat | i > 0 :: PairAt(t, i) == PairAt(t[1..], i - 1);
      1 + PairIndex(t[1..])
  }

  // Eight groups, or fewer with one double colon that stands for one or more groups of zeros.
  function Read(t: string): Option<seq<nat>> {
    var i := PairIndex(t);
    if i == |t| then
      var gs := ReadSome(t);
      if gs.Some? && |gs.value| == 8 then gs else None
    else
      var left, right := ReadSome(t[..i]), ReadSome(t[i + 2..]);
      if left.None? || right.None? || |left.value| + |right.value| > 7 then None
      else Some(left.value + seq(8 - |left.value| - |right.value|, _ => 0) + right.value)
  }

  // ---- Printing ----

  function Join(gs: seq<Group>): string {
    if gs == [] then "" else if |gs| == 1 then Hex(gs[0]) else Hex(gs[0]) + ":" + Join(gs[1..])
  }

  // The index of the first zero group, and the end of the zeros from an index on.
  function FirstZero(gs: seq<Group>): (n: nat)
    ensures n <= |gs| && (n < |gs| ==> gs[n] == 0) && forall i | 0 <= i < n :: gs[i] != 0
  {
    if gs == [] || gs[0] == 0 then 0 else 1 + FirstZero(gs[1..])
  }

  function ZerosEnd(gs: seq<Group>, i: nat): (n: nat)
    requires i <= |gs|
    ensures i <= n <= |gs| && (n < |gs| ==> gs[n] != 0) && forall k | i <= k < n :: gs[k] == 0
    decreases |gs| - i
  {
    if i == |gs| || gs[i] != 0 then i else ZerosEnd(gs, i + 1)
  }

  // The first run of zeros, if any, is written as a double colon.
  function Text(gs: seq<Group>): string {
    var a := FirstZero(gs);
    if a == |gs| then Join(gs) else Join(gs[..a]) + "::" + Join(gs[ZerosEnd(gs, a)..])
  }

  // ---- Reading back what was printed ----

  // Text without a double colon, and without a colon at either end.
  ghost predicate Tight(t: string) {
    (t != "" ==> t[0] != ':' && t[|t| - 1] != ':') && forall i: nat :: !PairAt(t, i)
  }

  lemma {:induction false} JoinReads(gs: seq<Group>)
    ensures ReadSome(Join(gs)) == Some(gs) && Tight(Join(gs)) && (Join(gs) == "" <==> gs == [])
  {
    hide ReadGroups, Hex, Tight;
    if gs == [] {
      TightEmpty();
    } else if |gs| == 1 {
      ReadLast(gs[0]);
      assert gs == [gs[0]];
    } else {
      JoinReads(gs[1..]);
      ReadNext(gs[0], Join(gs[1..]));
      assert gs == [gs[0]] + gs[1..];
    }
  }

  lemma TightEmpty()
    ensures Tight("")
  {
  }

  lemma ReadLast(g: Group)
    ensures ReadGroups(Hex(g)) == Some([g]) && Tight(Hex(g))
  {
    hide Hex, Number, FieldLen;
    NumberOfHex(g);
    HexIsShort(g);
    var h := Hex(g);
    assert forall i | 0 <= i < |h| :: h[i] in h;
    FieldLenIs(h, |h|);
    assert h[..|h|] == h;
  }

  lemma ReadNext(g: Group, rest: string)
    requires rest != "" && Tight(rest) && ReadGroups(rest).Some?
    ensures ReadGroups(Hex(g) + ":" + rest) == Some([g] + ReadGroups(rest).value) && Tight(Hex(g) + ":" + rest)
  {
    hide Hex, Number, Tight, FieldLen;
    NumberOfHex(g);
    HexIsShort(g);
    var h, t := Hex(g), Hex(g) + ":" + rest;
    TightJoin(h, rest);
    assert forall i | 0 <= i < |h| :: h[i] in h && t[i] == h[i];
    FieldLenIs(t, |h|);
    assert t[..|h|] == h && t[|h| + 1..] == rest;
  }

  lemma FieldLenIs(t: string, n: nat)
    requires n <= |t| && (forall i | 0 <= i < n :: t[i] != ':') && (n < |t| ==> t[n] == ':')
    ensures FieldLen(t) == n
  {
  }

  lemma TightJoin(h: string, rest: string)
    requires h != "" && ':' !in h && rest != "" && Tight(rest)
    ensures Tight(h + ":" + rest)
  {
    var t := h + ":" + rest;
    forall i: nat ensures !PairAt(t, i) {
      if i > |h| { assert PairAt(t, i) == PairAt(rest, i - |h| - 1); }
      if i < |h| { assert t[i] == h[i]; }
    }
  }

  // Where the double colons are in two tight texts with a double colon between them.
  lemma OnePair(left: string, right: string, i: nat)
    requires Tight(left) && Tight(right)
    ensures PairAt(left + "::" + right, i) <==> i == |left|
  {
    var t := left + "::" + right;
    if i < |left| {
      assert t[i] == left[i];
      assert i + 1 < |left| ==> PairAt(t, i) == PairAt(left, i);
    } else if i >= |left| + 2 {
      assert PairAt(t, i) == PairAt(right, i - |left| - 2);
    }
  }

  /** For any eight groups the text has at most one double colon, and reads back as those groups. */
  lemma TextReadsBack(gs: seq<Group>)
    requires |gs| == 8
    ensures Read(Text(gs)) == Some(gs)
    ensures forall i: nat, j: nat | PairAt(Text(gs), i) && PairAt(Text(gs), j) :: i == j
  {
    hide Join, ReadGroups, FirstZero, ZerosEnd, PairAt;
    var a := FirstZero(gs);
    if a == 8 {
      JoinReads(gs);
    } else {
      var b := ZerosEnd(gs, a);
      var left, right := Join(gs[..a]), Join(gs[b..]);
      JoinReads(gs[..a]);
      JoinReads(gs[b..]);
      forall i: nat ensures PairAt(Text(gs), i) <==> i == |left| { OnePair(left, right, i); }
      var n := PairIndex(Text(gs));
      assert PairAt(Text(gs), |left|) && (n < |Text(gs)| ==> PairAt(Text(gs), n));
      assert Text(gs)[..|left|] == left && Text(gs)[|left| + 2..] == right;
      assert b > a;
      assert gs == gs[..a] + seq(b - a, _ => 0) + gs[b..];
    }
  }

  // ---- The printing loop ----

  // The i-th pair of bytes as the host reads it, and as it is printed.
  function Raw(a: Address6, i: nat, host: Order): nat
    requires i < 8
  {
    FromMemory(a[2 * i..2 * i + 2], host)
  }

  function GroupAt(a: Address6, i: nat, host: Order): nat
    requires i < 8
  {
    if host.Little? then ByteSwap(Raw(a, i, host), 2) else Raw(a, i, host)
  }

  // The groups of the address, which do not depend on the host.
  function Groups(a: Address6): (gs: seq<Group>)
    ensures |gs| == 8
  {
    seq(8, i requires 0 <= i < 8 => PairValue(a[2 * i], a[2 * i + 1]))
  }

  function PairValue(high: byte, low: byte): Group { 256 * (high as int) + low as int }

  /** Two bytes to a group, the high one first. */
  lemma GroupsAre(a: Address6, i: nat)
    requires i < 8
    ensures Groups(a)[i] == 256 * a[2 * i] as int + a[2 * i + 1] as int
  {
  }

  lemma GroupIsHostIndependent(a: Address6, i: nat, host: Order)
    requires i < 8
    ensures GroupAt(a, i, host) == Groups(a)[i]
    ensures Raw(a, i, host) == 0 <==> Groups(a)[i] == 0
  {
    var s := a[2 * i..2 * i + 2];
    DecodedWordIsHostIndependent(s, Big, host);
    var x, y := s[0], s[1];
    assert s == [x, y];
    TwoBytes(x, y);
  }

  lemma TwoBytes(x: byte, y: byte)
    ensures Reverse([x, y]) == [y, x]
    ensures FromLowFirst([x, y]) == x + 256 * y
    ensures FromLowFirst([y, x]) == y + 256 * x
  {
    assert [x, y][1..] == [y] && [y, x][1..] == [x];
    assert Reverse([y]) == [y];
    assert FromLowFirst([y]) == y && FromLowFirst([x]) == x;
  }

  lemma {:induction false} JoinSnoc(gs: seq<Group>, g: Group)
    ensures Join(gs + [g]) == if gs == [] then Hex(g) else Join(gs) + ":" + Hex(g)
  {
    hide Hex;
    if gs == [] {
      assert gs + [g] == [g];
    } else {
      assert (gs + [g])[1..] == gs[1..] + [g];
      JoinSnoc(gs[1..], g);
    }
  }

  method Insert(a: Address6, host: Order) returns (os: string)
    ensures os == Text(Groups(a))
  {
    hide Join, Hex, FirstZero, ZerosEnd, Groups, Raw, GroupAt;
    os := "";
    var used := false;
    ghost var gs := Groups(a);
    ghost var z := FirstZero(gs);
    ghost var e := ZerosEnd(gs, z);
    var i := 0;
    assert gs[..0] == [];
    EmptyJoin();
    while i < 8
      invariant 0 <= i <= 8
      invariant !used ==> i <= e && os == Join(gs[..if i < z then i else z])
      invariant used ==> z < e < i && os == Join(gs[..z]) + "::" + Join(gs[e..i])
    {
      GroupIsHostIndependent(a, i, host);
      if i > 0 { GroupIsHostIndependent(a, i - 1, host); }
      assert gs[..i] + [gs[i]] == gs[..i + 1];
      JoinSnoc(gs[..i], gs[i]);
      if used {
        assert gs[e..i] + [gs[i]] == gs[e..i + 1];
        JoinSnoc(gs[e..i], gs[i]);
      } else {
        assert gs[i..i + 1] == [] + [gs[i]];
        JoinSnoc([], gs[i]);
      }
      if !(Raw(a, i, host) == 0 && !used) {
        if i > 0 && Raw(a, i - 1, host) == 0 && !used {
          os := os + ":";
          used := true;
        }
        if i > 0 { os := os + ":"; }
        os := os + Hex(GroupAt(a, i, host));
      }
      i := i + 1;
    }
    GroupIsHostIndependent(a, 7, host);
    assert gs[e..8] == gs[e..] && gs[..8] == gs;
    if !used && Raw(a, 7, host) == 0 { os := os + "::"; }
  }

  lemma EmptyJoin()
    ensures Join([]) == ""
  {
  }

  // ---- What the text looks like ----

  /** Lower-case hexadecimal digits. */
  lemma DigitsAre(v: nat)
    requires v < 16
    ensures DigitChar(v) == if v < 10 then '0' + v as char else 'a' + (v - 10) as char
  {
  }

  predicate HexChar(c: char) { '0' <= c <= '9' || 'a' <= c <= 'f' }

  lemma {:induction false} HexLooks(v: nat)
    ensures forall i | 0 <= i < |Hex(v)| :: HexChar(Hex(v)[i])
    ensures v > 0 ==> Hex(v)[0] != '0'
    ensures v == 0 ==> Hex(v) == "0"
  {
    hide DigitChar;
    DigitsAre(v % 16);
    DigitsAre(0);
    if v >= 16 { HexLooks(v / 16); }
  }

  lemma {:induction false} JoinLooks(gs: seq<Group>)
    ensures forall i | 0 <= i < |Join(gs)| :: Join(gs)[i] == ':' || HexChar(Join(gs)[i])
  {
    hide Hex, HexChar;
    if gs != [] {
      HexLooks(gs[0]);
      if |gs| > 1 { JoinLooks(gs[1..]); }
    }
  }

  /** The text is made of colons and lower-case digits. */
  lemma TextLooks(gs: seq<Group>)
    ensures forall i | 0 <= i < |Text(gs)| :: Text(gs)[i] == ':' || HexChar(Text(gs)[i])
  {
    hide Join, HexChar, FirstZero, ZerosEnd;
    var a := FirstZero(gs);
    JoinLooks(gs);
    JoinLooks(gs[..a]);
    if a < |gs| { JoinLooks(gs[ZerosEnd(gs, a)..]); }
  }

  /** The whole first run of zero groups, from a to b, is what the double colon stands for. */
  lemma FirstRunIsCompressed(gs: seq<Group>, a: nat, b: nat)
    requires a < b <= |gs| && (forall i | 0 <= i < a :: gs[i] != 0) && (forall i | a <= i < b :: gs[i] == 0)
    requires b < |gs| ==> gs[b] != 0
    ensures Text(gs) == Join(gs[..a]) + "::" + Join(gs[b..])
  {
    var x := FirstZero(gs);
    assert gs[a] == 0;
    assert x == a;
    var e := ZerosEnd(gs, a);
    assert e == b;
  }

  /** There is a double colon exactly when some group is zero. */
  lemma CompressesExactly(gs: seq<Group>)
    requires |gs| == 8
    ensures (exists i: nat :: PairAt(Text(gs), i)) <==> exists k | 0 <= k < 8 :: gs[k] == 0
  {
    hide Join, PairAt, FirstZero, ZerosEnd;
    var a := FirstZero(gs);
    if a == 8 {
      JoinReads(gs);
    } else {
      assert gs[a] == 0;
      JoinReads(gs[..a]);
      JoinReads(gs[ZerosEnd(gs, a)..]);
      OnePair(Join(gs[..a]), Join(gs[ZerosEnd(gs, a)..]), |Join(gs[..a])|);
      assert PairAt(Text(gs), |Join(gs[..a])|);
    }
  }
}
