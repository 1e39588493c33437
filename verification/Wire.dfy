/** What each typed value looks like on the wire, byte by byte and without reference to the host:
    the encodings are exactly these bytes. */
module Wire {
  import opened Bits
  import opened Endian
  import opened Codec
  import Varint

  // `n` bytes that spell `u`: byte k from the low end is the k-th digit of u in base 256.
  ghost predicate SpellsWord(bytes: seq<byte>, u: nat, n: nat, order: Order) {
    |bytes| == n && forall k | 0 <= k < n :: bytes[if order.Little? then k else n - 1 - k] == Digit(u, 8, k)
  }

  // Digit k of u in base 2^bits.
  function Digit(u: nat, bits: nat, k: nat): nat { u / Pow2(bits * k) % Pow2(bits) }

  // As few bytes as hold `u` seven bits at a time, lowest first, all but the last with the top bit set.
  ghost predicate SpellsVarint(bytes: seq<byte>, u: nat) {
    && |bytes| >= 1 && u < Pow2(7 * |bytes|) && (|bytes| > 1 ==> u >= Pow2(7 * |bytes| - 7))
    && forall k | 0 <= k < |bytes| :: bytes[k] == Digit(u, 7, k) + if k + 1 < |bytes| then 128 else 0
  }

  // A length in the first `n` bytes, cut to what they hold, and then the string.
  ghost predicate SpellsText(bytes: seq<byte>, n: nat, s: seq<byte>, order: Order) {
    |bytes| == n + |s| && SpellsWord(bytes[..n], |s| % Pow2(8 * n), n, order) && bytes[n..] == s
  }

  /** The wire format: two's complement words, zigzag varints, and strings after a length of two, four
      or eight bytes or a varint. */
  ghost predicate Spells(bytes: seq<byte>, item: Item, order: Order) {
    match item
    case Num(Fixed(n, _), v) => v + Pow2(8 * n) >= 0 && SpellsWord(bytes, if v >= 0 then v else v + Pow2(8 * n), n, order)
    case Num(Var(_, false), v) => v >= 0 && SpellsVarint(bytes, v)
    case Num(Var(_, true), v) => SpellsVarint(bytes, if v >= 0 then 2 * v else -2 * v - 1)
    case Num(Text(_), _) => false
    case Str(P16, s) => SpellsText(bytes, 2, s, order)
    case Str(P32, s) => SpellsText(bytes, 4, s, order)
    case Str(P64, s) => SpellsText(bytes, 8, s, order)
    case Str(PVar, s) => |bytes| > |s| && SpellsVarint(bytes[..|bytes| - |s|], |s|) && bytes[|bytes| - |s|..] == s
  }

  ghost predicate SpellsAll(bytes: seq<byte>, items: seq<Item>, order: Order)
    decreases |items|
  {
    if items == [] then bytes == []
    else exists n | 0 <= n <= |bytes| :: Spells(bytes[..n], items[0], order) && SpellsAll(bytes[n..], items[1..], order)
  }

  /** The values of each kind are those of its C++ type. */
  lemma Ranges(v: int)
    ensures Typed(Num(Fixed(1, false), v)) <==> 0 <= v <= 0xFF
    ensures Typed(Num(Fixed(1, true), v)) <==> -0x80 <= v <= 0x7F
    ensures Typed(Num(Fixed(2, false), v)) <==> 0 <= v <= 0xFFFF
    ensures Typed(Num(Fixed(2, true), v)) <==> -0x8000 <= v <= 0x7FFF
    ensures forall k | k in {Fixed(4, false), Var(32, false)} :: Typed(Num(k, v)) <==> 0 <= v <= 0xFFFF_FFFF
    ensures forall k | k in {Fixed(4, true), Var(32, true)} :: Typed(Num(k, v)) <==> -0x8000_0000 <= v <= 0x7FFF_FFFF
    ensures forall k | k in {Fixed(8, false), Var(64, false)} :: Typed(Num(k, v)) <==> 0 <= v <= 0xFFFF_FFFF_FFFF_FFFF
    ensures forall k | k in {Fixed(8, true), Var(64, true)} ::
              Typed(Num(k, v)) <==> -0x8000_0000_0000_0000 <= v <= 0x7FFF_FFFF_FFFF_FFFF
  {
    Powers();
    hide Pow2;
  }

  lemma Powers()
    ensures Pow2(7) == 0x80 && Pow2(8) == 0x100 && Pow2(15) == 0x8000 && Pow2(16) == 0x1_0000
    ensures Pow2(31) == 0x8000_0000 && Pow2(32) == 0x1_0000_0000
    ensures Pow2(63) == 0x8000_0000_0000_0000 && Pow2(64) == 0x1_0000_0000_0000_0000
  {
    assert Pow2(7) == 0x80 && Pow2(8) == 0x100;
    hide Pow2;
    Pow2Add(7, 8);
    Pow2Add(8, 8);
    Pow2Add(15, 16);
    Pow2Add(16, 16);
    Pow2Add(31, 32);
    Pow2Add(32, 32);
  }

  // ---- Digits ----

  lemma DivDiv(v: nat, a: nat, b: nat)
    requires a > 0 && b > 0
    ensures a * b > 0 && v / a / b == v / (a * b)
  {
    var q, r := v / a / b, v / a % b;
    assert v == v / a * a + v % a;
    assert v / a == q * b + r;
    assert v == q * (a * b) + (r * a + v % a) by { assert (q * b + r) * a == q * (a * b) + r * a; }
    MulMono(r + 1, b, a);
    assert (r + 1) * a == r * a + a && b * a == a * b;
    DivModUnique(v, a * b, q, r * a + v % a);
  }

  lemma NextDigit(u: nat, q: nat, bits: nat, k: nat)
    requires k > 0 && q == u / Pow2(bits)
    ensures Digit(q, bits, k - 1) == Digit(u, bits, k)
  {
    hide Pow2;
    DivDiv(u, Pow2(bits), Pow2(bits * (k - 1)));
    assert bits * k == bits + bits * (k - 1);
    Pow2Add(bits, bits * (k - 1));
  }

  lemma FirstDigit(u: nat, bits: nat)
    ensures Digit(u, bits, 0) == u % Pow2(bits)
  {
    assert bits * 0 == 0 && Pow2(0) == 1;
  }

  lemma {:induction false} LowFirstAt(v: nat, n: nat, k: nat)
    requires k < n
    ensures LowFirst(v, n)[k] == Digit(v, 8, k)
  {
    assert Pow2(8) == 256;
    if k == 0 {
      FirstDigit(v, 8);
    } else {
      LowFirstAt(v / 256, n - 1, k - 1);
      NextDigit(v, v / 256, 8, k);
    }
  }

  lemma {:induction false} ReverseAt(s: seq<byte>, k: nat)
    requires k < |s|
    ensures Reverse(s)[|s| - 1 - k] == s[k]
  {
    if k > 0 { ReverseAt(s[1..], k - 1); }
  }

  // A word as written by a host of either order.
  lemma WordSpells(u: nat, n: nat, order: Order, host: Order)
    ensures SpellsWord(EncodeWord(u, n, order, host), u, n, order)
  {
    hide Pow2, ToBytes, Digit;
    WireBytesAreHostIndependent(u, n, order, host);
    var low := LowFirst(u, n);
    forall k | 0 <= k < n ensures EncodeWord(u, n, order, host)[if order.Little? then k else n - 1 - k] == Digit(u, 8, k) {
      LowFirstAt(u, n, k);
      ReverseAt(low, k);
    }
  }

  lemma {:induction false} VarintAt(u: nat, k: nat)
    requires k < |Varint.Encode(u)|
    ensures Varint.Encode(u)[k] == Digit(u, 7, k) + if k + 1 < |Varint.Encode(u)| then 128 else 0
  {
    assert Pow2(7) == 128;
    if k == 0 {
      FirstDigit(u, 7);
    } else {
      VarintAt(u / 128, k - 1);
      NextDigit(u, u / 128, 7, k);
    }
  }

  lemma VarintSpells(u: nat)
    ensures SpellsVarint(Varint.Encode(u), u)
  {
    hide Pow2, Digit, Varint.Encode;
    var n := |Varint.Encode(u)|;
    Varint.EncodeLength(u, n);
    if n > 1 { Varint.EncodeLength(u, n - 1); }
    forall k | 0 <= k < n ensures Varint.Encode(u)[k] == Digit(u, 7, k) + if k + 1 < n then 128 else 0 { VarintAt(u, k); }
  }

  lemma TextSpells(len: seq<byte>, n: nat, s: seq<byte>, order: Order)
    requires SpellsWord(len, |s| % Pow2(8 * n), n, order)
    ensures SpellsText(len + s, n, s, order)
  {
    assert (len + s)[..n] == len && (len + s)[n..] == s;
  }

  /** Every encoding is the wire format's, whatever the host. */
  lemma EncodeSpells(item: Item, order: Order, host: Order)
    requires Typed(item)
    ensures Spells(Encode(item, order, host), item, order)
  {
    hide Pow2, SpellsWord, SpellsVarint, SpellsText, Varint.Encode, ToBytes;
    match item
    case Num(Fixed(n, signed), v) =>
      FixedWord(v, n, signed);
      WordSpells(Varint.ToUnsigned(v, 8 * n), n, order, host);
    case Num(Var(w, signed), v) =>
      if signed { Varint.ZigzagValue(v, w); }
      VarintSpells(if signed then Varint.EncodeZigzag(v, w) else v);
    case Str(p, s) =>
      var e := EncodeLength(|s|, p, order, host);
      if p.PVar? {
        SmallIsItself(|s|, 64);
        VarintSpells(|s|);
        assert (e + s)[..|e + s| - |s|] == e && (e + s)[|e + s| - |s|..] == s;
        VarintNotEmpty(e, |s|);
      } else {
        var n := if p.P16? then 2 else if p.P32? then 4 else 8;
        WordSpells(|s| % Pow2(8 * n), n, order, host);
        TextSpells(e, n, s, order);
      }
  }

  lemma VarintNotEmpty(bytes: seq<byte>, u: nat)
    requires SpellsVarint(bytes, u)
    ensures |bytes| > 0
  {
  }

  // Two's complement.
  lemma FixedWord(v: int, n: nat, signed: bool)
    requires Typed(Num(Fixed(n, signed), v))
    ensures v + Pow2(8 * n) >= 0 && Varint.ToUnsigned(v, 8 * n) == if v >= 0 then v else v + Pow2(8 * n)
  {
    hide Pow2;
    HalfRange(8 * n);
    Varint.TwosComplement(v, 8 * n);
  }

  lemma HalfRange(w: nat)
    requires w > 0
    ensures Pow2(w) == 2 * Pow2(w - 1)
  {
  }

  lemma {:induction false} EncodeAllSpells(items: seq<Item>, order: Order, host: Order)
    requires forall i | 0 <= i < |items| :: Typed(items[i])
    ensures SpellsAll(EncodeAll(items, order, host), items, order)
  {
    hide Encode, Spells, Typed;
    if items != [] {
      var e, rest := Encode(items[0], order, host), EncodeAll(items[1..], order, host);
      EncodeSpells(items[0], order, host);
      EncodeAllSpells(items[1..], order, host);
      assert (e + rest)[..|e|] == e && (e + rest)[|e|..] == rest;
    }
  }

  // ---- The format leaves no choice ----

  lemma WordIsUnique(a: seq<byte>, b: seq<byte>, u: nat, n: nat, order: Order)
    requires SpellsWord(a, u, n, order) && SpellsWord(b, u, n, order)
    ensures a == b
  {
    hide Digit;
    forall i | 0 <= i < n ensures a[i] == b[i] {
      var k := if order.Little? then i else n - 1 - i;
      assert a[if order.Little? then k else n - 1 - k] == Digit(u, 8, k);
      assert b[if order.Little? then k else n - 1 - k] == Digit(u, 8, k);
    }
  }

  lemma VarintIsUnique(a: seq<byte>, b: seq<byte>, u: nat)
    requires SpellsVarint(a, u) && SpellsVarint(b, u)
    ensures a == b
  {
    hide Digit, Pow2;
    assert |a| == |b| by {
      if |a| < |b| { Pow2Mono(7 * |a|, 7 * |b| - 7); assert false; }
      if |b| < |a| { Pow2Mono(7 * |b|, 7 * |a| - 7); assert false; }
    }
  }

  /** A value has one spelling only, so the bytes of a script are determined by its values and the
      chosen order. */
  lemma SpellingIsUnique(a: seq<byte>, b: seq<byte>, item: Item, order: Order)
    requires Spells(a, item, order) && Spells(b, item, order)
    ensures a == b
  {
    hide Pow2, SpellsWord, SpellsVarint;
    match item
    case Num(Fixed(n, _), v) => WordIsUnique(a, b, if v >= 0 then v else v + Pow2(8 * n), n, order);
    case Num(Var(_, signed), v) => VarintIsUnique(a, b, if !signed then v else if v >= 0 then 2 * v else -2 * v - 1);
    case Str(p, s) =>
      if p.PVar? {
        VarintIsUnique(a[..|a| - |s|], b[..|b| - |s|], |s|);
        assert a == a[..|a| - |s|] + s && b == b[..|b| - |s|] + s;
      } else {
        var n := if p.P16? then 2 else if p.P32? then 4 else 8;
        WordIsUnique(a[..n], b[..n], |s| % Pow2(8 * n), n, order);
        assert a == a[..n] + s && b == b[..n] + s;
      }
  }

  // ---- Reading ----

  // The bytes of a word are the word's.
  lemma WordIsSpelled(bytes: seq<byte>, order: Order, host: Order)
    ensures var u := FromBytes(bytes, order, host); u < Pow2(8 * |bytes|) && SpellsWord(bytes, u, |bytes|, order)
  {
    hide Pow2, ToBytes, SpellsWord;
    var u := FromBytes(bytes, order, host);
    DecodedWordIsHostIndependent(bytes, order, host);
    WordSpells(u, |bytes|, order, host);
    WireBytesAreHostIndependent(u, |bytes|, order, host);
    LowFirstOfFrom(bytes);
    LowFirstOfFrom(Reverse(bytes));
    ReverseReverse(bytes);
  }

  lemma SignedWord(u: nat, w: nat)
    requires w > 0 && u < Pow2(w)
    ensures var v := Varint.ToSigned(u, w);
            Varint.FitsSigned(v, w) && v + Pow2(w) >= 0 && u == if v >= 0 then v else v + Pow2(w)
  {
    HalfRange(w);
  }

  /** A fixed-width read takes exactly its width and yields the value of its type that those bytes
      spell, or wants more bytes. */
  lemma FixedReadsWhatIsSpelled(n: nat, signed: bool, bytes: seq<byte>, order: Order, host: Order)
    requires ValidKind(Fixed(n, signed))
    ensures var d := Decode(Fixed(n, signed), bytes, order, host);
            && (d.Short? <==> |bytes| < n)
            && (d.Done? ==> d.used == n && d.item.Num? && d.item.kind == Fixed(n, signed)
                            && Typed(d.item) && Spells(bytes[..n], d.item, order))
  {
    hide Pow2, FromBytes, SpellsWord;
    if |bytes| >= n {
      WordIsSpelled(bytes[..n], order, host);
      SignedWord(FromBytes(bytes[..n], order, host), 8 * n);
    }
  }

  // The number of bytes of a fixed-width length.
  function PrefixBytes(p: Prefix): nat
    requires !p.PVar?
  {
    match p case P16 => 2 case P32 => 4 case P64 => 8
  }

  /** A string read with a fixed-width length takes the length and then as many bytes, which together
      spell the string; it wants more when either is cut short. */
  lemma TextReadsWhatIsSpelled(p: Prefix, bytes: seq<byte>, order: Order, host: Order)
    requires !p.PVar?
    ensures var d, n := Decode(Text(p), bytes, order, host), PrefixBytes(p);
            && (d.Done? ==> d.item.Str? && d.item.p == p && d.used == n + |d.item.s| && Spells(bytes[..d.used], d.item, order))
            && (d.Short? <==> |bytes| < n || |bytes| - n < FromBytes(bytes[..n], order, host))
  {
    hide FromBytes, SpellsText;
    var n := PrefixBytes(p);
    if |bytes| >= n {
      var u := FromBytes(bytes[..n], order, host);
      WordIsSpelled(bytes[..n], order, host);
      hide Pow2;
      if |bytes| - n >= u { TextIsSpelled(bytes, n, u, order); }
    }
  }

  lemma TextIsSpelled(bytes: seq<byte>, n: nat, u: nat, order: Order)
    requires n + u <= |bytes| && u < Pow2(8 * n) && SpellsWord(bytes[..n], u, n, order)
    ensures SpellsText(bytes[..n + u], n, bytes[n..n + u], order)
  {
    hide Pow2, SpellsWord;
    SmallIsItself(u, 8 * n);
    assert bytes[..n + u][..n] == bytes[..n] && bytes[..n + u][n..] == bytes[n..n + u];
  }
}
