/** Typed values on the wire: fixed-width words, varints and length-prefixed strings, as bytes. */
module Codec {
  import opened Bits
  import opened Endian
  import Varint

  // How a string's length is written: in two, four or eight bytes, or as a varint.
  datatype Prefix = P16 | P32 | P64 | PVar

  // What one typed read asks for. `Fixed` covers the eight readF* integers and, on bit patterns,
  // readFloat and readDouble; `Var` covers readUint32, readInt32, readUint64 and readInt64.
  datatype Kind = Fixed(n: nat, signed: bool) | Var(w: nat, signed: bool) | Text(p: Prefix)

  datatype Item = Num(kind: Kind, v: int) | Str(p: Prefix, s: seq<byte>)

  function KindOf(item: Item): Kind {
    match item case Num(k, _) => k case Str(p, _) => Text(p)
  }

  predicate ValidKind(k: Kind) {
    match k
    case Fixed(n, _) => n in {1, 2, 4, 8}
    case Var(w, _) => w == 32 || w == 64
    case Text(_) => true
  }

  function Width(k: Kind): (w: nat)
    requires ValidKind(k) && !k.Text?
    ensures w >= 1
  {
    match k case Fixed(n, _) => 8 * n case Var(w, _) => w
  }

  // The C++ type of the value, for numbers; any string.
  predicate Typed(item: Item) {
    match item
    case Num(k, v) =>
      ValidKind(k) && !k.Text?
      && (if k.signed then Varint.FitsSigned(v, Width(k)) else 0 <= v < Pow2(Width(k)))
    case Str(_, s) => |s| < Pow2(64)
  }

  function LengthBits(p: Prefix): nat {
    match p case P16 => 16 case P32 => 32 case P64 => 64 case PVar => 64
  }

  // ---- Encoding ----

  function EncodeWord(u: nat, n: nat, order: Order, host: Order): seq<byte> {
    ToBytes(u, n, order, host)
  }

  // The length is cut to the prefix's width, as the conversion to uint16_t cuts it.
  function EncodeLength(len: nat, p: Prefix, order: Order, host: Order): seq<byte> {
    var u := len % Pow2(LengthBits(p));
    if p.PVar? then Varint.Encode(u) else EncodeWord(u, LengthBits(p) / 8, order, host)
  }

  function Encode(item: Item, order: Order, host: Order): seq<byte>
    requires Typed(item)
  {
    match item
    case Num(Fixed(n, _), v) => EncodeWord(Varint.ToUnsigned(v, 8 * n), n, order, host)
    case Num(Var(w, signed), v) => Varint.Encode(if signed then Varint.EncodeZigzag(v, w) else v)
    case Str(p, s) => EncodeLength(|s|, p, order, host) + s
  }

  function EncodeAll(items: seq<Item>, order: Order, host: Order): seq<byte>
    requires forall i | 0 <= i < |items| :: Typed(items[i])
  {
    if items == [] then []
    else Encode(items[0], order, host) + EncodeAll(items[1..], order, host)
  }

  // ---- Decoding ----

  datatype Decoded = Done(item: Item, used: nat) | Short(used: nat)

  datatype Length = Len(n: nat, used: nat) | NoLength(used: nat)

  function DecodeLength(p: Prefix, bytes: seq<byte>, order: Order, host: Order): (d: Length)
    ensures d.used <= |bytes|
  {
    if p.PVar? then
      match Varint.Decode(bytes, 64) case Value(v, used) => Len(v, used) case Short(used) => NoLength(used)
    else
      var n := LengthBits(p) / 8;
      if |bytes| < n then NoLength(0) else Len(FromBytes(bytes[..n], order, host), n)
  }

  function Decode(k: Kind, bytes: seq<byte>, order: Order, host: Order): (d: Decoded)
    requires ValidKind(k)
    ensures d.used <= |bytes|
  {
    match k
    case Fixed(n, signed) =>
      if |bytes| < n then Short(0)
      else
        var u := FromBytes(bytes[..n], order, host);
        Done(Num(k, if signed then Varint.ToSigned(u, 8 * n) else u), n)
    case Var(w, signed) =>
      (match Varint.Decode(bytes, w)
       case Value(v, used) => Done(Num(k, if signed then Varint.DecodeZigzag(v, w) else v), used)
       case Short(used) => Short(used))
    case Text(p) =>
      match DecodeLength(p, bytes, order, host)
      case NoLength(used) => Short(used)
      case Len(n, used) =>
        if |bytes| - used < n then Short(used) else Done(Str(p, bytes[used..used + n]), used + n)
  }

  // ---- Round trips ----

  lemma {:induction false} WordRoundTrip(u: nat, n: nat, rest: seq<byte>, order: Order, host: Order)
    requires u < Pow2(8 * n)
    ensures |EncodeWord(u, n, order, host)| == n
    ensures FromBytes((EncodeWord(u, n, order, host) + rest)[..n], order, host) == u
  {
    WireBytesAreHostIndependent(u, n, order, host);
    FixedRoundTrip(u, n, order, host);
    assert (EncodeWord(u, n, order, host) + rest)[..n] == EncodeWord(u, n, order, host);
  }

  lemma {:induction false} SignedRoundTrip(v: int, w: nat)
    requires w >= 1 && Varint.FitsSigned(v, w)
    ensures Varint.ToUnsigned(v, w) < Pow2(w)
    ensures Varint.ToSigned(Varint.ToUnsigned(v, w), w) == v
  {
    Varint.TwosComplement(v, w);
  }

  lemma {:induction false} SmallIsItself(v: nat, w: nat)
    requires v < Pow2(w)
    ensures v % Pow2(w) == v
  {
    DivModUnique(v, Pow2(w), 0, v);
  }

  lemma {:induction false} LengthRoundTrip(len: nat, p: Prefix, rest: seq<byte>, order: Order, host: Order)
    ensures var e := EncodeLength(len, p, order, host);
            |e| >= 1 && DecodeLength(p, e + rest, order, host) == Len(len % Pow2(LengthBits(p)), |e|)
  {
    hide Pow2, ToBytes, FromBytes, Varint.Encode, Varint.DecodeFrom;
    var u := len % Pow2(LengthBits(p));
    if p.PVar? {
      Varint.DecodeOfEncode(u, rest, 64);
    } else {
      WordRoundTrip(u, LengthBits(p) / 8, rest, order, host);
    }
  }

  lemma {:induction false} NumRoundTrip(item: Item, rest: seq<byte>, order: Order, host: Order)
    requires Typed(item) && item.Num?
    ensures |Encode(item, order, host)| >= 1
    ensures Decode(KindOf(item), Encode(item, order, host) + rest, order, host) == Done(item, |Encode(item, order, host)|)
  {
    hide Pow2, ToBytes, FromBytes, Varint.Encode, Varint.DecodeFrom, Varint.EncodeZigzag, Varint.DecodeZigzag;
    var w := Width(item.kind);
    match item.kind
    case Fixed(n, signed) =>
      if signed { SignedRoundTrip(item.v, w); } else { SmallIsItself(item.v, w); }
      WordRoundTrip(Varint.ToUnsigned(item.v, w), n, rest, order, host);
    case Var(_, signed) =>
      if signed {
        Varint.ZigzagValue(item.v, w);
        Varint.ZigzagBijection(item.v, 0, w);
        Varint.DecodeOfEncode(Varint.EncodeZigzag(item.v, w), rest, w);
      } else {
        Varint.DecodeOfEncode(item.v, rest, w);
      }
  }

  /** A string comes back whole exactly when its length fits its prefix. When it does not, the
      reader stops after `|s| mod 2^bits` bytes and leaves the rest of the string unread. */
  lemma {:induction false} TextRoundTrip(p: Prefix, s: seq<byte>, rest: seq<byte>, order: Order, host: Order)
    requires Typed(Str(p, s))
    ensures var e, n := Encode(Str(p, s), order, host), |s| % Pow2(LengthBits(p));
            && n <= |s|
            && Decode(Text(p), e + rest, order, host) == Done(Str(p, s[..n]), |e| - |s| + n)
            && (n == |s| <==> |s| < Pow2(LengthBits(p)))
  {
    hide Pow2, EncodeLength, DecodeLength;
    var l := EncodeLength(|s|, p, order, host);
    LengthRoundTrip(|s|, p, s + rest, order, host);
    assert Encode(Str(p, s), order, host) + rest == l + (s + rest);
    var n := |s| % Pow2(LengthBits(p));
    Varint.ModAtMost(|s|, Pow2(LengthBits(p)));
    assert (l + (s + rest))[|l|..|l| + n] == s[..n];
    if |s| < Pow2(LengthBits(p)) { SmallIsItself(|s|, LengthBits(p)); }
  }

  // Values that survive the wire: every typed number, every string whose length fits its prefix.
  predicate Storable(item: Item) {
    Typed(item) && (item.Str? ==> |item.s| < Pow2(LengthBits(item.p)))
  }

  /** Decoding what was encoded gives the item and uses exactly its bytes, whatever follows, for
      either wire order and either host. */
  lemma {:induction false} ItemRoundTrip(item: Item, rest: seq<byte>, order: Order, host: Order)
    requires Storable(item)
    ensures |Encode(item, order, host)| >= 1
    ensures Decode(KindOf(item), Encode(item, order, host) + rest, order, host) == Done(item, |Encode(item, order, host)|)
  {
    hide Encode, Decode, Pow2;
    if item.Num? {
      NumRoundTrip(item, rest, order, host);
    } else {
      TextRoundTrip(item.p, item.s, rest, order, host);
      assert item.s[..|item.s|] == item.s;
      EncodedTextIsNotEmpty(item.p, item.s, order, host);
    }
  }

  lemma {:induction false} EncodedTextIsNotEmpty(p: Prefix, s: seq<byte>, order: Order, host: Order)
    requires Typed(Str(p, s))
    ensures |Encode(Str(p, s), order, host)| >= 1
  {
    LengthRoundTrip(|s|, p, [], order, host);
  }

  /** A string of 65536 bytes with a two-byte length is read back empty. */
  lemma {:induction false} LongTextIsLost(s: seq<byte>, rest: seq<byte>, order: Order, host: Order)
    requires |s| == 65536
    ensures Typed(Str(P16, s))
    ensures var e := Encode(Str(P16, s), order, host);
            Decode(Text(P16), e + rest, order, host) == Done(Str(P16, []), |e| - |s|)
  {
    hide Pow2, Encode, Decode, Typed;
    SixteenBits();
    LongIsTyped(s);
    TextRoundTrip(P16, s, rest, order, host);
    assert s[..0] == [];
  }

  lemma {:induction false} SixteenBits()
    ensures Pow2(16) == 65536 && Pow2(17) == 131072
  {
    assert Pow2(8) == 256;
    Pow2Add(8, 8);
  }

  lemma {:induction false} LongIsTyped(s: seq<byte>)
    requires |s| == 65536
    ensures Typed(Str(P16, s))
  {
    SixteenBits();
    Pow2Mono(17, 64);
    hide Pow2;
  }
}
