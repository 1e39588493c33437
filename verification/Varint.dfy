/** Base-128 varints and the zigzag mapping for signed words. */
module Varint {
  import opened Bits

  // ---- Encoder ----

  // Seven bits a byte, lowest first; every byte but the last has its top bit set.
  function Encode(v: nat): (s: seq<byte>)
    ensures |s| >= 1
  {
    if v < 128 then [v] else [128 + v % 128] + Encode(v / 128)
  }

  lemma {:induction false} EncodeLength(v: nat, k: nat)
    requires k >= 1
    ensures |Encode(v)| <= k <==> v < Pow2(7 * k)
  {
    assert Pow2(7) == 128;
    if k == 1 {
    } else {
      Pow2Add(7, 7 * k - 7);
      if v < 128 {
        Pow2Mono(7, 7 * k);
      } else {
        EncodeLength(v / 128, k - 1);
        assert v < 128 * Pow2(7 * k - 7) <==> v / 128 < Pow2(7 * k - 7);
      }
    }
  }

  lemma {:induction false} ContinuationByte(v: nat)
    ensures Or(And(v, 0x7F), 0x80) == 128 + v % 128
  {
    LowSeven(v);
    assert Pow2(7) == 128;
    OrDisjoint(v % 128, 1, 7);
  }

  lemma {:induction false} EncodeStep(v: nat)
    requires v >= 128
    ensures Encode(v) == [128 + v % 128] + Encode(v / 128)
  {
  }

  lemma {:induction false} EncodeLast(v: nat)
    requires v < 128
    ensures Encode(v) == [v]
  {
  }

  // The loop of writeUint32 and writeUint64: a scratch array of five or ten bytes is enough.
  method EncodeLoop(value: nat, w: nat, room: nat) returns (s: seq<byte>)
    requires (w == 32 && room == 5) || (w == 64 && room == 10)
    requires value < Pow2(w)
    ensures s == Encode(value)
  {
    hide Pow2, And, Or, Encode;
    Pow2Mono(w, 7 * room);
    EncodeLength(value, room);
    var tmp := new byte[room];
    var v, i := value, 0;
    while v >= 0x80
      invariant 0 <= i && i + |Encode(v)| <= room
      invariant tmp[..i] + Encode(v) == Encode(value)
    {
      ContinuationByte(v);
      EncodeStep(v);
      ghost var done := tmp[..i];
      tmp[i] := Or(And(v, 0x7F), 0x80);
      assert tmp[..i + 1] == done + [128 + v % 128];
      assert done + [128 + v % 128] + Encode(v / 128) == done + ([128 + v % 128] + Encode(v / 128));
      v, i := v / 128, i + 1;
    }
    EncodeLast(v);
    ghost var done := tmp[..i];
    tmp[i] := v;
    s := tmp[..i + 1];
    assert s == done + [v];
  }

  // ---- Decoder ----

  datatype Decoded = Value(v: nat, used: nat) | Short(used: nat)

  // Left shift in a word of `w` bits.
  function ShiftLeft(v: nat, i: nat, w: nat): nat {
    v * Pow2(i) % Pow2(w)
  }

  // What readUint32 and readUint64 compute from shift `i` on, with `acc` gathered so far.
  function DecodeFrom(s: seq<byte>, i: nat, w: nat, acc: nat): (d: Decoded)
    ensures d.used <= |s|
    decreases |s|
  {
    if i >= w then Value(acc, 0)
    else if s == [] then Short(0)
    else
      var acc' := Or(acc, ShiftLeft(And(s[0], 0x7F), i, w));
      if s[0] < 0x80 then Value(acc', 1)
      else match DecodeFrom(s[1..], i + 7, w, acc')
        case Value(v, used) => Value(v, used + 1)
        case Short(used) => Short(used + 1)
  }

  function Decode(s: seq<byte>, w: nat): Decoded {
    DecodeFrom(s, 0, w, 0)
  }

  lemma {:induction false} LowSeven(b: nat)
    ensures And(b, 0x7F) == b % 128
  {
    AndLowMask(b, 7);
    assert Pow2(7) == 128;
  }

  lemma {:induction false} ShiftLeftExact(b: nat, i: nat, w: nat)
    requires b * Pow2(i) < Pow2(w)
    ensures ShiftLeft(b, i, w) == b * Pow2(i)
  {
    DivModUnique(b * Pow2(i), Pow2(w), 0, b * Pow2(i));
  }

  lemma {:induction false} ChunkBound(b: nat, i: nat, acc: nat)
    requires b < 128 && acc < Pow2(i)
    ensures acc + b * Pow2(i) < Pow2(i + 7)
  {
    Pow2Add(7, i);
    assert Pow2(7) == 128;
    MulMono(b, 127, Pow2(i));
  }

  lemma {:induction false} GatherStep(b: nat, i: nat, w: nat, acc: nat)
    requires b < 128 && acc < Pow2(i) && b * Pow2(i) < Pow2(w)
    ensures Or(acc, ShiftLeft(b, i, w)) == acc + b * Pow2(i) < Pow2(i + 7)
  {
    ShiftLeftExact(b, i, w);
    OrDisjoint(acc, b, i);
    ChunkBound(b, i, acc);
  }

  // The seven low bits of `v` stay inside the word once shifted to `i`.
  lemma {:induction false} LowChunkFits(v: nat, i: nat, w: nat)
    requires i < w && v < Pow2(w - i)
    ensures v % 128 * Pow2(i) < Pow2(w)
  {
    Pow2Add(w - i, i);
    MulMono(v % 128 + 1, Pow2(w - i), Pow2(i));
    assert (v % 128 + 1) * Pow2(i) == v % 128 * Pow2(i) + Pow2(i);
  }

  lemma {:induction false} HighPartFits(v: nat, i: nat, w: nat)
    requires i < w && 128 <= v < Pow2(w - i)
    ensures i + 7 < w && v / 128 < Pow2(w - i - 7)
  {
    assert Pow2(7) == 128;
    if w - i <= 7 { Pow2Mono(w - i, 7); assert false; }
    Pow2Add(7, w - i - 7);
  }

  lemma {:induction false} Recombine(v: nat, i: nat)
    ensures v % 128 * Pow2(i) + v / 128 * Pow2(i + 7) == v * Pow2(i)
  {
    Pow2Add(7, i);
    assert Pow2(7) == 128;
    var p := Pow2(i);
    assert v % 128 * p + v / 128 * (128 * p) == (v % 128 + v / 128 * 128) * p;
  }

  function OneMore(d: Decoded): Decoded {
    if d.Value? then Value(d.v, d.used + 1) else Short(d.used + 1)
  }

  // One turn of the decoding loop, when the chunk read lands inside the word.
  lemma {:induction false} DecodeTurn(s: seq<byte>, i: nat, w: nat, acc: nat)
    requires i < w && s != [] && acc < Pow2(i) && s[0] % 128 * Pow2(i) < Pow2(w)
    ensures acc + s[0] % 128 * Pow2(i) < Pow2(i + 7)
    ensures DecodeFrom(s, i, w, acc)
         == if s[0] < 128 then Value(acc + s[0] % 128 * Pow2(i), 1)
            else OneMore(DecodeFrom(s[1..], i + 7, w, acc + s[0] % 128 * Pow2(i)))
  {
    LowSeven(s[0]);
    GatherStep(s[0] % 128, i, w, acc);
  }

  lemma {:induction false} DecodeOfEncodeFrom(v: nat, rest: seq<byte>, i: nat, w: nat, acc: nat)
    requires i < w && v < Pow2(w - i) && acc < Pow2(i)
    ensures DecodeFrom(Encode(v) + rest, i, w, acc) == Value(acc + v * Pow2(i), |Encode(v)|)
    decreases v
  {
    hide Or;
    hide And;
    hide ShiftLeft;
    hide Pow2;
    var s := Encode(v) + rest;
    LowChunkFits(v, i, w);
    assert s[0] % 128 == v % 128;
    DecodeTurn(s, i, w, acc);
    if v >= 128 {
      HighPartFits(v, i, w);
      assert s[1..] == Encode(v / 128) + rest;
      DecodeOfEncodeFrom(v / 128, rest, i + 7, w, acc + v % 128 * Pow2(i));
      Recombine(v, i);
    }
  }

  /** Decoding consumes exactly the encoder's bytes, whatever follows them, and returns the value. */
  lemma {:induction false} DecodeOfEncode(v: nat, rest: seq<byte>, w: nat)
    requires 0 < w && v < Pow2(w)
    ensures Decode(Encode(v) + rest, w) == Value(v, |Encode(v)|)
  {
    DecodeOfEncodeFrom(v, rest, 0, w, 0);
  }

  // Shifting by `i` drops the bits that leave the word and keeps the others.
  lemma {:induction false} ShiftLeftKeeps(b: nat, i: nat, w: nat)
    requires i < w
    ensures ShiftLeft(b, i, w) == b % Pow2(w - i) * Pow2(i)
  {
    Pow2Add(w - i, i);
    ModScale(b, Pow2(w - i), Pow2(i));
  }

  lemma ModScale(b: nat, m: nat, p: nat)
    requires m > 0 && p > 0
    ensures m * p > 0 && b * p % (m * p) == b % m * p
  {
    var q, c := b / m, b % m;
    assert b * p == q * (m * p) + c * p by { assert b == q * m + c; }
    assert 0 <= c * p < m * p by { MulMono(c + 1, m, p); }
    DivModUnique(b * p, m * p, q, c * p);
  }

  lemma {:induction false} ChunkFits(b: nat, i: nat, w: nat, acc: nat)
    requires b < 128 && acc < Pow2(i) && i < w
    ensures Or(acc, ShiftLeft(b, i, w)) < Pow2(i + 7)
  {
    var c := b % Pow2(w - i);
    ShiftLeftKeeps(b, i, w);
    OrDisjoint(acc, c, i);
    ModAtMost(b, Pow2(w - i));
    ChunkBound(c, i, acc);
  }

  lemma ModAtMost(b: nat, m: nat)
    requires m > 0
    ensures b % m <= b
  {
    assert b == b / m * m + b % m;
  }

  // A decoded value fits in the bits that its bytes carry.
  lemma {:induction false} DecodedFits(s: seq<byte>, i: nat, w: nat, acc: nat)
    requires acc < Pow2(i) && DecodeFrom(s, i, w, acc).Value?
    ensures DecodeFrom(s, i, w, acc).v < Pow2(i + 7 * DecodeFrom(s, i, w, acc).used)
    decreases |s|
  {
    hide And, Or, Pow2, ShiftLeft;
    if i < w {
      LowSeven(s[0]);
      ChunkFits(And(s[0], 0x7F), i, w, acc);
      if s[0] >= 0x80 {
        DecodedFits(s[1..], i + 7, w, Or(acc, ShiftLeft(And(s[0], 0x7F), i, w)));
      }
    }
  }

  // The number that groups of seven bits spell, lowest first.
  function Groups(s: seq<byte>): nat {
    if s == [] then 0 else s[0] % 128 + 128 * Groups(s[1..])
  }

  lemma ModSame(x: nat, y: nat, z: nat, m: nat)
    requires m > 0 && x % m == y % m
    ensures (x + z) % m == (y + z) % m
  {
    var q := x / m - y / m;
    assert x + z == q * m + (y + z) by { assert x / m * m == q * m + y / m * m; }
    var r := (y + z) / m;
    assert x + z == (q + r) * m + (y + z) % m by { assert (q + r) * m == q * m + r * m; }
    DivModUnique(x + z, m, q + r, (y + z) % m);
  }

  // One more group gathered, modulo the word.
  lemma {:induction false} GatherMod(b: nat, i: nat, w: nat, acc: nat)
    requires b < 128 && acc < Pow2(i) && i < w
    ensures Or(acc, ShiftLeft(b, i, w)) == (acc + b * Pow2(i)) % Pow2(w)
    ensures Or(acc, ShiftLeft(b, i, w)) < Pow2(i + 7)
  {
    hide Or, ShiftLeft, Pow2;
    ChunkFits(b, i, w, acc);
    ShiftLeftKeeps(b, i, w);
    OrDisjoint(acc, b % Pow2(w - i), i);
    Pow2Add(w - i, i);
    var m, p := Pow2(w - i), Pow2(i);
    var q, c := b / m, b % m;
    assert b * p == q * (m * p) + c * p by { assert b == q * m + c; }
    assert c * p + acc < m * p by { MulMono(c + 1, m, p); assert (c + 1) * p == c * p + p; }
    DivModUnique(acc + b * p, m * p, q, acc + c * p);
  }

  lemma Regrouped(acc: nat, b: nat, p: nat, g: nat)
    ensures acc + b * p + 128 * p * g == acc + p * (b + 128 * g)
  {
    assert p * (b + 128 * g) == b * p + 128 * p * g;
  }

  lemma GatherRest(acc: nat, acc': nat, b: nat, i: nat, g: nat, m: nat)
    requires m > 0 && acc' == (acc + b * Pow2(i)) % m
    ensures (acc' + Pow2(i + 7) * g) % m == (acc + Pow2(i) * (b + 128 * g)) % m
  {
    hide Pow2;
    SevenMore(i);
    ModMod(acc + b * Pow2(i), m);
    ModSame(acc', acc + b * Pow2(i), 128 * Pow2(i) * g, m);
    Regrouped(acc, b, Pow2(i), g);
  }

  lemma {:induction false} DecodeFromMeans(s: seq<byte>, i: nat, w: nat, acc: nat)
    requires acc < Pow2(w) && (i < w ==> acc < Pow2(i))
    ensures var d := DecodeFrom(s, i, w, acc);
            && (forall k | 0 <= k < d.used - 1 :: s[k] >= 128)
            && (d.Value? ==> d.v == (acc + Pow2(i) * Groups(s[..d.used])) % Pow2(w))
            && (d.Value? && d.used > 0 ==> i + 7 * d.used - 7 < w)
            && (d.Value? ==> i + 7 * d.used >= w || (d.used > 0 && s[d.used - 1] < 128))
            && (d.Short? ==> d.used == |s| && i + 7 * |s| < w && forall k | 0 <= k < |s| :: s[k] >= 128)
    decreases |s|
  {
    hide Or, And, ShiftLeft, Pow2;
    if i >= w {
      assert s[..0] == [];
      DivModUnique(acc, Pow2(w), 0, acc);
    } else if s != [] {
      LowSeven(s[0]);
      var b := s[0] % 128;
      GatherMod(b, i, w, acc);
      var acc' := Or(acc, ShiftLeft(b, i, w));
      if s[0] < 128 {
        assert s[..1] == [s[0]] && [s[0]][1..] == [];
        assert Groups([s[0]]) == b;
      } else {
        DecodeFromMeans(s[1..], i + 7, w, acc');
        var d := DecodeFrom(s[1..], i + 7, w, acc');
        assert forall k | 0 < k < |s| :: s[k] == s[1..][k - 1];
        if d.Value? {
          assert s[..d.used + 1][1..] == s[1..][..d.used];
          GatherRest(acc, acc', b, i, Groups(s[1..][..d.used]), Pow2(w));
        }
      }
    }
  }

  lemma SevenMore(i: nat)
    ensures Pow2(i + 7) == 128 * Pow2(i)
  {
    assert Pow2(7) == 128;
    Pow2Add(7, i);
  }

  lemma ModMod(x: nat, m: nat)
    requires m > 0
    ensures x % m % m == x % m
  {
    DivModUnique(x % m, m, 0, x % m);
  }

  /** What the decoder makes of any bytes, canonical or not: it stops after the first byte with its top
      bit clear or when the word is full, and the value is what the groups spell, cut to the word; it
      wants more bytes exactly when all of them continue and do not fill the word. */
  lemma {:induction false} DecodeMeans(s: seq<byte>, w: nat)
    requires 0 < w
    ensures var d := Decode(s, w);
            && (forall k | 0 <= k < d.used - 1 :: s[k] >= 128)
            && (d.Value? ==> d.v == Groups(s[..d.used]) % Pow2(w) && 0 < d.used && 7 * d.used - 7 < w)
            && (d.Value? ==> 7 * d.used >= w || s[d.used - 1] < 128)
            && (d.Short? <==> 7 * |s| < w && forall k | 0 <= k < |s| :: s[k] >= 128)
            && (d.Short? ==> d.used == |s|)
  {
    Unit();
    hide Pow2, DecodeFrom;
    DecodeFromMeans(s, 0, w, 0);
  }

  lemma Unit()
    ensures Pow2(0) == 1
  {
  }

  /** The encoder is minimal: no byte string that decodes to `v` is shorter. */
  lemma {:induction false} EncodeIsMinimal(s: seq<byte>, w: nat)
    requires 0 < w && Decode(s, w).Value?
    ensures |Encode(Decode(s, w).v)| <= Decode(s, w).used
  {
    DecodedFits(s, 0, w, 0);
    EncodeLength(Decode(s, w).v, Decode(s, w).used);
  }

  /** Every 32-bit value takes at most five bytes and every 64-bit value at most ten. */
  lemma {:induction false} EncodeFitsScratch(v: nat)
    ensures v < Pow2(32) ==> |Encode(v)| <= 5
    ensures v < Pow2(64) ==> |Encode(v)| <= 10
  {
    Pow2Mono(32, 35);
    Pow2Mono(64, 70);
    EncodeLength(v, 5);
    EncodeLength(v, 10);
  }

  // ---- Zigzag ----

  predicate FitsSigned(v: int, w: nat)
    requires w >= 1
  {
    -Pow2(w - 1) <= v < Pow2(w - 1)
  }

  // Two's complement, both ways.
  function ToUnsigned(v: int, w: nat): nat { v % Pow2(w) }

  function ToSigned(u: nat, w: nat): int
    requires w >= 1
  {
    if u < Pow2(w - 1) then u else u - Pow2(w)
  }

  // (v << 1) ^ (v >> (w - 1)), the second shift keeping the sign.
  function EncodeZigzag(v: int, w: nat): nat
    requires w >= 1
  {
    Xor(ToUnsigned(2 * v, w), ToUnsigned(v / Pow2(w - 1), w))
  }

  // (v >> 1) ^ -(v & 1), read back as a signed word.
  function DecodeZigzag(u: nat, w: nat): int
    requires w >= 1
  {
    ToSigned(Xor(u / 2, ToUnsigned(0 - And(u, 1), w)), w)
  }

  lemma {:induction false} TwosComplement(v: int, w: nat)
    requires -Pow2(w) <= v < Pow2(w)
    ensures ToUnsigned(v, w) == if v >= 0 then v else v + Pow2(w)
  {
    DivModUnique(v, Pow2(w), if v >= 0 then 0 else -1, if v >= 0 then v else v + Pow2(w));
  }

  lemma {:induction false} ZigzagValue(v: int, w: nat)
    requires w >= 1 && FitsSigned(v, w)
    ensures EncodeZigzag(v, w) == (if v >= 0 then 2 * v else -2 * v - 1) < Pow2(w)
  {
    var h := Pow2(w - 1);
    TwosComplement(2 * v, w);
    DivModUnique(v, h, if v >= 0 then 0 else -1, if v >= 0 then v else v + h);
    TwosComplement(v / h, w);
    if v < 0 { XorOnes(2 * v + 2 * h, w); }
  }

  lemma {:induction false} UnzigzagValue(u: nat, w: nat)
    requires w >= 1 && u < Pow2(w)
    ensures DecodeZigzag(u, w) == if u % 2 == 0 then u / 2 else -(u / 2) - 1
    ensures FitsSigned(DecodeZigzag(u, w), w)
  {
    AndLowMask(u, 1);
    assert Pow2(1) == 2;
    TwosComplement(0 - u % 2, w);
    if u % 2 == 1 { XorOnes(u / 2, w); }
  }

  /** Zigzag is a bijection between signed and unsigned words. */
  lemma {:induction false} ZigzagBijection(v: int, u: nat, w: nat)
    requires w >= 1 && FitsSigned(v, w) && u < Pow2(w)
    ensures DecodeZigzag(EncodeZigzag(v, w), w) == v
    ensures EncodeZigzag(DecodeZigzag(u, w), w) == u
  {
    ZigzagValue(v, w);
    UnzigzagValue(EncodeZigzag(v, w), w);
    UnzigzagValue(u, w);
    ZigzagValue(DecodeZigzag(u, w), w);
  }

  /** A signed value takes at most `k` bytes exactly when it fits in 7k bits with its sign. */
  lemma {:induction false} SignedLength(v: int, w: nat, k: nat)
    requires w >= 1 && FitsSigned(v, w) && k >= 1
    ensures |Encode(EncodeZigzag(v, w))| <= k <==> -Pow2(7 * k - 1) <= v < Pow2(7 * k - 1)
  {
    ZigzagValue(v, w);
    EncodeLength(EncodeZigzag(v, w), k);
  }
}
