/** Prefix arithmetic of IPv4 and IPv6 addresses (section 3.1 of RFC 4632). */
module Prefix {
  import opened Bits

  // ---- IPv6: sixteen bytes, highest first ----

  type Address6 = s: seq<byte> | |s| == 16 witness seq(16, _ => 0)

  function Value(s: seq<byte>): nat {
    if s == [] then 0 else 256 * Value(s[..|s| - 1]) + s[|s| - 1]
  }

  // CreateMask for a word of `width` bits: ones in the host part.
  function Mask(width: nat, bits: nat): (r: nat)
    requires bits <= width
    ensures r < Pow2(width) && r == Pow2(width - bits) - 1
  {
    Pow2Mono(width - bits, width);
    Pow2(width - bits) - 1
  }

  function Flip8(m: byte): byte { 255 - m }

  // What the three byte loops leave, as values.
  function Network6(a: Address6, p: nat): Address6
    requires p < 128
  {
    var j := p / 8;
    a[..j] + [LowByte(And(a[j], Flip8(Mask8(p % 8))))] + seq(15 - j, _ => 0)
  }

  function Broadcast6(a: Address6, p: nat): Address6
    requires p < 128
  {
    var j := p / 8;
    a[..j] + [LowByte(Or(a[j], Mask8(p % 8)))] + seq(15 - j, _ => 255)
  }

  function SubnetMask6(p: nat): Address6
    requires p < 128
  {
    seq(p / 8, _ => 255) + [Flip8(Mask8(p % 8))] + seq(15 - p / 8, _ => 0)
  }

  function Mask8(bits: nat): byte
    requires bits < 8
  {
    assert Pow2(8) == 256;
    Mask(8, bits)
  }

  // Storing into a byte.
  function LowByte(x: nat): byte { x % 256 }

  method NetworkAddress6(a: Address6, p: nat) returns (b: Address6)
    requires p < 128
    ensures b == Network6(a, p)
  {
    var j := p / 8;
    b := a[j := LowByte(And(a[j], Flip8(Mask8(p % 8))))];
    var i := j + 1;
    while i < 16
      invariant j < i <= 16
      invariant b[..j + 1] == a[..j] + [LowByte(And(a[j], Flip8(Mask8(p % 8))))]
      invariant forall k | j < k < i :: b[k] == 0
    {
      b := b[i := 0];
      i := i + 1;
    }
    assert b == b[..j + 1] + seq(15 - j, _ => 0);
  }

  method BroadcastAddress6(a: Address6, p: nat) returns (b: Address6)
    requires p < 128
    ensures b == Broadcast6(a, p)
  {
    var j := p / 8;
    b := a[j := LowByte(Or(a[j], Mask8(p % 8)))];
    var i := j + 1;
    while i < 16
      invariant j < i <= 16
      invariant b[..j + 1] == a[..j] + [LowByte(Or(a[j], Mask8(p % 8)))]
      invariant forall k | j < k < i :: b[k] == 255
    {
      b := b[i := 255];
      i := i + 1;
    }
    assert b == b[..j + 1] + seq(15 - j, _ => 255);
  }

  method SubnetMaskAddress6(p: nat) returns (b: Address6)
    requires p < 128
    ensures b == SubnetMask6(p)
  {
    var j := p / 8;
    b := seq(16, _ => 0);
    b := b[j := Flip8(Mask8(p % 8))];
    var i := 0;
    while i < j
      invariant 0 <= i <= j
      invariant forall k | 0 <= k < i :: b[k] == 255
      invariant b[j] == Flip8(Mask8(p % 8)) && forall k | j < k < 16 :: b[k] == 0
    {
      b := b[i := 255];
      i := i + 1;
    }
  }

  // ---- What the byte loops mean ----

  lemma {:induction false} ValueSplit(s: seq<byte>, t: seq<byte>)
    ensures Value(s + t) == Value(s) * Pow2(8 * |t|) + Value(t)
  {
    if t == [] {
      assert s + t == s;
    } else {
      var u := t[..|t| - 1];
      ValueSplit(s, u);
      assert (s + t)[..|s + t| - 1] == s + u;
      Pow2Add(8, 8 * |u|);
      assert Pow2(8) == 256;
      Regroup(Value(s), Pow2(8 * |u|), Value(u));
    }
  }

  lemma Regroup(h: int, r: int, v: int)
    ensures 256 * (h * r + v) == h * (256 * r) + 256 * v
  {
  }

  lemma {:induction false} ValueBound(s: seq<byte>)
    ensures Value(s) < Pow2(8 * |s|)
  {
    if s != [] {
      ValueBound(s[..|s| - 1]);
      Pow2Add(8, 8 * |s| - 8);
      assert Pow2(8) == 256;
    }
  }

  lemma {:induction false} ValueOfZeros(n: nat)
    ensures Value(seq(n, _ => 0)) == 0
  {
    if n > 0 {
      assert seq(n, _ => 0 as byte)[..n - 1] == seq(n - 1, _ => 0 as byte);
      ValueOfZeros(n - 1);
    }
  }

  lemma {:induction false} ValueOfOnes(n: nat)
    ensures Value(seq(n, _ => 255)) == Pow2(8 * n) - 1
  {
    if n > 0 {
      assert seq(n, _ => 255 as byte)[..n - 1] == seq(n - 1, _ => 255 as byte);
      ValueOfOnes(n - 1);
      Pow2Add(8, 8 * n - 8);
      assert Pow2(8) == 256;
    }
  }

  lemma MaskByte(bits: nat)
    requires bits < 8
    ensures var m := Pow2(8 - bits);
            && 0 < m && 256 == Pow2(bits) * m
            && Flip8(Mask8(bits)) == 256 - m && Mask8(bits) == m - 1
  {
    hide Pow2, Mask;
    ByteIsPow2();
    Pow2Add(bits, 8 - bits);
  }

  // The byte the prefix ends in.
  lemma ByteParts(x: byte, bits: nat)
    requires bits < 8
    ensures var m := Pow2(8 - bits);
            && LowByte(And(x, Flip8(Mask8(bits)))) == x - x % m
            && LowByte(Or(x, Mask8(bits))) == x - x % m + m - 1
  {
    hide Pow2, And, Or, Mask, Mask8, Flip8;
    ByteIsPow2();
    MaskByte(bits);
    var m := Pow2(8 - bits);
    AndHighMask(x, 8 - bits, 8);
    OrLowMask(x, 8 - bits);
    Fits(x, m, Pow2(bits));
    Within256(x, m);
  }

  lemma Within256(x: byte, m: nat)
    requires 0 < m && x - x % m + m - 1 < 256
    ensures LowByte(x - x % m) == x - x % m && LowByte(x - x % m + m - 1) == x - x % m + m - 1
  {
  }

  lemma ByteIsPow2()
    ensures Pow2(8) == 256
  {
  }

  lemma Fits(x: nat, m: nat, c: nat)
    requires x < c * m && 0 < m
    ensures x - x % m + m - 1 < c * m
  {
    if x / m >= c {
      MulMono(c, x / m, m);
      assert false;
    }
    MulMono(x / m + 1, c, m);
    assert x - x % m == x / m * m;
    assert (x / m + 1) * m == x / m * m + m;
  }

  // The host part of h:x:s, where the prefix ends m below the top of x and r is the weight of x.
  lemma HostPart(h: nat, x: nat, s: nat, c: nat, m: nat, r: nat)
    requires 0 < m && 0 < r && s < r && 256 == c * m
    ensures 0 < m * r
    ensures ((256 * h + x) * r + s) / (m * r) * (m * r) == (256 * h + (x - x % m)) * r
  {
    var q, e := c * h + x / m, x % m * r + s;
    assert x == x / m * m + x % m;
    assert (c * h) * m == (c * m) * h;
    assert (c * h + x / m) * m == (c * h) * m + x / m * m;
    assert q * m == 256 * h + (x - x % m);
    Product(q, m, r);
    assert (256 * h + x) * r == (256 * h + (x - x % m)) * r + x % m * r;
    MulMono(x % m + 1, m, r);
    assert (x % m + 1) * r == x % m * r + r;
    DivModUnique((256 * h + x) * r + s, m * r, q, e);
  }

  lemma Product(q: nat, m: nat, r: nat)
    requires 0 < m && 0 < r
    ensures q * m * r == q * (m * r) && 0 < m * r
  {
  }

  // Three parts: the bytes before the one the prefix ends in, that one, and the rest.
  lemma ValueAround(pre: seq<byte>, x: byte, post: seq<byte>)
    ensures Value(pre + [x] + post) == (256 * Value(pre) + x) * Pow2(8 * |post|) + Value(post)
  {
    hide Value, Pow2;
    ValueSplit(pre + [x], post);
    ValueSnoc(pre, x);
  }

  lemma ValueSnoc(pre: seq<byte>, x: byte)
    ensures Value(pre + [x]) == 256 * Value(pre) + x
  {
    assert (pre + [x])[..|pre|] == pre;
  }

  /** For every address and every prefix length below 128 the byte loops compute the address
      rounded down to a multiple of 2^(128-p), that plus 2^(128-p) - 1, and the mask of p ones. */
  lemma PrefixArithmetic6(a: Address6, p: nat)
    requires p < 128
    ensures var k := Pow2(128 - p);
            && Value(Network6(a, p)) == Value(a) / k * k
            && Value(Broadcast6(a, p)) == Value(a) / k * k + (k - 1)
            && Value(SubnetMask6(p)) == Pow2(128) - k
  {
    hide Pow2, Value, Network6, Broadcast6, SubnetMask6, And, Or, Mask8;
    var j, bits := p / 8, p % 8;
    var n, m, r := 15 - j, Pow2(8 - bits), Pow2(8 * (15 - j));
    var pre, x, post := a[..j], a[j], a[j + 1..];
    assert Pow2(128 - p) == m * r by { Pow2Add(8 - bits, 8 * n); }
    MaskByte(bits);
    ValueBound(post);
    HostPart(Value(pre), x, Value(post), Pow2(bits), m, r);
    NetworkValue(a, p);
    BroadcastValue(a, p);
    MaskValue(p);
    Spread(256 * Value(pre) + (x - x % m), m, r);
  }

  lemma Spread(u: int, m: int, r: int)
    ensures (u + m - 1) * r + (r - 1) == u * r + (m * r - 1)
  {
    assert (u + m - 1) * r == u * r + m * r - r;
  }

  lemma NetworkValue(a: Address6, p: nat)
    requires p < 128
    ensures var j, bits := p / 8, p % 8;
            var m, r := Pow2(8 - bits), Pow2(8 * (15 - j));
            && Value(Network6(a, p)) == (256 * Value(a[..j]) + (a[j] - a[j] % m)) * r
            && Value(a) == (256 * Value(a[..j]) + a[j]) * r + Value(a[j + 1..])
  {
    hide Pow2, Value, And, Mask8;
    var j := p / 8;
    ByteParts(a[j], p % 8);
    ValueAround(a[..j], LowByte(And(a[j], Flip8(Mask8(p % 8)))), seq(15 - j, _ => 0));
    ValueOfZeros(15 - j);
    ValueAround(a[..j], a[j], a[j + 1..]);
    assert a == a[..j] + [a[j]] + a[j + 1..];
  }

  lemma BroadcastValue(a: Address6, p: nat)
    requires p < 128
    ensures var j, bits := p / 8, p % 8;
            var m, r := Pow2(8 - bits), Pow2(8 * (15 - j));
            Value(Broadcast6(a, p)) == (256 * Value(a[..j]) + (a[j] - a[j] % m + m - 1)) * r + (r - 1)
  {
    hide Pow2, Value, Or, Mask8;
    var j := p / 8;
    ByteParts(a[j], p % 8);
    ValueAround(a[..j], LowByte(Or(a[j], Mask8(p % 8))), seq(15 - j, _ => 255));
    ValueOfOnes(15 - j);
  }

  lemma MaskValue(p: nat)
    requires p < 128
    ensures Value(SubnetMask6(p)) == Pow2(128) - Pow2(128 - p)
  {
    hide Pow2, Value, Mask8;
    var j, bits := p / 8, p % 8;
    var r, m, h := Pow2(8 * (15 - j)), Pow2(8 - bits), Pow2(8 * j);
    MaskByte(bits);
    ValueAround(seq(j, _ => 255), Flip8(Mask8(bits)), seq(15 - j, _ => 0));
    ValueOfOnes(j);
    ValueOfZeros(15 - j);
    assert Pow2(128 - p) == m * r by { Pow2Add(8 - bits, 8 * (15 - j)); }
    assert Pow2(128) == h * 256 * r by {
      ByteIsPow2();
      Pow2Add(8 * j, 8);
      Pow2Add(8 * j + 8, 8 * (15 - j));
    }
    MaskSum(h, m, r);
  }

  lemma MaskSum(h: int, m: int, r: int)
    ensures (256 * (h - 1) + (256 - m)) * r == h * 256 * r - m * r
  {
    assert 256 * (h - 1) + (256 - m) == h * 256 - m;
  }

  /** The network address is the address AND the subnet mask, and the broadcast address the
      address OR its complement. */
  lemma NetworkIsMasked6(a: Address6, p: nat)
    requires p < 128
    ensures Value(SubnetMask6(p)) < Pow2(128)
    ensures Value(Network6(a, p)) == And(Value(a), Value(SubnetMask6(p)))
    ensures Value(Broadcast6(a, p)) == Or(Value(a), Pow2(128) - 1 - Value(SubnetMask6(p)))
  {
    hide Pow2, Value, Network6, Broadcast6, SubnetMask6, And, Or;
    PrefixArithmetic6(a, p);
    ValueBound(a);
    AndHighMask(Value(a), 128 - p, 128);
    OrLowMask(Value(a), 128 - p);
    var v, k := Value(a), Pow2(128 - p);
    assert v - v % k == v / k * k;
  }
}
