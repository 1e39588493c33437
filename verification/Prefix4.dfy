/** IPv4 prefix arithmetic: the address is kept as it lies in memory, highest byte first, and the
    masks are swapped into that order on little-endian hosts. */
module Prefix4 {
  import opened Bits
  import opened Endian
  import opened Options
  import opened Prefix

  // byteswapOnLittleEndian on a 32-bit word: between the word in memory and its value.
  function Swap(v: nat, host: Order): nat { if host.Little? then ByteSwap(v, 4) else v }

  // The complement of a 32-bit word.
  function Flip32(m: nat): nat
    requires m < Pow2(32)
  {
    Pow2(32) - 1 - m
  }

  // For p == 0 the code shifts a 32-bit one by 32, which C++ leaves undefined.
  function Broadcast4(word: nat, p: nat, host: Order): Option<nat>
    requires 1 <= p
  {
    if p > 32 then None else Some(Or(word, Swap(Mask(32, p), host)))
  }

  function Network4(word: nat, p: nat, host: Order): Option<nat>
    requires 1 <= p
  {
    if p > 32 then None else Some(And(word, Swap(Flip32(Mask(32, p)), host)))
  }

  function SubnetMask4(p: nat, host: Order): nat
    requires 1 <= p <= 32
  {
    Swap(Flip32(Mask(32, p)), host)
  }

  // ---- Bit operators work byte by byte ----

  function Op(or: bool, a: nat, b: nat): nat { if or then Or(a, b) else And(a, b) }

  function BitOp(or: bool, a: nat, b: nat): (r: nat)
    ensures r <= 1
  {
    if (a == 1 && b == 1) || (or && (a == 1 || b == 1)) then 1 else 0
  }

  lemma OpStep(or: bool, a: nat, b: nat)
    ensures Op(or, a, b) == BitOp(or, a % 2, b % 2) + 2 * Op(or, a / 2, b / 2)
  {
  }

  lemma {:induction false} OpBound(or: bool, a: nat, b: nat, k: nat)
    requires a < Pow2(k) && b < Pow2(k)
    ensures Op(or, a, b) < Pow2(k)
  {
    if k > 0 {
      OpStep(or, a, b);
      OpBound(or, a / 2, b / 2, k - 1);
    }
  }

  lemma OpZero(or: bool)
    ensures Op(or, 0, 0) == 0
  {
  }

  lemma Halves(a: nat, b: nat, k: nat)
    requires k > 0 && a < Pow2(k)
    ensures var u := a + Pow2(k) * b; u / 2 == a / 2 + Pow2(k - 1) * b && u % 2 == a % 2
    ensures a / 2 < Pow2(k - 1) && Pow2(k) * b == 2 * (Pow2(k - 1) * b)
  {
    var h := Pow2(k - 1);
    assert Pow2(k) == 2 * h;
    assert (2 * h) * b == 2 * (h * b);
  }

  lemma {:induction false} OpDigits(or: bool, a: nat, b: nat, c: nat, d: nat, k: nat)
    requires a < Pow2(k) && c < Pow2(k)
    ensures Op(or, a + Pow2(k) * b, c + Pow2(k) * d) == Op(or, a, c) + Pow2(k) * Op(or, b, d)
  {
    hide Op, BitOp;
    if k == 0 {
      OpZero(or);
    } else {
      Halves(a, b, k);
      Halves(c, d, k);
      Halves(0, Op(or, b, d), k);
      OpDigits(or, a / 2, b, c / 2, d, k - 1);
      OpStep(or, a + Pow2(k) * b, c + Pow2(k) * d);
      OpStep(or, a, c);
    }
  }

  function Zip(or: bool, s: seq<byte>, t: seq<byte>): (r: seq<byte>)
    requires |s| == |t|
    ensures |r| == |s|
  {
    if s == [] then [] else [LowByte(Op(or, s[0], t[0]))] + Zip(or, s[1..], t[1..])
  }

  lemma ByteOp(or: bool, a: byte, b: byte)
    ensures LowByte(Op(or, a, b)) == Op(or, a, b) < 256
  {
    ByteIsPow2();
    OpBound(or, a, b, 8);
  }

  lemma OpByte(or: bool, u: nat, w: nat)
    ensures Op(or, u, w) % 256 == LowByte(Op(or, u % 256, w % 256))
    ensures Op(or, u, w) / 256 == Op(or, u / 256, w / 256)
  {
    hide Op, Pow2;
    ByteIsPow2();
    OpDigits(or, u % 256, u / 256, w % 256, w / 256, 8);
    ByteOp(or, u % 256, w % 256);
  }

  lemma {:induction false} LowFirstOfOp(or: bool, u: nat, w: nat, n: nat)
    ensures LowFirst(Op(or, u, w), n) == Zip(or, LowFirst(u, n), LowFirst(w, n))
  {
    hide Op;
    if n > 0 {
      OpByte(or, u, w);
      LowFirstOfOp(or, u / 256, w / 256, n - 1);
      var s, t := LowFirst(u, n), LowFirst(w, n);
      assert s[1..] == LowFirst(u / 256, n - 1) && t[1..] == LowFirst(w / 256, n - 1);
    }
  }

  lemma {:induction false} FromOfZip(or: bool, s: seq<byte>, t: seq<byte>)
    requires |s| == |t|
    ensures FromLowFirst(Zip(or, s, t)) == Op(or, FromLowFirst(s), FromLowFirst(t))
  {
    if s == [] {
      assert Op(or, 0, 0) == 0;
    } else {
      hide Op, Pow2;
      FromOfZip(or, s[1..], t[1..]);
      ByteIsPow2();
      OpDigits(or, s[0], FromLowFirst(s[1..]), t[0], FromLowFirst(t[1..]), 8);
      ByteOp(or, s[0], t[0]);
      var z := Zip(or, s, t);
      assert z[0] == LowByte(Op(or, s[0], t[0])) && z[1..] == Zip(or, s[1..], t[1..]);
    }
  }

  lemma {:induction false} ZipConcat(or: bool, s: seq<byte>, t: seq<byte>, s': seq<byte>, t': seq<byte>)
    requires |s| == |t| && |s'| == |t'|
    ensures Zip(or, s + s', t + t') == Zip(or, s, t) + Zip(or, s', t')
  {
    hide Op;
    if s == [] {
      assert s + s' == s' && t + t' == t';
    } else {
      assert (s + s')[1..] == s[1..] + s' && (t + t')[1..] == t[1..] + t';
      ZipConcat(or, s[1..], t[1..], s', t');
    }
  }

  lemma {:induction false} ReverseOfZip(or: bool, s: seq<byte>, t: seq<byte>)
    requires |s| == |t|
    ensures Reverse(Zip(or, s, t)) == Zip(or, Reverse(s), Reverse(t))
  {
    hide Op;
    if s != [] {
      ReverseOfZip(or, s[1..], t[1..]);
      ZipConcat(or, Reverse(s[1..]), Reverse(t[1..]), [s[0]], [t[0]]);
      var z := Zip(or, s, t);
      assert z[1..] == Zip(or, s[1..], t[1..]) && z[0] == LowByte(Op(or, s[0], t[0]));
      assert Zip(or, [s[0]], [t[0]]) == [z[0]];
    }
  }

  lemma SwapOfOp(or: bool, u: nat, w: nat, host: Order)
    ensures Swap(Op(or, u, w), host) == Op(or, Swap(u, host), Swap(w, host))
  {
    hide Op, LowFirst, FromLowFirst, Reverse, Zip;
    LowFirstOfOp(or, u, w, 4);
    ReverseOfZip(or, LowFirst(u, 4), LowFirst(w, 4));
    FromOfZip(or, Reverse(LowFirst(u, 4)), Reverse(LowFirst(w, 4)));
  }

  lemma SwapSwap(v: nat, host: Order)
    requires v < Pow2(32)
    ensures Swap(Swap(v, host), host) == v && Swap(v, host) < Pow2(32)
  {
    hide LowFirst, FromLowFirst, Reverse, Pow2;
    var s := LowFirst(v, 4);
    LowFirstOfFrom(Reverse(s));
    ReverseReverse(s);
    FromOfLowFirst(v, 4);
    FromLowFirstBound(Reverse(s));
  }

  /** For every address and every prefix length from 1 to 32, on either host: the words computed,
      read as values, are the address rounded down to a multiple of 2^(32-p), that plus
      2^(32-p) - 1, and the mask of p ones; the network address is the address AND the mask. */
  lemma PrefixArithmetic4(word: nat, p: nat, host: Order)
    requires word < Pow2(32) && 1 <= p
    ensures Network4(word, p, host).None? <==> p > 32
    ensures Broadcast4(word, p, host).None? <==> p > 32
    ensures p <= 32 ==>
              var k, a := Pow2(32 - p), Swap(word, host);
              && Swap(Network4(word, p, host).value, host) == a / k * k
              && Swap(Broadcast4(word, p, host).value, host) == a / k * k + (k - 1)
              && Swap(SubnetMask4(p, host), host) == Pow2(32) - k
              && Network4(word, p, host).value == And(word, SubnetMask4(p, host))
  {
    hide Pow2, And, Or, Swap;
    if p <= 32 {
      var k, a, m := Pow2(32 - p), Swap(word, host), Mask(32, p);
      SwapSwap(word, host);
      SwapSwap(m, host);
      SwapSwap(Flip32(m), host);
      SwapOfOp(true, word, Swap(m, host), host);
      SwapOfOp(false, word, Swap(Flip32(m), host), host);
      OrLowMask(a, 32 - p);
      AndHighMask(a, 32 - p, 32);
      assert a - a % k == a / k * k;
    }
  }

  // ---- The same on the four bytes in memory ----

  // The value of four bytes in network order.
  function Value4(b: seq<byte>): nat
    requires |b| == 4
  {
    var b0: nat, b1: nat, b2: nat, b3: nat := b[0], b[1], b[2], b[3];
    16777216 * b0 + 65536 * b1 + 256 * b2 + b3
  }

  lemma HighFirst(b: seq<byte>)
    requires |b| == 4
    ensures |Reverse(b)| == 4 && FromLowFirst(Reverse(b)) == Value4(b)
  {
    var x, y, z := b[1..], b[2..], b[3..];
    assert x[1..] == y && y[1..] == z && z[1..] == [];
    assert Reverse(z) == [b[3]] && Reverse(y) == [b[3], b[2]] && Reverse(x) == [b[3], b[2], b[1]];
    var r := Reverse(b);
    assert r == [b[3], b[2], b[1], b[0]];
    var u, v, w := r[1..], r[2..], r[3..];
    assert u[1..] == v && v[1..] == w && w[1..] == [];
    assert FromLowFirst(w) == b[0];
    var b0: nat, b1: nat := b[0], b[1];
    assert FromLowFirst(v) == b1 + 256 * b0;
  }

  /** The word that a host has of an address and the bytes that it keeps of a word: the swap gives
      their value in network order, whatever the host. */
  lemma SwapIsNetworkOrder(b: seq<byte>, word: nat, host: Order)
    requires |b| == 4 && word < Pow2(32)
    ensures FromMemory(b, host) < Pow2(32) && Swap(FromMemory(b, host), host) == Value4(b)
    ensures |InMemory(word, 4, host)| == 4 && Value4(InMemory(word, 4, host)) == Swap(word, host)
  {
    hide Pow2, LowFirst, FromLowFirst, Reverse, Value4;
    HighFirst(b);
    ReverseReverse(b);
    LowFirstOfFrom(b);
    FromLowFirstBound(b);
    FromLowFirstBound(Reverse(b));
    var s := LowFirst(word, 4);
    HighFirst(InMemory(word, 4, host));
    ReverseReverse(s);
    FromOfLowFirst(word, 4);
  }

  /** From bytes in memory to bytes in memory, the same on every host: in network order the bytes of
      the network address spell the address rounded down to a multiple of 2^(32-p), those of the
      broadcast address 2^(32-p) - 1 more, and those of the mask 2^32 - 2^(32-p). */
  lemma PrefixInMemory(b: seq<byte>, p: nat, host: Order)
    requires |b| == 4 && 1 <= p <= 32
    ensures var w, k := FromMemory(b, host), Pow2(32 - p);
            var net, cast, mask := Network4(w, p, host), Broadcast4(w, p, host), SubnetMask4(p, host);
            && net.Some? && cast.Some?
            && |InMemory(net.value, 4, host)| == |InMemory(cast.value, 4, host)| == |InMemory(mask, 4, host)| == 4
            && Value4(InMemory(net.value, 4, host)) == Value4(b) / k * k
            && Value4(InMemory(cast.value, 4, host)) == Value4(b) / k * k + (k - 1)
            && Value4(InMemory(mask, 4, host)) == Pow2(32) - k
  {
    hide Pow2, And, Or, Swap, Mask, Value4, FromMemory, InMemory;
    var w := FromMemory(b, host);
    var m := Mask(32, p);
    SwapIsNetworkOrder(b, 0, host);
    PrefixArithmetic4(w, p, host);
    SwapSwap(m, host);
    SwapSwap(Flip32(m), host);
    OpBound(false, w, Swap(Flip32(m), host), 32);
    OpBound(true, w, Swap(m, host), 32);
    SwapIsNetworkOrder(b, Network4(w, p, host).value, host);
    SwapIsNetworkOrder(b, Broadcast4(w, p, host).value, host);
    SwapIsNetworkOrder(b, SubnetMask4(p, host), host);
  }
}
