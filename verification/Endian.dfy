/** Byte order: how an unsigned word of `n` bytes lies in memory, and the byte swap that turns
    one order into the other. */
module Endian {
  import opened Bits

  datatype Order = Little | Big

  // The bytes of a word, lowest first.
  function LowFirst(v: nat, n: nat): (s: seq<byte>)
    ensures |s| == n
  {
    if n == 0 then [] else [v % 256] + LowFirst(v / 256, n - 1)
  }

  function Reverse(s: seq<byte>): (r: seq<byte>)
    ensures |r| == |s|
  {
    if s == [] then [] else Reverse(s[1..]) + [s[0]]
  }

  function FromLowFirst(s: seq<byte>): nat {
    if s == [] then 0 else s[0] + 256 * FromLowFirst(s[1..])
  }

  // What `write(&value, sizeof(value))` copies on a host of the given order.
  function InMemory(v: nat, n: nat, host: Order): seq<byte> {
    if host.Little? then LowFirst(v, n) else Reverse(LowFirst(v, n))
  }

  // What `read(&v, sizeof(v))` leaves in `v` on a host of the given order.
  function FromMemory(s: seq<byte>, host: Order): nat {
    FromLowFirst(if host.Little? then s else Reverse(s))
  }

  // bswap_16, bswap_32 and bswap_64: the same bytes, highest first.
  function ByteSwap(v: nat, n: nat): nat {
    FromLowFirst(Reverse(LowFirst(v, n)))
  }

  function ToBytes(v: nat, n: nat, order: Order, host: Order): (s: seq<byte>)
  {
    InMemory(if order != host then ByteSwap(v, n) else v, n, host)
  }

  function FromBytes(s: seq<byte>, order: Order, host: Order): nat {
    var v := FromMemory(s, host);
    if order == host then v else ByteSwap(v, |s|)
  }

  lemma FromLowFirstBound(s: seq<byte>)
    ensures FromLowFirst(s) < Pow2(8 * |s|)
  {
    if s != [] {
      FromLowFirstBound(s[1..]);
      Pow2Add(8, 8 * |s| - 8);
      assert Pow2(8) == 256;
    }
  }

  lemma {:induction false} LowFirstOfFrom(s: seq<byte>)
    ensures LowFirst(FromLowFirst(s), |s|) == s
  {
    if s != [] {
      var v := FromLowFirst(s);
      DivModUnique(v, 256, FromLowFirst(s[1..]), s[0]);
      LowFirstOfFrom(s[1..]);
      assert s == [s[0]] + s[1..];
    }
  }

  lemma {:induction false} FromOfLowFirst(v: nat, n: nat)
    requires v < Pow2(8 * n)
    ensures FromLowFirst(LowFirst(v, n)) == v
  {
    if n > 0 {
      Pow2Add(8, 8 * n - 8);
      assert Pow2(8) == 256;
      FromOfLowFirst(v / 256, n - 1);
    }
  }

  lemma ReverseConcat(s: seq<byte>, t: seq<byte>)
    ensures Reverse(s + t) == Reverse(t) + Reverse(s)
  {
    if s == [] {
      assert s + t == t;
    } else {
      assert (s + t)[1..] == s[1..] + t;
    }
  }

  lemma {:induction false} ReverseReverse(s: seq<byte>)
    ensures Reverse(Reverse(s)) == s
  {
    if s != [] {
      ReverseConcat(Reverse(s[1..]), [s[0]]);
      ReverseReverse(s[1..]);
      assert s == [s[0]] + s[1..];
    }
  }

  /** The wire bytes depend only on the chosen order: whatever the host, they are the bytes of
      the value lowest first or highest first. */
  lemma WireBytesAreHostIndependent(v: nat, n: nat, order: Order, host: Order)
    ensures |ToBytes(v, n, order, host)| == n
    ensures ToBytes(v, n, order, host) == (if order.Little? then LowFirst(v, n) else Reverse(LowFirst(v, n)))
  {
    var r := Reverse(LowFirst(v, n));
    LowFirstOfFrom(r);
    ReverseReverse(LowFirst(v, n));
  }

  /** Reading back what was written gives the value, for every mix of orders. */
  lemma FixedRoundTrip(v: nat, n: nat, order: Order, host: Order)
    requires v < Pow2(8 * n)
    ensures FromBytes(ToBytes(v, n, order, host), order, host) == v
  {
    var s := LowFirst(v, n);
    WireBytesAreHostIndependent(v, n, order, host);
    ReverseReverse(s);
    FromOfLowFirst(v, n);
    LowFirstOfFrom(Reverse(s));
  }

  /** On a machine of either order the decoded word is the one the wire bytes spell. */
  lemma DecodedWordIsHostIndependent(s: seq<byte>, order: Order, host: Order)
    ensures FromBytes(s, order, host) == FromLowFirst(if order.Little? then s else Reverse(s))
    ensures FromBytes(s, order, host) < Pow2(8 * |s|)
  {
    LowFirstOfFrom(s);
    LowFirstOfFrom(Reverse(s));
    ReverseReverse(s);
    FromLowFirstBound(s);
    FromLowFirstBound(Reverse(s));
  }
}
