/** A memory made of equal blocks, seen as one flat run of bytes. */
module Chunks {
  import opened Bits

  function Flatten(cs: seq<seq<byte>>): seq<byte> {
    if cs == [] then [] else cs[0] + Flatten(cs[1..])
  }

  // `s` with `d` written over it at `at`; longer than `s` when `d` reaches past the end.
  function Splice(s: seq<byte>, at: nat, d: seq<byte>): (r: seq<byte>)
    requires at <= |s|
    ensures |r| == if at + |d| <= |s| then |s| else at + |d|
  {
    s[..at] + d + (if at + |d| <= |s| then s[at + |d|..] else [])
  }

  // Byte by byte.
  lemma {:induction false} SpliceAt(s: seq<byte>, at: nat, d: seq<byte>, i: nat)
    requires at <= |s| && i < |Splice(s, at, d)|
    ensures Splice(s, at, d)[i] == if at <= i < at + |d| then d[i - at] else s[i]
  {
  }

  ghost predicate Uniform(cs: seq<seq<byte>>, b: nat) {
    forall i | 0 <= i < |cs| :: |cs[i]| == b
  }

  // The least multiple of `b` that is at least `x`.
  function RoundUp(x: nat, b: nat): (r: nat)
    requires b > 0
    ensures x <= r < x + b && r % b == 0
  {
    var q := (x + b - 1) / b;
    assert (x + b - 1) == q * b + (x + b - 1) % b;
    DivModUnique(q * b, b, q, 0);
    q * b
  }

  lemma {:induction false} RoundUpUnique(x: nat, b: nat, k: nat)
    requires b > 0 && x <= k * b < x + b
    ensures RoundUp(x, b) == k * b
  {
    DivModUnique(x + b - 1, b, k, x + b - 1 - k * b);
  }

  lemma {:induction false} CeilDiv(more: nat, b: nat)
    requires b > 0
    ensures var count := more / b + (if more % b != 0 then 1 else 0);
            more <= count * b < more + b
  {
    assert more == more / b * b + more % b;
    assert (more / b + 1) * b == more / b * b + b;
  }

  // addCapacityIfNeeded creates just the nodes that round the new end up to whole nodes.
  lemma {:induction false} Growth(position: nat, need: nat, n: nat, b: nat)
    requires b > 0 && position <= n * b < position + need
    ensures var more := position + need - n * b;
            var count := more / b + (if more % b != 0 then 1 else 0);
            0 < count && n * b + count * b == (n + count) * b == RoundUp(position + need, b)
  {
    var more := position + need - n * b;
    var count := more / b + (if more % b != 0 then 1 else 0);
    CeilDiv(more, b);
    assert n * b + count * b == (n + count) * b;
    RoundUpUnique(position + need, b, n + count);
  }

  lemma {:induction false} DivParts(p: nat, b: nat, n: nat)
    requires b > 0 && p < n * b
    ensures 0 <= p / b < n && 0 <= p % b < b && p == p / b * b + p % b
  {
    DivBelow(p, b, n);
  }

  lemma {:induction false} DivBelow(p: nat, b: nat, n: nat)
    requires b > 0 && p < n * b
    ensures 0 <= p / b < n
  {
    assert p == p / b * b + p % b;
    if p / b >= n { MulMono(n, p / b, b); assert false; }
  }

  lemma {:induction false} FlattenConcat(a: seq<seq<byte>>, c: seq<seq<byte>>)
    ensures Flatten(a + c) == Flatten(a) + Flatten(c)
  {
    if a == [] {
      assert a + c == c;
    } else {
      assert (a + c)[1..] == a[1..] + c;
      FlattenConcat(a[1..], c);
    }
  }

  lemma {:induction false} FlattenLength(cs: seq<seq<byte>>, b: nat)
    requires Uniform(cs, b)
    ensures |Flatten(cs)| == |cs| * b
  {
    if cs != [] { FlattenLength(cs[1..], b); }
  }

  lemma {:induction false} FlattenSplit(cs: seq<seq<byte>>, b: nat, k: nat)
    requires Uniform(cs, b) && k < |cs|
    ensures Flatten(cs) == Flatten(cs[..k]) + cs[k] + Flatten(cs[k + 1..])
    ensures |Flatten(cs[..k])| == k * b
  {
    FlattenLength(cs[..k], b);
    assert cs == cs[..k] + cs[k..];
    FlattenConcat(cs[..k], cs[k..]);
    assert cs[k..][1..] == cs[k + 1..];
  }

  // A slice inside one block is a slice of the whole.
  lemma {:induction false} BlockSlice(cs: seq<seq<byte>>, b: nat, k: nat, off: nat, n: nat)
    requires Uniform(cs, b) && k < |cs| && off + n <= b
    ensures k * b + off + n <= |Flatten(cs)|
    ensures Flatten(cs)[k * b + off..k * b + off + n] == cs[k][off..off + n]
  {
    FlattenSplit(cs, b, k);
  }

  // Writing inside one block writes to the whole.
  lemma {:induction false} BlockSplice(cs: seq<seq<byte>>, b: nat, k: nat, off: nat, d: seq<byte>)
    requires Uniform(cs, b) && k < |cs| && off + |d| <= b
    ensures k * b + off + |d| <= |Flatten(cs)|
    ensures Flatten(cs[k := Splice(cs[k], off, d)]) == Splice(Flatten(cs), k * b + off, d)
  {
    var cs' := cs[k := Splice(cs[k], off, d)];
    FlattenSplit(cs, b, k);
    FlattenSplit(cs', b, k);
    assert cs'[..k] == cs[..k] && cs'[k + 1..] == cs[k + 1..];
  }

  lemma {:induction false} SpliceSplice(s: seq<byte>, at: nat, d: seq<byte>, e: seq<byte>)
    requires at <= |s|
    ensures Splice(Splice(s, at, d), at + |d|, e) == Splice(s, at, d + e)
  {
  }

  lemma {:induction false} SpliceNothing(s: seq<byte>, at: nat)
    requires at <= |s|
    ensures Splice(s, at, []) == s
  {
  }

  lemma {:induction false} SlicePrefix(s: seq<byte>, used: nat, lo: nat, hi: nat)
    requires lo <= hi <= used <= |s|
    ensures s[..used][lo..hi] == s[lo..hi]
  {
  }

  // Growing the memory and writing into it, cut back to the bytes in use.
  lemma {:induction false} SplicePrefix(small: seq<byte>, big: seq<byte>, used: nat, at: nat, d: seq<byte>)
    requires small <= big && at <= used <= |small| && at + |d| <= |big|
    ensures var n := if used < at + |d| then at + |d| else used;
            Splice(big, at, d)[..n] == Splice(small[..used], at, d)
  {
  }
}
