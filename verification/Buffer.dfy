/** The chunked byte buffer: a linked list of equal nodes with a moving cursor, which behaves
    like one flat, growable run of bytes. */
module Buffer {
  import opened Bits
  import opened Chunks
  import opened Endian

  class Node {
    const ptr: array<byte>
    const size: nat
    var next: Node?

    constructor (s: nat)
      ensures size == s == ptr.Length && next == null && fresh(ptr)
    {
      ptr := new byte[s];
      size := s;
      next := null;
    }
  }

  // One window of a scatter/gather list: `len` bytes of a node from `off` on.
  datatype IoVec = IoVec(base: array<byte>, off: nat, len: nat)

  // A read gives bytes, throws out_of_range, or follows a null cursor.
  datatype ReadResult = Bytes(data: seq<byte>) | OutOfRange | NullCursor

  // ---- A list of nodes as flat memory ----

  // The whole list from its first node on, the nodes' memory, and the size of each node.
  datatype List = List(nodes: seq<Node>, bufs: seq<array<byte>>, b: nat)

  ghost predicate Chain(l: List)
    reads l.nodes
  {
    && l.b > 0 && |l.nodes| == |l.bufs| > 0
    && (forall i | 0 <= i < |l.nodes| :: l.nodes[i].size == l.b == l.bufs[i].Length && l.nodes[i].ptr == l.bufs[i])
    && (forall i | 0 <= i < |l.nodes| - 1 :: l.nodes[i].next == l.nodes[i + 1])
    && l.nodes[|l.nodes| - 1].next == null
    && (forall i, j | 0 <= i < j < |l.bufs| :: l.bufs[i] != l.bufs[j])
  }

  // The objects a list is made of.
  ghost function Owned(l: List): (s: set<object>)
    ensures forall n | n in l.nodes :: n in s
    ensures forall a | a in l.bufs :: a in s
  {
    (set n | n in l.nodes :: n as object) + (set a | a in l.bufs :: a as object)
  }

  ghost function Blocks(bufs: seq<array<byte>>): (cs: seq<seq<byte>>)
    reads bufs
    ensures |cs| == |bufs|
    ensures forall i | 0 <= i < |bufs| :: cs[i] == bufs[i][..]
  {
    seq(|bufs|, i requires 0 <= i < |bufs| reads bufs => bufs[i][..])
  }

  // Every byte the list owns, in use or not.
  ghost function Mem(l: List): seq<byte>
    reads l.bufs
  {
    Flatten(Blocks(l.bufs))
  }

  // The node that holds position `p`; null at the end of the memory.
  ghost function NodeAt(ns: seq<Node>, b: nat, p: nat): Node? {
    if ns == [] then null
    else if p < b then ns[0]
    else NodeAt(ns[1..], b, p - b)
  }

  // A cursor that stands `npos` bytes into node number `k`, at position `p`.
  ghost predicate StandsAt(l: List, cur: Node?, k: nat, npos: nat, p: nat) {
    k < |l.nodes| && cur == l.nodes[k] && npos < l.b && p == k * l.b + npos
  }

  lemma {:induction false} StandsIn(l: List, cur: Node, k: nat, npos: nat, p: nat)
    requires Chain(l) && StandsAt(l, cur, k, npos, p)
    ensures k < |l.nodes| == |l.bufs| && cur.ptr == l.bufs[k] && p == k * l.b + npos
  {
  }

  lemma {:induction false} StandsIs(l: List, k: nat, npos: nat, p: nat)
    requires k < |l.nodes| && npos < l.b && p == k * l.b + npos
    ensures StandsAt(l, l.nodes[k], k, npos, p)
  {
  }

  lemma {:induction false} MemLength(l: List)
    requires Chain(l)
    ensures |Mem(l)| == |l.nodes| * l.b
  {
    FlattenLength(Blocks(l.bufs), l.b);
  }

  lemma {:induction false} NodeAtIs(ns: seq<Node>, b: nat, k: nat, npos: nat)
    requires npos < b
    ensures NodeAt(ns, b, k * b + npos) == if k < |ns| then ns[k] else null
  {
    if ns != [] && k > 0 {
      assert k * b + npos == b + ((k - 1) * b + npos);
      NodeAtIs(ns[1..], b, k - 1, npos);
    }
  }

  // `m_position % m_baseSize` is the offset inside the cursor's node.
  lemma {:induction false} Stands(l: List, p: nat)
    requires Chain(l) && p < |Mem(l)|
    ensures NodeAt(l.nodes, l.b, p) != null && 0 <= p / l.b && 0 <= p % l.b < l.b
    ensures StandsAt(l, NodeAt(l.nodes, l.b, p), p / l.b, p % l.b, p)
  {
    hide NodeAt, Mem, StandsAt;
    MemLength(l);
    DivParts(p, l.b, |l.nodes|);
    StandsOn(l, p, p / l.b, p % l.b);
  }

  lemma {:induction false} StandsOn(l: List, p: nat, k: nat, npos: nat)
    requires k < |l.nodes| && npos < l.b && p == k * l.b + npos
    ensures NodeAt(l.nodes, l.b, p) == l.nodes[k] && StandsAt(l, l.nodes[k], k, npos, p)
  {
    NodeAtIs(l.nodes, l.b, k, npos);
  }

  // The cursor is null exactly at the end of the memory.
  lemma {:induction false} NodeAtIsNull(l: List, p: nat)
    requires Chain(l) && p <= |Mem(l)|
    ensures NodeAt(l.nodes, l.b, p) == null <==> p == |Mem(l)|
  {
    MemLength(l);
    if p == |Mem(l)| { NodeAtIs(l.nodes, l.b, |l.nodes|, 0); } else { Stands(l, p); }
  }

  // Growing the list leaves the cursor's node alone, unless the cursor was at the end: then the
  // cursor's node is the first new one.
  lemma {:induction false} NodeAtGrown(was: List, now: List, p: nat)
    requires was.b > 0 && now.b == was.b && was.nodes < now.nodes && p <= |was.nodes| * was.b
    ensures NodeAt(now.nodes, now.b, p)
         == if p == |was.nodes| * was.b then now.nodes[|was.nodes|] else NodeAt(was.nodes, was.b, p)
  {
    hide NodeAt;
    var b := was.b;
    if p == |was.nodes| * b {
      NodeAtIs(now.nodes, b, |was.nodes|, 0);
    } else {
      DivBelow(p, b, |was.nodes|);
      NodeAtIs(was.nodes, b, p / b, p % b);
      NodeAtIs(now.nodes, b, p / b, p % b);
    }
  }

  // Where a cursor is after `n` more bytes of its node.
  lemma {:induction false} Advance(l: List, cur: Node, k: nat, npos: nat, n: nat, p: nat)
    requires Chain(l) && StandsAt(l, cur, k, npos, p) && npos + n <= l.b
    ensures cur in l.nodes && cur.ptr in l.bufs && cur.size == l.b == cur.ptr.Length && p + n <= |Mem(l)|
    ensures NodeAt(l.nodes, l.b, p + n) == if npos + n == l.b then cur.next else cur
    ensures npos + n == l.b && p + n < |Mem(l)| ==> cur.next != null && StandsAt(l, cur.next, k + 1, 0, p + n)
    ensures npos + n == l.b && p + n == |Mem(l)| ==> cur.next == null
  {
    ChainAt(l, k);
    hide Chain, NodeAt, Mem;
    MemLength(l);
    InsideOrNext(k, npos, n, l.b, |l.nodes|);
    if npos + n == l.b {
      NodeAtIs(l.nodes, l.b, k + 1, 0);
    } else {
      NodeAtIs(l.nodes, l.b, k, npos + n);
    }
  }

  // What the chain says of one node.
  lemma {:induction false} ChainAt(l: List, k: nat)
    requires Chain(l) && k < |l.nodes|
    ensures l.b > 0 && k < |l.bufs| && var cur := l.nodes[k];
            && cur in l.nodes && cur.ptr in l.bufs && cur.size == l.b == cur.ptr.Length
            && cur.next == (if k + 1 < |l.nodes| then l.nodes[k + 1] else null)
  {
    assert l.bufs[k] == l.nodes[k].ptr;
  }

  // A position inside node k of m, or at the start of the next.
  lemma {:induction false} InsideOrNext(k: nat, npos: nat, n: nat, b: nat, m: nat)
    requires k < m && npos + n <= b && 0 < b
    ensures k * b + npos + n <= m * b
    ensures npos + n == b ==> k * b + npos + n == (k + 1) * b + 0 && (k * b + npos + n == m * b <==> k + 1 == m)
  {
    assert (k + 1) * b == k * b + b;
    MulMono(k + 1, m, b);
    if k + 1 < m {
      MulMono(k + 2, m, b);
      assert (k + 2) * b == (k + 1) * b + b;
    }
  }

  // What a copy of `n` bytes at `at` yields, as the flat view tells it.
  function CopyOut(contents: seq<byte>, at: nat, n: nat, capacity: nat): ReadResult
    requires at <= |contents|
  {
    if n > |contents| - at then OutOfRange
    else if at == capacity then NullCursor
    else Bytes(contents[at..at + n])
  }

  // The capacity once bytes reach `end`: unchanged, or whole nodes up to it.
  function Room(capacity: nat, end: nat, b: nat): nat
    requires b > 0
  {
    if end <= capacity then capacity else RoundUp(end, b)
  }

  method Copy(dst: array<byte>, off: nat, src: seq<byte>)
    requires off + |src| <= dst.Length
    modifies dst
    ensures dst[..] == Splice(old(dst[..]), off, src)
  {
    forall i | 0 <= i < |src| { dst[off + i] := src[i]; }
  }

  // `memcpy(cur->ptr + off, src, ...)`: one splice of the flat memory at the cursor.
  method Store(buf: array<byte>, off: nat, src: seq<byte>, ghost l: List, ghost k: nat, ghost p: nat)
    requires Chain(l) && k < |l.bufs| && buf == l.bufs[k] && p == k * l.b + off && off + |src| <= l.b
    modifies buf
    ensures Chain(l) && p + |src| <= |old(Mem(l))|
    ensures Mem(l) == Splice(old(Mem(l)), p, src)
  {
    ghost var was := Blocks(l.bufs);
    BlockSplice(was, l.b, k, off, src);
    Copy(buf, off, src);
    assert Blocks(l.bufs) == was[k := Splice(was[k], off, src)];
  }

  // `memcpy(..., cur->ptr + off, n)`: one slice of the flat memory at the cursor.
  lemma {:induction false} Loads(node: Node, off: nat, n: nat, l: List, k: nat, p: nat)
    requires Chain(l) && StandsAt(l, node, k, off, p) && off + n <= l.b
    ensures l.b == node.ptr.Length && p + n <= |Mem(l)|
    ensures node.ptr[off..off + n] == Mem(l)[p..p + n]
  {
    BlockSlice(Blocks(l.bufs), l.b, k, off, n);
  }

  // One memcpy of the write loop, and the node where the next one goes.
  method StoreAndStep(at: Node, npos: nat, piece: seq<byte>, ghost l: List, ghost k: nat, ghost q: nat) returns (next: Node?)
    requires Chain(l) && StandsAt(l, at, k, npos, q) && npos + |piece| <= l.b
    modifies l.bufs
    ensures Chain(l) && q + |piece| <= |old(Mem(l))| && Mem(l) == Splice(old(Mem(l)), q, piece)
    ensures next == NodeAt(l.nodes, l.b, q + |piece|)
    ensures npos + |piece| == l.b && q + |piece| < |old(Mem(l))| ==>
              next != null && next.size == l.b && StandsAt(l, next, k + 1, 0, q + |piece|)
  {
    hide Flatten, NodeAt, Splice;
    Advance(l, at, k, npos, |piece|, q);
    Store(at.ptr, npos, piece, l, k, q);
    next := if at.size == npos + |piece| then at.next else at;
  }

  // The copy loop of write, once there is room: `at` is the node the cursor ends on.
  method CopyIn(start: Node, off: nat, data: seq<byte>, ghost l: List, ghost k0: nat, ghost p: nat) returns (at: Node?)
    requires Chain(l) && StandsAt(l, start, k0, off, p) && off < l.b
    requires data != [] && p + |data| <= |Mem(l)|
    modifies l.bufs
    ensures Chain(l) && at == NodeAt(l.nodes, l.b, p + |data|)
    ensures Mem(l) == Splice(old(Mem(l)), p, data)
  {
    hide Flatten, StandsAt, NodeAt, Chain, Splice, Mem;
    ghost var was := Mem(l);
    Advance(l, start, k0, off, 0, p);
    at := start;
    var npos: nat, ncap, bpos: nat, n: nat := off, start.size - off, 0, |data|;
    ghost var k: nat := k0;
    SpliceNothing(was, p);
    while n > 0
      invariant bpos + n == |data| && Chain(l) && Mem(l) == Splice(was, p, data[..bpos])
      invariant n > 0 ==> at != null && StandsAt(l, at, k, npos, p + bpos) && npos < l.b && ncap == l.b - npos
      invariant n == 0 ==> at == NodeAt(l.nodes, l.b, p + bpos)
    {
      var m := if ncap >= n then n else ncap;
      SpliceSplice(was, p, data[..bpos], data[bpos..bpos + m]);
      assert data[..bpos] + data[bpos..bpos + m] == data[..bpos + m];
      at := StoreAndStep(at, npos, data[bpos..bpos + m], l, k, p + bpos);
      bpos := bpos + m;
      if ncap >= n {
        n := 0;
      } else {
        n := n - ncap;
        ncap, npos, k := at.size, 0, k + 1;
      }
    }
    assert data[..bpos] == data;
  }

  // The copy loop of read and of the peeks: `at` is the node the cursor ends on, and `ok` is
  // false when the list ends before `count` bytes.
  method CopyFrom(start: Node, off: nat, count: nat, ghost l: List, ghost k0: nat, ghost p: nat)
    returns (out: seq<byte>, at: Node?, ok: bool)
    requires Chain(l) && StandsAt(l, start, k0, off, p) && off < l.b
    ensures ok <==> p + count <= |Mem(l)|
    ensures ok ==> out == Mem(l)[p..p + count] && at == NodeAt(l.nodes, l.b, p + count)
  {
    hide Flatten, StandsAt, NodeAt, Chain, Mem;
    Advance(l, start, k0, off, 0, p);
    at := start;
    var npos: nat, ncap, n: nat := off, start.size - off, count;
    ghost var k: nat, q: nat := k0, p;
    out := [];
    while n > 0
      invariant q + n == p + count && p <= q <= |Mem(l)| && out == Mem(l)[p..q]
      invariant n > 0 ==> at != null && StandsAt(l, at, k, npos, q) && npos < l.b && ncap == l.b - npos
      invariant n == 0 ==> at == NodeAt(l.nodes, l.b, q)
    {
      var m := if ncap >= n then n else ncap;
      Advance(l, at, k, npos, m, q);
      Loads(at, npos, m, l, k, q);
      out := out + at.ptr[npos..npos + m];
      q := q + m;
      if ncap >= n {
        if at.size == npos + n { at := at.next; }
        n := 0;
      } else {
        n := n - ncap;
        if at.next == null { return out, at, false; }
        at := at.next;
        Advance(l, at, k + 1, 0, 0, q);
        ncap, npos, k := at.size, 0, k + 1;
      }
    }
    return out, at, true;
  }

  // The walk of setPosition from the root: a position at the end of a node belongs to the next.
  method Seek(root: Node, v: nat, ghost l: List) returns (at: Node?)
    requires Chain(l) && root == l.nodes[0] && v <= |Mem(l)|
    ensures at == NodeAt(l.nodes, l.b, v)
  {
    hide Flatten, NodeAt;
    var here, left := root, v;
    ghost var k := 0;
    Advance(l, here, 0, 0, 0, 0);
    while left > here.size
      invariant 0 <= k && 0 <= left <= v && StandsAt(l, here, k, 0, v - left) && here.size == l.b
      decreases left
    {
      Advance(l, here, k, 0, here.size, v - left);
      left := left - here.size;
      here := here.next;
      k := k + 1;
      Advance(l, here, k, 0, 0, v - left);
    }
    Advance(l, here, k, 0, left, v - left);
    return if left == here.size then here.next else here;
  }

  // The walk of readForPeekAt: null when the list ends before position `v`.
  method Walk(root: Node, v: nat, ghost l: List) returns (at: Node?, off: nat, ghost k: nat)
    requires Chain(l) && root == l.nodes[0]
    ensures at == null <==> v >= |Mem(l)|
    ensures at != null ==> off < l.b && StandsAt(l, at, k, off, v)
  {
    hide Flatten, NodeAt;
    at, off, k := root, v, 0;
    Advance(l, root, 0, 0, 0, 0);
    while off >= at.size
      invariant at != null && off <= v && StandsAt(l, at, k, 0, v - off) && at.size == l.b
      decreases off
    {
      Advance(l, at, k, 0, at.size, v - off);
      off := off - at.size;
      if at.next == null { return null, off, k; }
      at := at.next;
      k := k + 1;
      Advance(l, at, k, 0, 0, v - off);
    }
    Advance(l, at, k, 0, off + 1, v - off);
  }

  // What readForPeekAt yields: guarded by the bytes left at the cursor, read at `at`.
  function PeekAtOut(mem: seq<byte>, size: nat, position: nat, n: nat, at: nat): ReadResult
    requires position <= size <= |mem|
  {
    if n > size - position then OutOfRange
    else if at >= |mem| || at + n > |mem| then NullCursor
    else Bytes(mem[at..at + n])
  }

  /** readForPeekAt does what its name says, that is it yields the bytes in use at `at` or
      refuses when there are too few, exactly when its guard on the cursor and the guard on
      `at` agree and the copy does not start at the very end. */
  lemma {:induction false} PeekAtIsGuardedByTheCursor(mem: seq<byte>, size: nat, position: nat, n: nat, at: nat)
    requires position <= size <= |mem|
    ensures PeekAtOut(mem, size, position, n, at) == (if at + n > size then OutOfRange else Bytes(mem[..size][at..at + n]))
       <==> (n > size - position <==> at + n > size) && (n <= size - position ==> at < |mem|)
  {
    if at + n <= size { SlicePrefix(mem, size, at, at + n); }
  }

  /** A peek at byte 2 of a buffer with one byte in use: the byte at the cursor lets it through. */
  lemma {:induction false} PeekPastTheBytesInUse(mem: seq<byte>)
    requires |mem| == 4
    ensures var size, position, n, at := 1, 0, 1, 2;
            at + n > size && PeekAtOut(mem, size, position, n, at) == Bytes(mem[at..at + n])
  {
  }

  // The walk of getReadBuffersAt: `count` nodes on from the root.
  method Skip(root: Node, count: nat, ghost l: List) returns (node: Node, ghost k: nat)
    requires Chain(l) && root == l.nodes[0] && count < |l.nodes|
    ensures k == count && node == l.nodes[k]
  {
    hide Chain;
    node, k := root, 0;
    var left := count;
    while left > 0
      invariant k + left == count && node == l.nodes[k]
    {
      ChainAt(l, k);
      node := node.next;
      left := left - 1;
      k := k + 1;
    }
  }

  // ---- Scatter and gather ----

  // The windows that tile `len` bytes from byte `off` of node number `k` on.
  ghost function WindowsAt(l: List, k: nat, off: nat, len: nat): seq<IoVec>
    decreases |l.bufs| - k
  {
    if len == 0 || k >= |l.bufs| || off >= l.b then []
    else
      var m := if l.b - off >= len then len else l.b - off;
      [IoVec(l.bufs[k], off, m)] + WindowsAt(l, k + 1, 0, len - m)
  }

  predicate InBounds(iovs: seq<IoVec>) {
    forall i | 0 <= i < |iovs| :: iovs[i].off + iovs[i].len <= iovs[i].base.Length
  }

  ghost function Bases(iovs: seq<IoVec>): set<array<byte>> {
    set i | 0 <= i < |iovs| :: iovs[i].base
  }

  // The bytes that writev or sendmsg would take from the windows.
  function Gather(iovs: seq<IoVec>): seq<byte>
    requires InBounds(iovs)
    reads Bases(iovs)
  {
    if iovs == [] then []
    else iovs[0].base[iovs[0].off..iovs[0].off + iovs[0].len] + Gather(iovs[1..])
  }

  // The window loop of getReadBuffers, getReadBuffersAt and getWriteBuffers.
  method Windows(start: Node, off: nat, length: nat, ghost l: List, ghost k0: nat, ghost p: nat) returns (iovs: seq<IoVec>)
    requires Chain(l) && StandsAt(l, start, k0, off, p) && p + length <= |Mem(l)|
    ensures iovs == WindowsAt(l, k0, off, length)
  {
    hide Flatten, NodeAt, Mem, Chain;
    Advance(l, start, k0, off, 0, p);
    var cur: Node?, npos: nat, ncap, len: nat := start, off, start.size - off, length;
    ghost var k: nat, q: nat := k0, p;
    iovs := [];
    while len > 0
      invariant iovs + WindowsAt(l, k, npos, len) == WindowsAt(l, k0, off, length)
      invariant len > 0 ==> cur != null && StandsAt(l, cur, k, npos, q) && npos < l.b && ncap == l.b - npos && q + len == p + length
    {
      StandsIn(l, cur, k, npos, q);
      var iov;
      if ncap >= len {
        iov := IoVec(cur.ptr, npos, len);
        len := 0;
      } else {
        iov := IoVec(cur.ptr, npos, ncap);
        Advance(l, cur, k, npos, ncap, q);
        len := len - ncap;
        q := q + ncap;
        cur := cur.next;
        Advance(l, cur, k + 1, 0, 0, q);
        ncap := cur.size;
        npos := 0;
      }
      k := k + 1;
      iovs := iovs + [iov];
    }
  }

  lemma {:induction false} WindowsInBounds(l: List, k: nat, off: nat, len: nat)
    requires Chain(l)
    ensures InBounds(WindowsAt(l, k, off, len))
    ensures forall a | a in Bases(WindowsAt(l, k, off, len)) :: a in l.bufs
    decreases |l.bufs| - k
  {
    if len > 0 && k < |l.bufs| && off < l.b {
      var m := if l.b - off >= len then len else l.b - off;
      WindowsInBounds(l, k + 1, 0, len - m);
    }
  }

  ghost function FirstLen(l: List, off: nat, len: nat): int { if l.b - off >= len then len else l.b - off }

  lemma {:induction false} FirstWindow(l: List, k: nat, off: nat, len: nat, p: nat)
    requires Chain(l) && off < l.b && p == k * l.b + off && 0 < len && p + len <= |Mem(l)|
    ensures k < |l.bufs| && l.bufs[k] in l.bufs && 0 < FirstLen(l, off, len) <= len && off + FirstLen(l, off, len) <= l.b
    ensures WindowsAt(l, k, off, len)
         == [IoVec(l.bufs[k], off, FirstLen(l, off, len))] + WindowsAt(l, k + 1, 0, len - FirstLen(l, off, len))
    ensures FirstLen(l, off, len) < len ==> p + FirstLen(l, off, len) == (k + 1) * l.b + 0
  {
    hide Flatten;
    MemLength(l);
    DivModUnique(p, l.b, k, off);
    DivBelow(p, l.b, |l.nodes|);
    assert (k + 1) * l.b == k * l.b + l.b;
  }

  // The windows, end to end, are the flat memory they cover.
  lemma {:induction false} GatherWindows(l: List, k: nat, off: nat, len: nat, p: nat)
    requires Chain(l) && off < l.b && p == k * l.b + off && p + len <= |Mem(l)|
    ensures InBounds(WindowsAt(l, k, off, len))
    ensures Gather(WindowsAt(l, k, off, len)) == Mem(l)[p..p + len]
    decreases |l.bufs| - k
  {
    hide Flatten;
    WindowsInBounds(l, k, off, len);
    if len > 0 {
      FirstWindow(l, k, off, len, p);
      var m := FirstLen(l, off, len);
      Loads(l.nodes[k], off, m, l, k, p);
      if m < len { GatherWindows(l, k + 1, 0, len - m, p + m); }
      assert WindowsAt(l, k, off, len)[1..] == WindowsAt(l, k + 1, 0, len - m);
      assert Mem(l)[p..p + len] == Mem(l)[p..p + m] + Mem(l)[p + m..p + len];
    }
  }

  // What readv or recvmsg does with `data`: it fills the windows in order.
  method Scatter(iovs: seq<IoVec>, data: seq<byte>, ghost l: List, ghost k0: nat, ghost off: nat, ghost len: nat, ghost p: nat)
    requires Chain(l) && off < l.b && p == k0 * l.b + off && |data| <= len && p + len <= |Mem(l)|
    requires iovs == WindowsAt(l, k0, off, len)
    modifies l.bufs
    ensures Chain(l) && Mem(l) == Splice(old(Mem(l)), p, data)
  {
    hide Flatten, NodeAt, Splice, Chain, WindowsAt, Mem;
    ghost var was := Mem(l);
    var i, done: nat := 0, 0;
    ghost var k: nat, npos: nat := k0, off;
    SpliceNothing(was, p);
    while done < |data|
      invariant 0 <= i <= |iovs| && done <= |data| && Chain(l) && Mem(l) == Splice(was, p, data[..done])
      invariant done < |data| ==> npos < l.b && p + done == k * l.b + npos && iovs[i..] == WindowsAt(l, k, npos, len - done)
      decreases |data| - done
    {
      FirstWindow(l, k, npos, len - done, p + done);
      var iov := iovs[i];
      assert iovs[i + 1..] == iovs[i..][1..];
      var m := if iov.len >= |data| - done then |data| - done else iov.len;
      SpliceSplice(was, p, data[..done], data[done..done + m]);
      assert data[..done] + data[done..done + m] == data[..done + m];
      Store(iov.base, iov.off, data[done..done + m], l, k, p + done);
      done := done + m;
      i, k, npos := i + 1, k + 1, 0;
    }
    assert data[..done] == data;
  }

  lemma {:induction false} EnoughRoom(cap: nat, e: nat, b: nat)
    requires b > 0 && e <= cap
    ensures Room(cap, e, b) == cap
  {
  }

  class ByteArray {
    const baseSize: nat
    const host: Order
    const root: Node
    var position: nat
    var capacity: nat
    var size: nat
    var order: Order
    var cur: Node?

    // The list from the root on.
    ghost var list: List

    ghost predicate Valid()
      reads this, list.nodes, list.bufs
    {
      && Chain(list) && list.b == baseSize > 0 && |list.nodes| > 0 && list.nodes[0] == root
      && capacity == |Mem(list)| && position <= size <= capacity
      && cur == NodeAt(list.nodes, list.b, position)
    }

    // The bytes in use.
    ghost function Contents(): (s: seq<byte>)
      requires Valid()
      reads this, list.nodes, list.bufs
      ensures |s| == size
    {
      Mem(list)[..size]
    }

    // ---- Construction, clearing ----

    constructor (base: nat, hostOrder: Order)
      requires base > 0
      ensures Valid() && Contents() == [] && position == 0 && capacity == baseSize == base
      ensures order == Big && host == hostOrder
      ensures fresh(list.nodes) && fresh(list.bufs)
    {
      baseSize, host, position, capacity, size, order := base, hostOrder, 0, base, 0, Big;
      var node := new Node(base);
      root, cur := node, node;
      list := List([node], [node.ptr], base);
      new;
      MemLength(list);
    }

    method Clear()
      requires Valid()
      modifies this`position, this`size, this`capacity, this`cur, this`list, root
      ensures Valid() && Contents() == [] && position == 0 && capacity == baseSize
      ensures list.nodes == old(list.nodes)[..1] && list.bufs == old(list.bufs)[..1]
    {
      position, size := 0, 0;
      capacity := baseSize;
      cur := root;
      root.next := null;
      list := list.(nodes := list.nodes[..1], bufs := list.bufs[..1]);
      MemLength(list);
    }

    // ---- Growth ----

    // The list keeps its nodes and gains only new ones.
    twostate predicate Extends()
      reads this
    {
      && list.b == old(list.b) && old(list.nodes) <= list.nodes && old(list.bufs) <= list.bufs
      && (forall i | |old(list.nodes)| <= i < |list.nodes| :: fresh(list.nodes[i]))
      && (forall i | |old(list.bufs)| <= i < |list.bufs| :: fresh(list.bufs[i]))
    }

    // `tmp->next = new Node(m_baseSize)` on the last node.
    method Append(tail: Node) returns (node: Node)
      requires Chain(list) && list.b == baseSize && tail == list.nodes[|list.nodes| - 1]
      modifies this`list, tail
      ensures Chain(list) && fresh(node) && fresh(node.ptr)
      ensures list == List(old(list.nodes) + [node], old(list.bufs) + [node.ptr], baseSize)
    {
      node := new Node(baseSize);
      tail.next := node;
      list := List(list.nodes + [node], list.bufs + [node.ptr], baseSize);
    }

    method LastNode() returns (tmp: Node)
      requires Chain(list) && list.nodes[0] == root
      ensures |list.nodes| > 0 && tmp == list.nodes[|list.nodes| - 1]
    {
      tmp := root;
      ghost var k := 0;
      while tmp.next != null
        invariant 0 <= k < |list.nodes| && tmp == list.nodes[k]
        invariant tmp.next == if k + 1 < |list.nodes| then list.nodes[k + 1] else null
        decreases |list.nodes| - k
      {
        tmp := tmp.next;
        k := k + 1;
      }
    }

    // The loop that creates `count` nodes after the last one; `first` is the first of them.
    method AppendNodes(count: nat) returns (first: Node?)
      requires Chain(list) && list.b == baseSize && list.nodes[0] == root
      modifies this`capacity, this`list, list.nodes
      ensures Chain(list) && Extends() && |list.nodes| == |old(list.nodes)| + count
      ensures capacity == old(capacity) + count * baseSize
      ensures first == if count == 0 then null else list.nodes[|old(list.nodes)|]
    {
      hide Chain;
      var tmp := LastNode();
      first := null;
      for i := 0 to count
        invariant Chain(list) && list.b == baseSize && Extends() && |list.nodes| == |old(list.nodes)| + i
        invariant |list.nodes| > 0 && tmp == list.nodes[|list.nodes| - 1] && (tmp in old(list.nodes) || fresh(tmp))
        invariant capacity == old(capacity) + i * baseSize
        invariant first == if i == 0 then null else list.nodes[|old(list.nodes)|]
      {
        tmp := Append(tmp);
        if first == null { first := tmp; }
        capacity := capacity + baseSize;
        assert (i + 1) * baseSize == i * baseSize + baseSize;
      }
    }

    twostate lemma {:induction false} ExtendedMem()
      requires Extends() && forall a | a in old(list.bufs) :: unchanged(a)
      ensures old(Mem(list)) <= Mem(list)
    {
      var was, now := old(Blocks(list.bufs)), Blocks(list.bufs);
      var n := |was|;
      forall i | 0 <= i < n ensures now[i] == was[i] {
        assert old(list.bufs)[i] in old(list.bufs);
      }
      assert now == was + now[n..];
      FlattenConcat(was, now[n..]);
    }

    // Adds `count` nodes; a cursor at the end moves to the first of them.
    method Grow(count: nat)
      requires Valid() && count > 0
      modifies this`capacity, this`cur, this`list, list.nodes
      ensures Valid() && Extends() && old(Mem(list)) <= Mem(list)
      ensures capacity == old(capacity) + count * baseSize
    {
      hide Flatten, NodeAt, Chain;
      MemLength(list);
      var atEnd := capacity - position == 0;
      var first := AppendNodes(count);
      MemLength(list);
      NodeAtGrown(old(list), list, position);
      if atEnd { cur := first; }
      ExtendedMem();
      assert (|old(list.nodes)| + count) * baseSize == |old(list.nodes)| * baseSize + count * baseSize;
    }

    method AddCapacityIfNeeded(need: nat)
      requires Valid()
      modifies this`capacity, this`cur, this`list, list.nodes
      ensures Valid() && Extends() && old(Mem(list)) <= Mem(list)
      ensures position + need <= capacity == Room(old(capacity), position + need, baseSize)
    {
      hide RoundUp, Mem, NodeAt, Chain;
      if need == 0 { return; }
      var oldCap := capacity - position;
      if oldCap >= need { return; }
      var more := need - oldCap;
      var count := more / baseSize + (if more % baseSize != 0 then 1 else 0);
      MemLength(list);
      Growth(position, need, |list.nodes|, baseSize);
      Grow(count);
    }

    // ---- Writing ----

    // The rest of write, once there is room.
    method Overwrite(data: seq<byte>)
      requires Valid() && data != [] && position + |data| <= capacity
      modifies this`position, this`size, this`cur, list.bufs
      ensures Valid() && position == old(position) + |data| && size == (if position > old(size) then position else old(size))
      ensures Mem(list) == Splice(old(Mem(list)), old(position), data)
    {
      hide Flatten, NodeAt, Chain, StandsAt;
      Stands(list, position);
      cur := CopyIn(cur, position % baseSize, data, list, position / baseSize, position);
      position := position + |data|;
      if position > size { size := position; }
    }

    // What the operations that may grow the list promise about the objects they touch.
    twostate lemma {:induction false} OnlyFresh()
      requires Extends()
      ensures fresh(Owned(list) - old(Owned(list)))
    {
      forall n | n in list.nodes && n !in old(list.nodes) ensures fresh(n) {
        var i :| 0 <= i < |list.nodes| && list.nodes[i] == n;
      }
      forall a | a in list.bufs && a !in old(list.bufs) ensures fresh(a) {
        var i :| 0 <= i < |list.bufs| && list.bufs[i] == a;
      }
    }

    method Write(data: seq<byte>)
      requires Valid()
      modifies this`position, this`size, this`capacity, this`cur, this`list, Owned(list)
      ensures Valid() && fresh(Owned(list) - old(Owned(list)))
      ensures position == old(position) + |data|
      ensures Contents() == Splice(old(Contents()), old(position), data)
      ensures capacity == Room(old(capacity), position, baseSize) && order == old(order)
    {
      hide Flatten, NodeAt, Chain, StandsAt, RoundUp, Room, Splice, Mem;
      if |data| == 0 {
        SpliceNothing(Contents(), position);
        EnoughRoom(capacity, position, baseSize);
        return;
      }
      AddCapacityIfNeeded(|data|);
      SplicePrefix(old(Mem(list)), Mem(list), size, position, data);
      Overwrite(data);
      OnlyFresh();
    }

    // ---- Reading ----

    method Read(n: nat) returns (r: ReadResult)
      requires Valid()
      modifies this`position, this`cur
      ensures Valid() && Contents() == old(Contents())
      ensures r == CopyOut(Contents(), old(position), n, capacity)
      ensures position == old(position) + (if r.Bytes? then n else 0)
    {
      hide Flatten, NodeAt, Chain, StandsAt;
      NodeAtIsNull(list, position);
      if n > size - position { return OutOfRange; }
      if cur == null { return NullCursor; }
      Stands(list, position);
      var data, at, _ := CopyFrom(cur, position % baseSize, n, list, position / baseSize, position);
      SlicePrefix(Mem(list), size, position, position + n);
      cur, position := at, position + n;
      return Bytes(data);
    }

    method ReadForPeek(n: nat) returns (r: ReadResult)
      requires Valid()
      ensures r == CopyOut(Contents(), position, n, capacity)
    {
      hide Flatten, NodeAt, Chain, StandsAt;
      NodeAtIsNull(list, position);
      if n > size - position { return OutOfRange; }
      if cur == null { return NullCursor; }
      Stands(list, position);
      var out, _, _ := CopyFrom(cur, position % baseSize, n, list, position / baseSize, position);
      SlicePrefix(Mem(list), size, position, position + n);
      return Bytes(out);
    }

    // ---- Seeking ----

    // `false` stands for the out_of_range that setPosition throws.
    method SetPosition(v: nat) returns (ok: bool)
      requires Valid()
      modifies this`position, this`size, this`cur
      ensures Valid() && Mem(list) == old(Mem(list))
      ensures ok <==> v <= capacity
      ensures position == if ok then v else old(position)
      ensures size == if ok && v > old(size) then v else old(size)
    {
      hide Flatten, NodeAt;
      if v > capacity { return false; }
      position := v;
      if position > size { size := position; }
      cur := Seek(root, v, list);
      return true;
    }

    method ReadForPeekAt(n: nat, at: nat) returns (r: ReadResult)
      requires Valid()
      ensures r == PeekAtOut(Mem(list), size, position, n, at)
    {
      hide Flatten, NodeAt, Chain, StandsAt;
      if n > size - position { return OutOfRange; }
      var node, off, k := Walk(root, at, list);
      if node == null { return NullCursor; }
      var out, _, ok := CopyFrom(node, off, n, list, k, at);
      return if ok then Bytes(out) else NullCursor;
    }

    // ---- Windows ----

    // The windows pushed for at most `len` readable bytes at the cursor.
    method GetReadBuffers(len: nat) returns (n: nat, iovs: seq<IoVec>)
      requires Valid()
      ensures n == (if len > size - position then size - position else len) && InBounds(iovs)
      ensures Gather(iovs) == Contents()[position..position + n]
    {
      hide Flatten, NodeAt, Chain, StandsAt;
      n := if len > size - position then size - position else len;
      if n == 0 { return n, []; }
      Stands(list, position);
      iovs := Windows(cur, position % baseSize, n, list, position / baseSize, position);
      GatherWindows(list, position / baseSize, position % baseSize, n, position);
      SlicePrefix(Mem(list), size, position, position + n);
    }

    // The same from position `at`, reached by stepping over `at / m_baseSize` nodes.
    method GetReadBuffersAt(len: nat, at: nat) returns (n: nat, iovs: seq<IoVec>)
      requires Valid()
      ensures n == (if at >= size then 0 else if len > size - at then size - at else len) && InBounds(iovs)
      ensures at <= size ==> Gather(iovs) == Contents()[at..at + n]
      ensures at > size ==> iovs == []
    {
      hide Flatten, NodeAt, StandsAt, Mem, Chain;
      if at >= size { return 0, []; }
      n := if len > size - at then size - at else len;
      Stands(list, at);
      StandsIn(list, NodeAt(list.nodes, list.b, at), at / baseSize, at % baseSize, at);
      ghost var k;
      var node;
      node, k := Skip(root, at / baseSize, list);
      StandsIs(list, k, at % baseSize, at);
      iovs := Windows(node, at % baseSize, n, list, k, at);
      GatherWindows(list, k, at % baseSize, n, at);
      SlicePrefix(Mem(list), size, at, at + n);
    }

    // Windows over the next `len` bytes of memory, which is grown to hold them.
    method GetWriteBuffers(len: nat) returns (iovs: seq<IoVec>)
      requires Valid()
      modifies this`capacity, this`cur, this`list, list.nodes
      ensures Valid() && Extends() && old(Mem(list)) <= Mem(list)
      ensures position + len <= capacity == Room(old(capacity), position + len, baseSize)
      ensures iovs == WindowsAt(list, position / baseSize, position % baseSize, len)
    {
      hide Flatten, NodeAt, Chain, StandsAt;
      if len == 0 { return []; }
      AddCapacityIfNeeded(len);
      Stands(list, position);
      iovs := Windows(cur, position % baseSize, len, list, position / baseSize, position);
    }
  }
}
