/** Typed writes and reads on a byte buffer, one at a time and as whole scripts. */
module Script {
  import opened Bits
  import opened Chunks
  import opened Endian
  import opened Buffer
  import opened Codec
  import opened Wire
  import Varint

  // The state after `data` was written at `p0` over `c0`, with room for `cap0` bytes before.
  ghost predicate Wrote(ba: ByteArray, c0: seq<byte>, p0: nat, cap0: nat, data: seq<byte>)
    requires ba.Valid() && p0 <= |c0|
    reads ba, ba.list.nodes, ba.list.bufs
  {
    && ba.position == p0 + |data|
    && ba.Contents() == Splice(c0, p0, data)
    && ba.capacity == Room(cap0, ba.position, ba.baseSize)
  }

  lemma {:induction false} RoomRoom(cap: nat, b: nat, e1: nat, e2: nat)
    requires b > 0 && e1 <= e2
    ensures Room(Room(cap, e1, b), e2, b) == Room(cap, e2, b)
  {
    hide RoundUp;
    if cap < e1 && e2 <= RoundUp(e1, b) {
      var k := RoundUp(e1, b) / b;
      assert RoundUp(e1, b) == k * b;
      RoundUpUnique(e2, b, k);
    }
  }

  lemma {:induction false} SplicedSlice(c: seq<byte>, p: nat, d: seq<byte>)
    requires p <= |c|
    ensures p + |d| <= |Splice(c, p, d)| && Splice(c, p, d)[p..p + |d|] == d
  {
  }

  // ---- Writing ----

  // The bytes of a number: the writeF* and write*int* methods up to their final write.
  method NumberBytes(item: Item, order: Order, host: Order) returns (bytes: seq<byte>)
    requires Typed(item) && item.Num?
    ensures bytes == Encode(item, order, host) && Spells(bytes, item, order)
  {
    hide Pow2, ToBytes, Varint.Encode, Varint.EncodeZigzag, Spells;
    EncodeSpells(item, order, host);
    match item.kind
    case Fixed(n, _) =>
      bytes := EncodeWord(Varint.ToUnsigned(item.v, 8 * n), n, order, host);
    case Var(w, signed) =>
      if signed { Varint.ZigzagValue(item.v, w); }
      var u: nat := if signed then Varint.EncodeZigzag(item.v, w) else item.v;
      bytes := Varint.EncodeLoop(u, w, if w == 32 then 5 else 10);
  }

  method LengthBytes(len: nat, p: Prefix, order: Order, host: Order) returns (bytes: seq<byte>)
    ensures bytes == EncodeLength(len, p, order, host)
  {
    hide Pow2, ToBytes, Varint.Encode;
    var u := len % Pow2(LengthBits(p));
    if p.PVar? { bytes := Varint.EncodeLoop(u, 64, 10); } else { bytes := EncodeWord(u, LengthBits(p) / 8, order, host); }
  }

  method WriteNumber(ba: ByteArray, item: Item)
    requires ba.Valid() && Typed(item) && item.Num?
    modifies ba`position, ba`size, ba`capacity, ba`cur, ba`list, Owned(ba.list)
    ensures ba.Valid() && ba.order == old(ba.order) && fresh(Owned(ba.list) - old(Owned(ba.list)))
    ensures Wrote(ba, old(ba.Contents()), old(ba.position), old(ba.capacity), Encode(item, ba.order, ba.host))
    ensures Spells(ba.Contents()[old(ba.position)..ba.position], item, ba.order)
  {
    hide NodeAt, Flatten, RoundUp, Room, Mem, Chain, Splice, Encode, Spells;
    var bytes := NumberBytes(item, ba.order, ba.host);
    SplicedSlice(ba.Contents(), ba.position, bytes);
    ba.Write(bytes);
  }

  method WriteLength(ba: ByteArray, len: nat, p: Prefix)
    requires ba.Valid()
    modifies ba`position, ba`size, ba`capacity, ba`cur, ba`list, Owned(ba.list)
    ensures ba.Valid() && ba.order == old(ba.order) && fresh(Owned(ba.list) - old(Owned(ba.list)))
    ensures Wrote(ba, old(ba.Contents()), old(ba.position), old(ba.capacity), EncodeLength(len, p, ba.order, ba.host))
  {
    hide NodeAt, Flatten, RoundUp, Room, Mem, Chain, Splice, EncodeLength;
    var bytes := LengthBytes(len, p, ba.order, ba.host);
    ba.Write(bytes);
  }

  // Two writes in a row are one write of both.
  lemma {:induction false} Combine(ba: ByteArray, c0: seq<byte>, p0: nat, cap0: nat, d: seq<byte>, e: seq<byte>)
    requires ba.Valid() && p0 <= |c0|
    requires Wrote(ba, Splice(c0, p0, d), p0 + |d|, Room(cap0, p0 + |d|, ba.baseSize), e)
    ensures Wrote(ba, c0, p0, cap0, d + e)
  {
    hide RoundUp, Flatten, NodeAt, Chain, Splice;
    SpliceSplice(c0, p0, d, e);
    RoomRoom(cap0, ba.baseSize, p0 + |d|, p0 + |d| + |e|);
  }

  method WriteText(ba: ByteArray, p: Prefix, s: seq<byte>)
    requires ba.Valid() && Typed(Str(p, s))
    modifies ba`position, ba`size, ba`capacity, ba`cur, ba`list, Owned(ba.list)
    ensures ba.Valid() && ba.order == old(ba.order) && fresh(Owned(ba.list) - old(Owned(ba.list)))
    ensures Wrote(ba, old(ba.Contents()), old(ba.position), old(ba.capacity), Encode(Str(p, s), ba.order, ba.host))
    ensures Spells(ba.Contents()[old(ba.position)..ba.position], Str(p, s), ba.order)
  {
    hide NodeAt, Flatten, RoundUp, Room, Splice, EncodeLength, Chain, Mem, Typed, Spells;
    EncodeSpells(Str(p, s), ba.order, ba.host);
    SplicedSlice(ba.Contents(), ba.position, Encode(Str(p, s), ba.order, ba.host));
    ghost var o0 := Owned(ba.list);
    WriteLength(ba, |s|, p);
    ghost var o1 := Owned(ba.list);
    ba.Write(s);
    assert Owned(ba.list) - o0 <= (Owned(ba.list) - o1) + (o1 - o0);
    Combine(ba, old(ba.Contents()), old(ba.position), old(ba.capacity), EncodeLength(|s|, p, ba.order, ba.host), s);
  }

  method WriteItem(ba: ByteArray, item: Item)
    requires ba.Valid() && Typed(item)
    modifies ba`position, ba`size, ba`capacity, ba`cur, ba`list, Owned(ba.list)
    ensures ba.Valid() && ba.order == old(ba.order) && fresh(Owned(ba.list) - old(Owned(ba.list)))
    ensures Wrote(ba, old(ba.Contents()), old(ba.position), old(ba.capacity), Encode(item, ba.order, ba.host))
    ensures Spells(ba.Contents()[old(ba.position)..ba.position], item, ba.order)
  {
    hide NodeAt, Flatten, RoundUp, Splice, Encode, Chain, Spells;
    if item.Num? { WriteNumber(ba, item); } else { WriteText(ba, item.p, item.s); }
  }

  ghost predicate AllTyped(items: seq<Item>) { forall i | 0 <= i < |items| :: Typed(items[i]) }

  lemma {:induction false} EncodeAllStep(items: seq<Item>, order: Order, host: Order)
    requires AllTyped(items)
    ensures items == [] ==> EncodeAll(items, order, host) == []
    ensures items != [] ==> Typed(items[0]) && AllTyped(items[1..])
    ensures items != [] ==> EncodeAll(items, order, host) == Encode(items[0], order, host) + EncodeAll(items[1..], order, host)
  {
    hide Encode;
  }

  method WriteAll(ba: ByteArray, items: seq<Item>)
    requires ba.Valid() && AllTyped(items)
    modifies ba`position, ba`size, ba`capacity, ba`cur, ba`list, Owned(ba.list)
    ensures ba.Valid() && ba.order == old(ba.order) && fresh(Owned(ba.list) - old(Owned(ba.list)))
    ensures Wrote(ba, old(ba.Contents()), old(ba.position), old(ba.capacity), EncodeAll(items, ba.order, ba.host))
    ensures SpellsAll(ba.Contents()[old(ba.position)..ba.position], items, ba.order)
    decreases |items|
  {
    hide SpellsAll, Spells, Chain, NodeAt, Flatten, RoundUp, Room, Encode, EncodeAll, Splice, Mem, Typed;
    EncodeAllStep(items, ba.order, ba.host);
    EncodeAllSpells(items, ba.order, ba.host);
    SplicedSlice(ba.Contents(), ba.position, EncodeAll(items, ba.order, ba.host));
    if items == [] {
      SpliceNothing(ba.Contents(), ba.position);
      EnoughRoom(ba.capacity, ba.position, ba.baseSize);
    } else {
      ghost var c0, p0, cap0, o0 := ba.Contents(), ba.position, ba.capacity, Owned(ba.list);
      WriteItem(ba, items[0]);
      ghost var o1 := Owned(ba.list);
      WriteAll(ba, items[1..]);
      assert Owned(ba.list) - o0 <= (Owned(ba.list) - o1) + (o1 - o0);
      Combine(ba, c0, p0, cap0, Encode(items[0], ba.order, ba.host), EncodeAll(items[1..], ba.order, ba.host));
    }
  }

  // ---- Reading ----

  // A typed read gives an item, throws out_of_range, or follows a null cursor.
  datatype ItemRead = Got(item: Item) | Threw | Crashed

  // The bytes from the cursor on.
  ghost function Ahead(ba: ByteArray): seq<byte>
    requires ba.Valid()
    reads ba, ba.list.nodes, ba.list.bufs
  {
    ba.Contents()[ba.position..]
  }

  // The cursor has moved `used` bytes on, and nothing else is different.
  twostate predicate Moved(ba: ByteArray, used: nat)
    requires old(ba.Valid())
    reads ba, ba.list.nodes, ba.list.bufs
  {
    && ba.Valid() && ba.position == old(ba.position) + used
    && ba.Contents() == old(ba.Contents())
  }

  // A plain read of one or more bytes never meets a null cursor.
  method ReadBytes(ba: ByteArray, n: nat) returns (ok: bool, bytes: seq<byte>)
    requires ba.Valid() && n >= 1
    modifies ba`position, ba`cur
    ensures ok <==> n <= |old(Ahead(ba))|
    ensures ok ==> bytes == old(Ahead(ba))[..n]
    ensures Moved(ba, if ok then n else 0)
  {
    hide Flatten, NodeAt, Chain;
    var r := ba.Read(n);
    if r.Bytes? { return true, r.data; }
    return false, [];
  }

  method ReadWord(ba: ByteArray, n: nat) returns (ok: bool, u: nat)
    requires ba.Valid() && n >= 1
    modifies ba`position, ba`cur
    ensures ok <==> n <= |old(Ahead(ba))|
    ensures ok ==> u == FromBytes(old(Ahead(ba))[..n], ba.order, ba.host)
    ensures Moved(ba, if ok then n else 0)
  {
    hide Flatten, NodeAt, Chain, FromBytes;
    var got, bytes := ReadBytes(ba, n);
    if !got { return false, 0; }
    return true, FromBytes(bytes, ba.order, ba.host);
  }

  // The loop of readUint32 and readUint64: a byte at a time, until one has its top bit clear or
  // the word is full.
  method ReadVarint(ba: ByteArray, w: nat) returns (d: Varint.Decoded)
    requires ba.Valid()
    modifies ba`position, ba`cur
    ensures d == Varint.Decode(old(Ahead(ba)), w)
    ensures Moved(ba, d.used)
  {
    hide Flatten, NodeAt, Chain, Or, And, Varint.ShiftLeft;
    ghost var s := Ahead(ba);
    var result, i, c := 0, 0, 0;
    while i < w
      invariant 0 <= i && 0 <= c <= |s| && Moved(ba, c)
      invariant Varint.Decode(s, w) == Later(Varint.DecodeFrom(s[c..], i, w, result), c)
      decreases w - i
    {
      var ok, bytes := ReadBytes(ba, 1);
      if !ok { return Varint.Short(c); }
      var b := bytes[0];
      assert s[c..][1..] == s[c + 1..];
      Varint.LowSeven(b);
      if b < 0x80 { return Varint.Value(Or(result, Varint.ShiftLeft(b, i, w)), c + 1); }
      result := Or(result, Varint.ShiftLeft(And(b, 0x7F), i, w));
      i, c := i + 7, c + 1;
    }
    return Varint.Value(result, c);
  }

  ghost function Later(d: Varint.Decoded, c: nat): Varint.Decoded {
    if d.Value? then Varint.Value(d.v, d.used + c) else Varint.Short(d.used + c)
  }

  method ReadLength(ba: ByteArray, p: Prefix) returns (d: Length)
    requires ba.Valid()
    modifies ba`position, ba`cur
    ensures d == DecodeLength(p, old(Ahead(ba)), ba.order, ba.host)
    ensures Moved(ba, d.used)
  {
    hide Flatten, NodeAt, Chain, FromBytes, Varint.DecodeFrom;
    if p.PVar? {
      var v := ReadVarint(ba, 64);
      return if v.Value? then Len(v.v, v.used) else NoLength(v.used);
    }
    var n := LengthBits(p) / 8;
    var ok, u := ReadWord(ba, n);
    return if ok then Len(u, n) else NoLength(0);
  }

  method ReadNumber(ba: ByteArray, k: Kind) returns (d: Decoded)
    requires ba.Valid() && ValidKind(k) && !k.Text?
    modifies ba`position, ba`cur
    ensures d == Decode(k, old(Ahead(ba)), ba.order, ba.host)
    ensures Moved(ba, d.used)
  {
    hide Flatten, NodeAt, Chain, FromBytes, Varint.DecodeFrom, Varint.DecodeZigzag;
    match k
    case Fixed(n, signed) =>
      var ok, u := ReadWord(ba, n);
      return if ok then Done(Num(k, if signed then Varint.ToSigned(u, 8 * n) else u), n) else Short(0);
    case Var(w, signed) =>
      var v := ReadVarint(ba, w);
      return if v.Value? then Done(Num(k, if signed then Varint.DecodeZigzag(v.v, w) else v.v), v.used) else Short(v.used);
  }

  // What a typed read of bytes `ahead` must yield; `room` is what lies between the cursor and
  // the end of the memory.
  function ReadSpec(k: Kind, ahead: seq<byte>, room: int, order: Order, host: Order): ItemRead
    requires ValidKind(k)
  {
    match Decode(k, ahead, order, host)
    case Short(_) => Threw
    case Done(item, used) => if item.Str? && item.s == [] && used == room then Crashed else Got(item)
  }

  method ReadText(ba: ByteArray, p: Prefix) returns (r: ItemRead)
    requires ba.Valid()
    modifies ba`position, ba`cur
    ensures r == ReadSpec(Text(p), old(Ahead(ba)), ba.capacity - old(ba.position), ba.order, ba.host)
    ensures Moved(ba, Decode(Text(p), old(Ahead(ba)), ba.order, ba.host).used)
  {
    hide Flatten, NodeAt, Chain, DecodeLength;
    ghost var s := Ahead(ba);
    var len := ReadLength(ba, p);
    if len.NoLength? { return Threw; }
    assert s[len.used..] == Ahead(ba);
    ghost var c, q := ba.Contents(), ba.position;
    var rest := ba.Read(len.n);
    assert rest.Bytes? ==> rest.data == c[q..q + len.n] == s[len.used..len.used + len.n];
    return if rest.OutOfRange? then Threw else if rest.NullCursor? then Crashed else Got(Str(p, rest.data));
  }

  method ReadItem(ba: ByteArray, k: Kind) returns (r: ItemRead)
    requires ba.Valid() && ValidKind(k)
    modifies ba`position, ba`cur
    ensures r == ReadSpec(k, old(Ahead(ba)), ba.capacity - old(ba.position), ba.order, ba.host)
    ensures Moved(ba, Decode(k, old(Ahead(ba)), ba.order, ba.host).used)
  {
    hide Flatten, NodeAt, Chain, DecodeLength, FromBytes, Varint.DecodeFrom, Varint.DecodeZigzag;
    if k.Text? {
      r := ReadText(ba, k.p);
    } else {
      var d := ReadNumber(ba, k);
      r := if d.Done? then Got(d.item) else Threw;
    }
  }

  // ---- Round trips ----

  function Kinds(items: seq<Item>): (ks: seq<Kind>)
    ensures |ks| == |items| && forall i | 0 <= i < |items| :: ks[i] == KindOf(items[i])
  {
    seq(|items|, i requires 0 <= i < |items| => KindOf(items[i]))
  }

  ghost predicate AllStorable(items: seq<Item>) { forall i | 0 <= i < |items| :: Storable(items[i]) }

  predicate EndsInEmptyText(items: seq<Item>) {
    items != [] && items[|items| - 1].Str? && items[|items| - 1].s == []
  }

  // Reading one more item of a run of encoded items.
  lemma {:induction false} NextItem(items: seq<Item>, i: nat, rest: seq<byte>, room: int, order: Order, host: Order)
    requires AllStorable(items) && i < |items| && |EncodeAll(items[i..], order, host)| + |rest| <= room
    ensures var ahead := EncodeAll(items[i..], order, host) + rest;
            var e := Encode(items[i], order, host);
            && ValidKind(KindOf(items[i]))
            && Decode(KindOf(items[i]), ahead, order, host) == Done(items[i], |e|)
            && |e| <= |ahead| && ahead[|e|..] == EncodeAll(items[i + 1..], order, host) + rest
            && ReadSpec(KindOf(items[i]), ahead, room, order, host)
               == (if i + 1 == |items| && EndsInEmptyText(items) && |e| == room then Crashed else Got(items[i]))
  {
    hide Encode, Decode;
    var tail := EncodeAll(items[i + 1..], order, host) + rest;
    assert items[i..][1..] == items[i + 1..];
    assert EncodeAll(items[i..], order, host) + rest == Encode(items[i], order, host) + tail;
    ItemRoundTrip(items[i], tail, order, host);
    if i + 1 < |items| { ItemRoundTrip(items[i + 1], [], order, host); }
  }

  method ReadNext(ba: ByteArray, k: Kind, ghost items: seq<Item>, ghost i: nat, ghost rest: seq<byte>) returns (r: ItemRead)
    requires ba.Valid() && AllStorable(items) && i < |items| && k == KindOf(items[i])
    requires Ahead(ba) == EncodeAll(items[i..], ba.order, ba.host) + rest
    modifies ba`position, ba`cur
    ensures Moved(ba, |Encode(items[i], ba.order, ba.host)|)
    ensures Ahead(ba) == EncodeAll(items[i + 1..], ba.order, ba.host) + rest
    ensures r == if i + 1 == |items| && EndsInEmptyText(items) && ba.position == ba.capacity then Crashed else Got(items[i])
  {
    hide Flatten, NodeAt, Chain, Encode, Decode, ReadSpec, EncodeAll;
    NextItem(items, i, rest, ba.capacity - ba.position, ba.order, ba.host);
    ghost var ahead, p := Ahead(ba), ba.position;
    r := ReadItem(ba, k);
    assert Ahead(ba) == ahead[ba.position - p..];
  }

  /** Reads back a run of encoded items that starts at the cursor: every item comes back, unless
      the last one is an empty string that ends at the very end of the memory. */
  method ReadAll(ba: ByteArray, ks: seq<Kind>, ghost items: seq<Item>, ghost rest: seq<byte>) returns (got: seq<Item>, ok: bool)
    requires ba.Valid() && AllStorable(items) && ks == Kinds(items)
    requires Ahead(ba) == EncodeAll(items, ba.order, ba.host) + rest
    modifies ba`position, ba`cur
    ensures Moved(ba, |EncodeAll(items, ba.order, ba.host)|)
    ensures ok <==> !(EndsInEmptyText(items) && ba.position == ba.capacity)
    ensures ok ==> got == items
    decreases |items|
  {
    hide Flatten, NodeAt, Chain, Mem, Encode, EncodeAll, Kinds, Storable, EndsInEmptyText;
    StorableIsTyped(items);
    EncodeAllStep(items, ba.order, ba.host);
    if ks == [] {
      NoItems();
      return [], true;
    }
    OneItemLess(items);
    EncodeAllStep(items[1..], ba.order, ba.host);
    var r := ReadNext(ba, ks[0], items, 0, rest);
    if !r.Got? { return [], false; }
    got, ok := ReadAll(ba, ks[1..], items[1..], rest);
    got := [r.item] + got;
  }

  lemma {:induction false} NoItems()
    ensures !EndsInEmptyText([])
  {
  }

  lemma {:induction false} OneItemLess(items: seq<Item>)
    requires items != []
    ensures items[0..] == items && items == [items[0]] + items[1..] && Kinds(items)[1..] == Kinds(items[1..])
    ensures |items| > 1 ==> EndsInEmptyText(items[1..]) == EndsInEmptyText(items)
    ensures |items| == 1 ==> items[1..] == [] && !EndsInEmptyText(items[1..])
  {
  }

  lemma {:induction false} StorableIsTyped(items: seq<Item>)
    requires AllStorable(items)
    ensures AllTyped(items)
  {
  }

  lemma {:induction false} SplicedAhead(c: seq<byte>, p: nat, e: seq<byte>)
    requires p <= |c|
    ensures p + |e| <= |Splice(c, p, e)| && Splice(c, p, e)[p..] == e + Splice(c, p, e)[p..][|e|..]
  {
  }

  /** Writes a script of typed values, goes back to where it started and reads the same kinds: the
      values come back in order and the cursor ends where the writes left it. The one exception
      is a script whose last value is an empty string and whose bytes end exactly at the end of
      the memory. Nothing depends on the node size, the wire order or the host. */
  method RoundTrip(ba: ByteArray, items: seq<Item>) returns (got: seq<Item>, ok: bool)
    requires ba.Valid() && AllStorable(items)
    modifies ba`position, ba`size, ba`capacity, ba`cur, ba`list, Owned(ba.list)
    ensures ba.Valid()
    ensures ba.position == old(ba.position) + |EncodeAll(items, ba.order, ba.host)|
    ensures ok <==> !(EndsInEmptyText(items) && Room(old(ba.capacity), ba.position, ba.baseSize) == ba.position)
    ensures ok ==> got == items
  {
    hide Flatten, NodeAt, Chain, Encode, EncodeAll, RoundUp, Room, Mem, Splice, AllStorable, AllTyped, Kinds, EndsInEmptyText, SpellsAll;
    StorableIsTyped(items);
    var start := ba.position;
    ghost var c0, e := ba.Contents(), EncodeAll(items, ba.order, ba.host);
    WriteAll(ba, items);
    var _ := ba.SetPosition(start);
    SplicedAhead(c0, start, e);
    assert Ahead(ba) == e + Ahead(ba)[|e|..];
    got, ok := ReadAll(ba, Kinds(items), items, Ahead(ba)[|e|..]);
  }

  /** One empty string with a two-byte length, in a buffer with one node of two bytes: the read of its
      bytes follows the null cursor. */
  method EmptyTextAtTheEnd(host: Order) returns (ok: bool)
    ensures !ok
  {
    var ba := new ByteArray(2, host);
    var items := [Str(P16, [])];
    TwoBytes(ba.order, host);
    var got;
    hide NodeAt, Flatten, Chain, Mem, Encode, EncodeAll, RoundUp;
    got, ok := RoundTrip(ba, items);
  }

  lemma {:induction false} TwoBytes(order: Order, host: Order)
    ensures var items := [Str(P16, [])];
            AllStorable(items) && EndsInEmptyText(items) && |EncodeAll(items, order, host)| == 2
  {
    hide Pow2, ToBytes;
    var items := [Str(P16, [])];
    Zero();
    WireBytesAreHostIndependent(0, 2, order, host);
    assert items[1..] == [];
  }

  lemma {:induction false} Zero()
    ensures 0 < Pow2(64) && 0 < Pow2(16) && 0 % Pow2(16) == 0
  {
  }
}
