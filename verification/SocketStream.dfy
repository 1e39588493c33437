/** Moving bytes between a socket and a byte buffer: a window list is handed to the kernel and
    the cursor is committed by setPosition. */
module SocketStream {
  import opened Bits
  import opened Chunks
  import opened Buffer

  // recv fills the windows and the cursor is moved past what it delivered.
  method Commit(ba: ByteArray, iovs: seq<IoVec>, incoming: seq<byte>, ghost length: nat)
    requires ba.Valid() && |incoming| <= length && ba.position + length <= ba.capacity
    requires iovs == WindowsAt(ba.list, ba.position / ba.baseSize, ba.position % ba.baseSize, length) && incoming != []
    modifies ba`position, ba`size, ba`cur, ba.list.bufs
    ensures ba.Valid() && ba.position == old(ba.position) + |incoming|
    ensures ba.size == (if ba.position > old(ba.size) then ba.position else old(ba.size))
    ensures Mem(ba.list) == Splice(old(Mem(ba.list)), old(ba.position), incoming)
  {
    hide Flatten, NodeAt, Chain, Splice, WindowsAt, StandsAt;
    Stands(ba.list, ba.position);
    assert ba.position == ba.position / ba.baseSize * ba.baseSize + ba.position % ba.baseSize;
    Scatter(iovs, incoming, ba.list, ba.position / ba.baseSize, ba.position % ba.baseSize, length, ba.position);
    var _ := ba.SetPosition(ba.position + |incoming|);
  }

  /** read(ByteArray, length): `incoming` are the bytes recv delivers and `status` what it
      returns when it delivers none. A transfer has the effect of `Write(incoming)` on the bytes in
      use and on the cursor; only the room may be larger. */
  method ReadInto(ba: ByteArray, length: nat, connected: bool, incoming: seq<byte>, status: int) returns (rt: int)
    requires ba.Valid() && |incoming| <= length && status <= 0
    modifies ba`position, ba`size, ba`capacity, ba`cur, ba`list, Owned(ba.list)
    ensures ba.Valid() && fresh(Owned(ba.list) - old(Owned(ba.list)))
    ensures rt == if !connected then -1 else if incoming == [] then status else |incoming|
    ensures ba.position == old(ba.position) + (if rt > 0 then rt else 0)
    ensures ba.Contents() == if connected then Splice(old(ba.Contents()), old(ba.position), incoming) else old(ba.Contents())
    ensures ba.capacity == if connected then Room(old(ba.capacity), old(ba.position) + length, ba.baseSize) else old(ba.capacity)
  {
    hide Flatten, NodeAt, Chain, RoundUp, Splice, WindowsAt;
    if !connected { return -1; }
    var iovs := ba.GetWriteBuffers(length);
    SplicePrefix(old(Mem(ba.list)), Mem(ba.list), ba.size, ba.position, incoming);
    SpliceNothing(Mem(ba.list), ba.position);
    ba.OnlyFresh();
    if incoming == [] { return status; }
    Commit(ba, iovs, incoming, length);
    return |incoming|;
  }

  /** write(ByteArray, length): send takes the first `taken` bytes of the windows. The bytes on
      the wire and the cursor are those of `Read(taken)`. */
  method WriteFrom(ba: ByteArray, length: nat, connected: bool, taken: nat, status: int) returns (rt: int, wire: seq<byte>)
    requires ba.Valid() && status <= 0 && taken <= length && taken <= ba.size - ba.position
    modifies ba`position, ba`size, ba`cur
    ensures ba.Valid() && ba.Contents() == old(ba.Contents())
    ensures rt == if !connected then -1 else if taken == 0 then status else taken
    ensures ba.position == old(ba.position) + |wire|
    ensures wire == if rt > 0 then old(ba.Contents())[old(ba.position)..old(ba.position) + taken] else []
  {
    hide Flatten, NodeAt, Chain;
    wire := [];
    if !connected { return -1, []; }
    var n, iovs := ba.GetReadBuffers(length);
    if taken == 0 { return status, []; }
    wire := Gather(iovs)[..taken];
    var _ := ba.SetPosition(ba.position + taken);
    return taken, wire;
  }
}
