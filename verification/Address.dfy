/** Actor addresses as bytes: a shard id, then up to eight layers of type id and actor id. */
module Address {
  import opened Bytes

  const SHARD_BYTES: nat := 4
  const TYPE_BYTES: nat := 2
  const LAYER_BYTES: nat := 6
  const MAX_LAYER: nat := 8
  const MAX_BYTES: nat := 52

  datatype Layer = Layer(tid: nat, id: nat)

  predicate LayerFits(l: Layer) {
    l.tid < U16 && l.id < U32
  }

  /** `address`: the used length and the fixed 52 byte buffer. */
  datatype Addr = Addr(length: nat, data: seq<byte>)

  predicate ValidAddr(a: Addr) {
    |a.data| == MAX_BYTES && SHARD_BYTES <= a.length <= MAX_BYTES && (a.length - SHARD_BYTES) % LAYER_BYTES == 0
  }

  function LayerCount(a: Addr): nat
    requires ValidAddr(a)
  {
    (a.length - SHARD_BYTES) / LAYER_BYTES
  }

  /** memcpy of `bytes` to `data + at`. */
  function Write(data: seq<byte>, at: nat, bytes: seq<byte>): (r: seq<byte>)
    requires at + |bytes| <= |data|
    ensures |r| == |data|
  {
    data[..at] + bytes + data[at + |bytes|..]
  }

  lemma WriteRead(data: seq<byte>, at: nat, bytes: seq<byte>)
    requires at + |bytes| <= |data|
    ensures Write(data, at, bytes)[at..at + |bytes|] == bytes
    ensures forall lo, hi :: 0 <= lo <= hi <= |data| && (hi <= at || at + |bytes| <= lo) ==>
              Write(data, at, bytes)[lo..hi] == data[lo..hi]
  {
  }

  /** `scope_builder(shard_id)` over any previous buffer contents. */
  function OnShard(shard: nat, junk: seq<byte>): Addr
    requires |junk| == MAX_BYTES
  {
    Addr(SHARD_BYTES, Write(junk, 0, WordBytes(shard)))
  }

  /** `enter_sub_scope` and `make_address`: append one layer. */
  function Append(a: Addr, l: Layer): Addr
    requires ValidAddr(a) && a.length + LAYER_BYTES <= MAX_BYTES
  {
    Addr(a.length + LAYER_BYTES, Write(a.data, a.length, HalfBytes(l.tid) + WordBytes(l.id)))
  }

  function ShardOf(a: Addr): nat
    requires ValidAddr(a)
  {
    Word(a.data[..SHARD_BYTES])
  }

  /** The `i`-th layer as the instance maps and the actor itself read it. */
  function LayerAt(a: Addr, i: nat): Layer
    requires ValidAddr(a) && i < LayerCount(a)
  {
    var at := SHARD_BYTES + LAYER_BYTES * i;
    Layer(Half(a.data[at..at + TYPE_BYTES]), Word(a.data[at + TYPE_BYTES..at + LAYER_BYTES]))
  }

  /** The shard id reads back, and the address starts without layers. */
  lemma OnShardReads(shard: nat, junk: seq<byte>)
    requires |junk| == MAX_BYTES && shard < U32
    ensures var a := OnShard(shard, junk); ValidAddr(a) && ShardOf(a) == shard && LayerCount(a) == 0
  {
    WordWraps(shard);
    WriteRead(junk, 0, WordBytes(shard));
    assert OnShard(shard, junk).data[..SHARD_BYTES] == OnShard(shard, junk).data[0..0 + |WordBytes(shard)|];
  }

  /** Appending a layer keeps the shard and the layers below it and reads back as given. */
  lemma AppendReads(a: Addr, l: Layer)
    requires ValidAddr(a) && a.length + LAYER_BYTES <= MAX_BYTES && LayerFits(l)
    ensures var r := Append(a, l);
      && ValidAddr(r) && LayerCount(r) == LayerCount(a) + 1 && ShardOf(r) == ShardOf(a)
      && LayerAt(r, LayerCount(a)) == l
      && (forall i :: 0 <= i < LayerCount(a) ==> LayerAt(r, i) == LayerAt(a, i))
  {
    var r, n := Append(a, l), LayerCount(a);
    var bytes := HalfBytes(l.tid) + WordBytes(l.id);
    WriteRead(a.data, a.length, bytes);
    HalfRoundTrip(l.tid);
    WordWraps(l.id);
    var at := SHARD_BYTES + LAYER_BYTES * n;
    assert at == a.length;
    assert r.data[at..at + TYPE_BYTES] == r.data[at..at + LAYER_BYTES][..TYPE_BYTES] == HalfBytes(l.tid);
    assert r.data[at + TYPE_BYTES..at + LAYER_BYTES] == r.data[at..at + LAYER_BYTES][TYPE_BYTES..];
    assert r.data[at..at + LAYER_BYTES][TYPE_BYTES..] == WordBytes(l.id);
  }

  // ----- The method type id in the tail -----

  function SetMethodTid(a: Addr, tid: nat): Addr
    requires ValidAddr(a)
  {
    a.(data := Write(a.data, MAX_BYTES - TYPE_BYTES, HalfBytes(tid)))
  }

  function GetMethodTid(a: Addr): nat
    requires ValidAddr(a)
  {
    Half(a.data[MAX_BYTES - TYPE_BYTES..])
  }

  /** The bytes that routing and instance maps read. */
  function RouteBytes(a: Addr): seq<byte>
    requires ValidAddr(a)
  {
    a.data[..a.length]
  }

  lemma MethodTidRoundTrip(a: Addr, tid: nat)
    requires ValidAddr(a) && tid < U16
    ensures ValidAddr(SetMethodTid(a, tid)) && GetMethodTid(SetMethodTid(a, tid)) == tid
  {
    WriteRead(a.data, MAX_BYTES - TYPE_BYTES, HalfBytes(tid));
    var r := SetMethodTid(a, tid);
    assert r.data[MAX_BYTES - TYPE_BYTES..] == r.data[MAX_BYTES - TYPE_BYTES..MAX_BYTES];
    HalfRoundTrip(tid);
  }

  /**
   Writing the method type id leaves the route alone for up to seven layers; with eight it does
   so exactly when the id's two high bytes already spell that type id.
   */
  lemma TidKeepsRouteIff(a: Addr, tid: nat)
    requires ValidAddr(a) && tid < U16
    ensures RouteBytes(SetMethodTid(a, tid)) == RouteBytes(a) <==>
            LayerCount(a) < MAX_LAYER || LayerAt(a, MAX_LAYER - 1).id / U16 == tid
  {
    var at := MAX_BYTES - TYPE_BYTES;
    WriteRead(a.data, at, HalfBytes(tid));
    if LayerCount(a) < MAX_LAYER {
      assert a.length <= at;
    } else {
      assert a.length == MAX_BYTES;
      HighHalf(a.data[48..52]);
      assert a.data[48..52][2..] == a.data[at..];
      assert LayerAt(a, 7).id == Word(a.data[48..52]);
      assert a.data[..MAX_BYTES] == a.data[..at] + a.data[at..];
      var r := SetMethodTid(a, tid);
      assert r.data[..MAX_BYTES] == a.data[..at] + HalfBytes(tid);
      HalfIsBytes(a.data[at..]);
      HalfRoundTrip(tid);
    }
  }

  /** An address of `n` layers on one shard, each of the same type and id. */
  function Nested(shard: nat, l: Layer, n: nat): (a: Addr)
    requires n <= MAX_LAYER
    ensures ValidAddr(a) && LayerCount(a) == n
  {
    if n == 0 then OnShard(shard, seq(MAX_BYTES, _ => 0)) else Append(Nested(shard, l, n - 1), l)
  }

  /** Eight layers do occur: there the stamp changes the last actor's id, and seven layers are safe. */
  lemma EightLayersClash(shard: nat, l: Layer, tid: nat)
    requires LayerFits(l) && tid < U16 && l.id / U16 != tid
    ensures RouteBytes(SetMethodTid(Nested(shard, l, 8), tid)) != RouteBytes(Nested(shard, l, 8))
    ensures RouteBytes(SetMethodTid(Nested(shard, l, 7), tid)) == RouteBytes(Nested(shard, l, 7))
  {
    AppendReads(Nested(shard, l, 7), l);
    TidKeepsRouteIff(Nested(shard, l, 8), tid);
    TidKeepsRouteIff(Nested(shard, l, 7), tid);
  }
}
