/** The object records of internal/store/store.go that placement, repair, collection and audit read. */
module Metadata {
  import opened Nodes

  datatype ChunkRef = ChunkRef(id: ChunkID, size: nat, replicas: seq<Addr>)

  datatype Stripe = Stripe(stripeID: ChunkID, shards: seq<ChunkRef>, dataLen: nat)

  /** EC nil is NoEC. An object has chunks or stripes. */
  datatype ECParams = NoEC | EC(k: int, m: int)

  /** An int64. */
  type Version = v: int | -0x8000_0000_0000_0000 <= v <= 0x7fff_ffff_ffff_ffff

  /** A creation time of 0 is the zero time. */
  datatype ObjectMeta = ObjectMeta(bucket: string, key: string, size: int, contentType: string, etag: string,
                                   chunks: seq<ChunkRef>, ec: ECParams, stripes: seq<Stripe>,
                                   version: Version, createdAt: nat, tier: string)

  predicate IsEC(o: ObjectMeta) { o.ec.EC? && |o.stripes| > 0 }

  /** A chunk expected on a node. */
  datatype Ref = Ref(addr: Addr, id: ChunkID)

  function RefsOfChunk(c: ChunkRef): (r: seq<Ref>)
  {
    seq(|c.replicas|, i requires 0 <= i < |c.replicas| => Ref(c.replicas[i], c.id))
  }

  function RefsOfChunks(cs: seq<ChunkRef>): (r: seq<Ref>) {
    if cs == [] then [] else RefsOfChunks(cs[..|cs| - 1]) + RefsOfChunk(cs[|cs| - 1])
  }

  function RefsOfStripes(ss: seq<Stripe>): (r: seq<Ref>) {
    if ss == [] then [] else RefsOfStripes(ss[..|ss| - 1]) + RefsOfChunks(ss[|ss| - 1].shards)
  }

  /** Every (node, chunk) pair the records mention, in the order they are walked. */
  function Refs(objs: seq<ObjectMeta>): (r: seq<Ref>) {
    if objs == [] then []
    else
      var o := objs[|objs| - 1];
      Refs(objs[..|objs| - 1]) + RefsOfChunks(o.chunks) + RefsOfStripes(o.stripes)
  }
}

/** Which (node, chunk) pairs records mention. */
module References {
  import opened Nodes
  import opened Metadata

  predicate Refers(c: ChunkRef, a: Addr, id: ChunkID) { c.id == id && a in c.replicas }

  predicate ChunksMention(cs: seq<ChunkRef>, a: Addr, id: ChunkID) { exists c <- cs :: Refers(c, a, id) }

  predicate StripesMention(ss: seq<Stripe>, a: Addr, id: ChunkID) { exists s <- ss :: ChunksMention(s.shards, a, id) }

  predicate ObjectMentions(o: ObjectMeta, a: Addr, id: ChunkID) {
    ChunksMention(o.chunks, a, id) || StripesMention(o.stripes, a, id)
  }

  /** Some record has a chunk or a shard with this id on this node. */
  predicate Mentions(objs: seq<ObjectMeta>, a: Addr, id: ChunkID) { exists o <- objs :: ObjectMentions(o, a, id) }

  lemma RefOfChunk(c: ChunkRef, a: Addr, id: ChunkID)
    ensures Ref(a, id) in RefsOfChunk(c) <==> Refers(c, a, id)
  {
    if Refers(c, a, id) {
      var i :| 0 <= i < |c.replicas| && c.replicas[i] == a;
      assert RefsOfChunk(c)[i] == Ref(a, id);
    }
  }

  lemma {:induction false} RefOfChunks(cs: seq<ChunkRef>, a: Addr, id: ChunkID)
    ensures Ref(a, id) in RefsOfChunks(cs) <==> ChunksMention(cs, a, id)
  {
    if cs != [] {
      var n := |cs| - 1;
      assert cs == cs[..n] + [cs[n]];
      RefOfChunks(cs[..n], a, id);
      RefOfChunk(cs[n], a, id);
    }
  }

  lemma {:induction false} RefOfStripes(ss: seq<Stripe>, a: Addr, id: ChunkID)
    ensures Ref(a, id) in RefsOfStripes(ss) <==> StripesMention(ss, a, id)
  {
    if ss != [] {
      var n := |ss| - 1;
      assert ss == ss[..n] + [ss[n]];
      RefOfStripes(ss[..n], a, id);
      RefOfChunks(ss[n].shards, a, id);
    }
  }

  /** The walk over the records meets exactly the pairs they mention. */
  lemma {:induction false} RefsMean(objs: seq<ObjectMeta>, a: Addr, id: ChunkID)
    ensures Ref(a, id) in Refs(objs) <==> Mentions(objs, a, id)
  {
    if objs != [] {
      var n := |objs| - 1;
      assert objs == objs[..n] + [objs[n]];
      RefsMean(objs[..n], a, id);
      RefOfChunks(objs[n].chunks, a, id);
      RefOfStripes(objs[n].stripes, a, id);
      assert Mentions(objs, a, id) <==> Mentions(objs[..n], a, id) || ObjectMentions(objs[n], a, id);
    }
  }
}
