/** handlePutECStream of internal/edge/edge.go, without HTTP: read payloads, encode, fan out. */
module PutPath {
  import opened GF
  import opened Linear
  import opened Encodings
  import opened Vandermonde
  import opened ReedSolomon
  import opened Nodes
  import opened Metadata
  import opened Layout
  import Chunker

  // ---- PUT: slicing, encoding, fan-out ----

  method SliceStripe(p: Payload, k: nat) returns (data: seq<Shard>)
    requires |p.raw| <= k * p.shardSize
    ensures data == Sliced(p, k)
  {
    var size := p.shardSize;
    var padded := p.raw + seq(k * size - |p.raw|, _ => 0);
    data := [];
    for di := 0 to k
      invariant |data| == di
      invariant forall i :: 0 <= i < di ==> data[i] == Sliced(p, k)[i]
    {
      SliceIs(p, k, padded, di);
      data := data + [padded[di * size..(di + 1) * size]];
    }
  }

  /** Encode one payload into all of its K+M shards. */
  method EncodeStripe(e: Encoder, p: Payload) returns (all: seq<Shard>)
    requires e.Valid() && 0 < p.shardSize && |p.raw| <= e.k * p.shardSize
    ensures |all| == e.k + e.m
    ensures forall i :: 0 <= i < e.k + e.m ==> all[i] == ShardOf(e.E(), Sliced(p, e.k), p.shardSize, i)
  {
    var data := SliceStripe(p, e.k);
    var r := Encode(e, data);
    assert EqualSizes(data) && |data[0]| == p.shardSize;
    AllShards(e.E(), e.k, e.m, data, p.shardSize, r.parity);
    all := data + r.parity;
  }

  /** PUT each shard to its own node; the first failure aborts the request. */
  method FanOut(nodes: Cluster, all: seq<Shard>, addrs: seq<Addr>) returns (ok: bool, refs: seq<ChunkRef>)
    requires |all| <= |addrs|
    modifies nodes`disk
    ensures Grew(nodes.sha, old(nodes.disk), nodes.disk)
    ensures nodes.Up() ==> ok
    ensures ok ==> |refs| == |all|
    ensures ok ==> forall i :: 0 <= i < |refs| ==>
      refs[i] == ChunkRef(nodes.sha(all[i]), |all[i]|, [addrs[i]]) && (addrs[i], refs[i].id) in nodes.disk
  {
    refs := [];
    for si := 0 to |all|
      invariant Grew(nodes.sha, old(nodes.disk), nodes.disk)
      invariant |refs| == si
      invariant forall i :: 0 <= i < si ==>
        refs[i] == ChunkRef(nodes.sha(all[i]), |all[i]|, [addrs[i]]) && (addrs[i], refs[i].id) in nodes.disk
    {
      var id := nodes.sha(all[si]);
      var stored := nodes.Put(addrs[si], id, all[si], false);
      if !stored.Acked? {
        return false, [];
      }
      refs := refs + [ChunkRef(id, |all[si]|, [addrs[si]])];
    }
    ok := true;
  }

  /** The first K shards are the slices of the payload. */
  lemma DataFirst(e: Mat, k: nat, m: nat, p: Payload, all: seq<Shard>)
    requires IsEncoding(e, k, m) && |all| == k + m
    requires forall i :: 0 <= i < k + m ==> all[i] == ShardOf(e, Sliced(p, k), p.shardSize, i)
    ensures all[..k] == Sliced(p, k)
  {
    forall i | 0 <= i < k ensures all[..k][i] == Sliced(p, k)[i] {
      DataShards(e, k, m, Sliced(p, k), p.shardSize, i);
    }
  }

  /** One stripe: encode, name it after its data shards, place it, and PUT shard i to the i-th node. */
  method StoreStripe(nodes: Cluster, e: Encoder, p: Payload, cdc: bool, place: (ChunkID, nat) -> seq<Addr>)
    returns (ok: bool, placed: bool, st: Stripe)
    requires e.Valid() && 0 < p.shardSize && 0 < |p.raw| <= e.k * p.shardSize
    modifies nodes`disk
    ensures Grew(nodes.sha, old(nodes.disk), nodes.disk)
    ensures ok ==> StripeHolds(st, p, e.E(), e.k, e.m, nodes.sha) && ShardsStored(st, nodes.disk)
    ensures ok ==> st.dataLen == (if cdc then |p.raw| else 0) && StripePlaced(st, p, e.k, e.m, nodes.sha, place)
    ensures nodes.Up() && placed ==> ok
    ensures !placed ==> PlacementShort(place, e.k + e.m)
  {
    st := Stripe("", [], 0);
    var all := EncodeStripe(e, p);
    var stripeID := nodes.sha(Chunker.Concat(all[..e.k]));
    DataFirst(e.E(), e.k, e.m, p, all);
    ConcatSliced(p, e.k);
    var addrs := place(stripeID, e.k + e.m);
    if |addrs| < e.k + e.m {
      return false, false, st;
    }
    placed := true;
    var refs;
    ok, refs := FanOut(nodes, all, addrs);
    if ok {
      st := Stripe(stripeID, refs, if cdc then |p.raw| else 0);
    }
  }

  // ---- PUT: the stripe loop ----

  datatype PutResult = Stored(meta: ECMeta) | BadRequest | EmptyBody | TooFewNodes | NodeFailed | NotCommitted

  /** The next stripe payload: a CDC piece padded to a multiple of K, or up to K * shardSize bytes. */
  class PayloadSource {
    const k: nat
    const shardSize: nat
    const cdc: bool
    const reader: Chunker.CDCReader
    const src: Chunker.Source

    constructor (body: Bytes, k: nat, shardSize: nat, cdc: bool, cfg: Chunker.Params)
      requires 0 < k && 0 < shardSize && Chunker.Usable(cfg)
      ensures Valid() && Left() == body && fresh(reader) && fresh(src)
      ensures this.k == k && this.shardSize == shardSize && this.cdc == cdc && reader.cfg == cfg
    {
      this.k, this.shardSize, this.cdc := k, shardSize, cdc;
      var source := new Chunker.Source(body);
      this.src := source;
      this.reader := new Chunker.CDCReader(source, cfg);
    }

    ghost predicate Valid()
      reads reader, src
    {
      0 < k && 0 < shardSize && reader.src == src && reader.Valid()
    }

    ghost function Left(): (b: Bytes)
      reads reader, reader.src, src
    {
      if cdc then reader.Content() else src.rest
    }

    /** What the rest of the body will be cut into. */
    ghost function Rest(): (r: seq<Bytes>)
      reads reader, reader.src, src
      requires Valid()
    {
      ShardBytesPositive(k, shardSize);
      Pieces(Left(), cdc, reader.cfg, k * shardSize)
    }

    /** nextStripe in CDC mode: a piece, and the shard size that pads it to a multiple of K. */
    method NextPiece() returns (found: bool, p: Payload)
      requires Valid() && cdc
      modifies reader, src
      ensures Valid()
      ensures found <==> old(Left()) != []
      ensures !found ==> Left() == []
      ensures found ==> old(Left()) == p.raw + Left() && 0 < p.shardSize && 0 < |p.raw| <= k * p.shardSize
      ensures found ==> old(Rest()) == [p.raw] + Rest() && p.shardSize == PaddedShardSize(|p.raw|, k)
    {
      ghost var left := Left();
      var r := reader.Next();
      if r.Eof? {
        return false, Payload([], 0);
      }
      Chunker.NextSegment(reader.cfg, left, r.data, Left());
      return true, Payload(r.data, PaddedShardSize(|r.data|, k));
    }

    /** nextStripe in fixed mode: K shards' worth, less only at the end of the body. */
    method NextFixed() returns (found: bool, p: Payload)
      requires Valid() && !cdc
      modifies src
      ensures Valid()
      ensures found <==> old(Left()) != []
      ensures !found ==> Left() == []
      ensures found ==> old(Left()) == p.raw + Left() && p.shardSize == shardSize && 0 < |p.raw| <= k * shardSize
      ensures found && |p.raw| < k * shardSize ==> Left() == []
      ensures found ==> old(Rest()) == [p.raw] + Rest()
    {
      if src.rest == [] {
        return false, Payload([], 0);
      }
      var n := Chunker.Min(k * shardSize, |src.rest|);
      ShardBytesPositive(k, shardSize);
      NextBlock(src.rest, k * shardSize, n);
      p := Payload(src.rest[..n], shardSize);
      src.rest := src.rest[n..];
      found := true;
    }

    method Next() returns (found: bool, p: Payload, last: bool)
      requires Valid()
      modifies reader, src
      ensures Valid()
      ensures found <==> old(Left()) != []
      ensures !found ==> Left() == []
      ensures found ==> old(Left()) == p.raw + Left()
      ensures found ==> 0 < p.shardSize && 0 < |p.raw| <= k * p.shardSize
      ensures found && !cdc ==> p.shardSize == shardSize && (last <==> |p.raw| < k * shardSize)
      ensures found && last ==> !cdc && Left() == []
      ensures found ==> old(Rest()) == [p.raw] + Rest()
      ensures found ==> p.shardSize == if cdc then PaddedShardSize(|p.raw|, k) else shardSize
    {
      if cdc {
        found, p := NextPiece();
        last := false;
      } else {
        found, p := NextFixed();
        last := |p.raw| < k * shardSize;
      }
    }
  }

  datatype StepResult = Wrote(st: Stripe, p: Payload, last: bool) | Ended | Aborted(placed: bool)

  /** One turn of the stripe loop: read a payload, encode it, store its shards. */
  method PutNext(nodes: Cluster, e: Encoder, src: PayloadSource, place: (ChunkID, nat) -> seq<Addr>)
    returns (r: StepResult)
    requires e.Valid() && src.Valid() && src.k == e.k
    modifies nodes`disk, src.reader, src.src
    ensures src.Valid() && Grew(nodes.sha, old(nodes.disk), nodes.disk)
    ensures r.Aborted? && !r.placed ==> PlacementShort(place, e.k + e.m)
    ensures r.Aborted? && nodes.Up() ==> !r.placed
    ensures r.Ended? ==> old(src.Left()) == [] && src.Left() == []
    ensures r.Wrote? ==> old(src.Left()) == r.p.raw + src.Left() && |r.p.raw| > 0
    ensures r.Wrote? && r.last ==> src.Left() == []
    ensures r.Wrote? ==> old(src.Rest()) == [r.p.raw] + src.Rest()
    ensures r.Wrote? ==> r.p.shardSize == if src.cdc then PaddedShardSize(|r.p.raw|, e.k) else src.shardSize
    ensures r.Wrote? ==> StripePut(r.st, r.p, e.E(), e.k, e.m, nodes.sha, place, nodes.disk, r.last)
  {
    var found, p, last := src.Next();
    if !found {
      return Ended;
    }
    var stored, placed, st := StoreStripe(nodes, e, p, src.cdc, place);
    if !stored {
      return Aborted(placed);
    }
    return Wrote(st, p, last);
  }

  /** The loop of handlePutECStream over one source. */
  method PutStripes(nodes: Cluster, e: Encoder, src: PayloadSource, place: (ChunkID, nat) -> seq<Addr>)
    returns (ok: bool, placed: bool, stripes: seq<Stripe>, dataLen: nat, ghost ps: seq<Payload>)
    requires e.Valid() && src.Valid() && src.k == e.k
    modifies nodes`disk, src.reader, src.src
    ensures ok ==> StripesPut(stripes, ps, e.E(), e.k, e.m, nodes.sha, place, nodes.disk, false)
    ensures ok ==> Body(ps) == old(src.Left()) && dataLen == |Body(ps)|
    ensures ok ==> Raws(ps) == old(src.Rest()) && ShardSizes(ps, e.k, src.shardSize, src.cdc)
    ensures Grew(nodes.sha, old(nodes.disk), nodes.disk)
    ensures nodes.Up() && placed ==> ok
    ensures !placed ==> PlacementShort(place, e.k + e.m)
  {
    placed := true;
    ghost var body, pieces := src.Left(), src.Rest();
    stripes, dataLen, ps := [], 0, [];
    var finished := false;
    while !finished
      invariant src.Valid() && Taken(ps, body, src.Left(), pieces, src.Rest(), e.k, src.shardSize, src.cdc)
      invariant finished ==> src.Left() == []
      invariant StripesPut(stripes, ps, e.E(), e.k, e.m, nodes.sha, place, nodes.disk, !finished)
      invariant dataLen == |Body(ps)|
      invariant Grew(nodes.sha, old(nodes.disk), nodes.disk)
      decreases |src.Left()|, !finished
    {
      ghost var disk := nodes.disk;
      var r := PutNext(nodes, e, src, place);
      match r {
        case Aborted(found) => return false, found, [], 0, [];
        case Ended => finished := true;
        case Wrote(st, p, last) =>
          dataLen := dataLen + |p.raw|;
          StripesPutNext(stripes, ps, st, p, e.E(), e.k, e.m, nodes.sha, place, disk, nodes.disk, last);
          TakenNext(ps, p, body, src.Left(), pieces, src.Rest(), e.k, src.shardSize, src.cdc);
          stripes, ps := stripes + [st], ps + [p];
          finished := last;
      }
    }
    ok := true;
  }

  /** The loop over a body: its pieces become the payloads of the stripes. */
  method PutBody(nodes: Cluster, e: Encoder, body: Bytes, shardSize: nat, cdc: bool, cfg: Chunker.Params,
                 place: (ChunkID, nat) -> seq<Addr>)
    returns (ok: bool, placed: bool, stripes: seq<Stripe>, dataLen: nat, ghost ps: seq<Payload>)
    requires e.Valid() && 0 < e.k * shardSize && Chunker.Usable(cfg)
    modifies nodes`disk
    ensures ok ==> StripesPut(stripes, ps, e.E(), e.k, e.m, nodes.sha, place, nodes.disk, false)
    ensures ok ==> Body(ps) == body && dataLen == |body|
    ensures ok ==> Raws(ps) == Pieces(body, cdc, cfg, e.k * shardSize) && ShardSizes(ps, e.k, shardSize, cdc)
    ensures Grew(nodes.sha, old(nodes.disk), nodes.disk)
    ensures nodes.Up() && placed ==> ok
    ensures !placed ==> PlacementShort(place, e.k + e.m)
  {
    var src := new PayloadSource(body, e.k, shardSize, cdc, cfg);
    ok, placed, stripes, dataLen, ps := PutStripes(nodes, e, src, place);
  }

  /** handlePutECStream; committed is the outcome of the metadata commit. */
  method PutObject(nodes: Cluster, body: Bytes, k: int, m: int, shardSize: nat, cdc: bool,
                   cfg: Chunker.Params, totalDNs: nat, place: (ChunkID, nat) -> seq<Addr>, committed: bool)
    returns (r: PutResult, ghost ps: seq<Payload>, ghost e: Mat)
    requires 0 < shardSize && Chunker.Usable(cfg)
    modifies nodes`disk
    ensures r.BadRequest? <==> k <= 0 || m <= 0 || k + m > totalDNs || k + m > 256
    ensures r.EmptyBody? ==> body == []
    ensures r.NodeFailed? ==> !nodes.Up()
    ensures r.NotCommitted? ==> !committed
    ensures r.Stored? ==> committed
    ensures r.Stored? ==> body != []
    ensures r.TooFewNodes? ==> k > 0 && m > 0 && PlacementShort(place, k + m)
    ensures r.Stored? ==> r.meta.k == k && r.meta.m == m
    ensures r.Stored? ==> Describes(r.meta, ps, e, nodes.sha) && Body(ps) == body
    ensures r.Stored? && 0 < k ==> 0 < k * shardSize && Raws(ps) == Pieces(body, cdc, cfg, k * shardSize)
    ensures r.Stored? && 0 < k ==> ShardSizes(ps, k, shardSize, cdc)
    ensures r.Stored? ==> AllStored(r.meta.stripes, nodes.disk)
    ensures r.Stored? ==> AllPlaced(r.meta.stripes, ps, k, m, nodes.sha, place)
    ensures Grew(nodes.sha, old(nodes.disk), nodes.disk)
  {
    ps, e := [], [];
    if k <= 0 || m <= 0 || k + m > totalDNs {
      return BadRequest, ps, e;
    }
    var enc := BuildEncoder(k, m);
    if enc.BadParameters? {
      return BadRequest, ps, e;
    }
    e := enc.encoder.E();
    ShardBytesPositive(k, shardSize);
    var ok, placed, stripes, dataLen;
    ok, placed, stripes, dataLen, ps := PutBody(nodes, enc.encoder, body, shardSize, cdc, cfg, place);
    if !ok {
      return if placed then NodeFailed else TooFewNodes, ps, e;
    }
    if dataLen == 0 {
      return EmptyBody, ps, e;
    }
    if !committed {
      return NotCommitted, ps, e;
    }
    r := Stored(ECMeta(k, m, dataLen, stripes));
  }
}
