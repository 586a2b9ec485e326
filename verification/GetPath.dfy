/** parallelFetchShards and handleGetEC of internal/edge/edge.go, without HTTP. Shards
    are read from the nodes; the order in which the fetches finish is an arbitrary parameter. */
module GetPath {
  import opened GF
  import opened Linear
  import opened Encodings
  import opened Vandermonde
  import opened ReedSolomon
  import opened Nodes
  import opened Metadata
  import opened Layout
  import opened Retrieval
  import Chunker

  /** One fetch goroutine: read from the recorded addresses and check the hash. */
  method FetchShard(nodes: Cluster, c: ChunkRef) returns (ok: bool, body: Bytes)
    ensures ok ==> nodes.sha(body) == c.id
    ensures Intact(c, nodes.sha, nodes.disk, nodes.down) ==> ok
  {
    var r := nodes.Read(c.id, c.replicas);
    if r.Failed? || nodes.sha(r.body) != c.id {
      return false, [];
    }
    return true, r.body;
  }

  /** Collect fetches in arrival order until quorum of them are verified. */
  method ParallelFetch(nodes: Cluster, refs: seq<ChunkRef>, order: seq<nat>, quorum: nat)
    returns (out: array<Shard>, survivors: nat, ghost got: set<nat>)
    requires IsArrivalOrder(order, |refs|)
    ensures fresh(out) && survivors == |got| && Fetches(refs, nodes.sha, out[..], got)
    ensures 0 < quorum <= |Available(refs, nodes.sha, nodes.disk, nodes.down)| ==> survivors == quorum
  {
    out := new Shard[|refs|](_ => []);
    survivors, got := 0, {};
    ghost var available := Available(refs, nodes.sha, nodes.disk, nodes.down);
    for i := 0 to |order|
      invariant survivors == |got| && Fetches(refs, nodes.sha, out[..], got)
      invariant forall j <- got :: j in order[..i]
      invariant forall j <- available :: j in order[..i] ==> j in got
      invariant quorum > 0 ==> survivors < quorum
    {
      var j := order[i];
      assert order[..i + 1] == order[..i] + [j] && j !in order[..i];
      var ok, body := FetchShard(nodes, refs[j]);
      if ok {
        SetShard(out, j, body);
        survivors, got := survivors + 1, got + {j};
        if survivors == quorum {
          return;
        }
      }
    }
    assert order[..|order|] == order;
    MoreFetched(available, got);
  }

  method SetShard(out: array<Shard>, j: nat, body: Shard)
    requires j < out.Length
    modifies out
    ensures out[..] == old(out[..])[j := body]
  {
    out[j] := body;
  }

  lemma MoreFetched(available: set<nat>, got: set<nat>)
    requires forall j <- available :: j in got
    ensures |available| <= |got|
  {
    assert got == available + (got - available);
  }

  /** Fetch a stripe and rebuild its data shards. */
  method GetStripe(nodes: Cluster, e: Encoder, st: Stripe, order: seq<nat>, ghost p: Payload)
    returns (ok: bool, data: seq<Shard>)
    requires e.Valid() && IsArrivalOrder(order, |st.shards|)
    ensures StripeHolds(st, p, e.E(), e.k, e.m, nodes.sha) && Injective(nodes.sha) ==>
      && (ok ==> data == Sliced(p, e.k))
      && (Readable(st, e.k, nodes.sha, nodes.disk, nodes.down) ==> ok)
    ensures ok ==> |data| == e.k
  {
    var shards, survivors, got := ParallelFetch(nodes, st.shards, order, e.k);
    if survivors < e.k {
      return false, [];
    }
    if StripeHolds(st, p, e.E(), e.k, e.m, nodes.sha) && Injective(nodes.sha) {
      FetchedIsErased(st, p, e.E(), e.k, e.m, nodes.sha, shards[..], got);
    }
    ok := Recover(e, shards, Sliced(p, e.k), p.shardSize, got);
    data := if ok then shards[..e.k] else [];
  }

  /** Write the data shards of one stripe, trimmed. */
  method WriteStripe(data: seq<Shard>, dataLen: nat, remaining: int, ghost p: Payload)
    returns (out: Bytes, left: int)
    ensures data == Sliced(p, |data|) && Ends(dataLen, remaining, p, |data|) ==>
      out == p.raw && left == remaining - |p.raw|
  {
    out, left := [], remaining;
    var stripeRemaining := if dataLen > 0 then dataLen else -1;
    ghost var fine := data == Sliced(p, |data|) && Ends(dataLen, remaining, p, |data|);
    var di := 0;
    while di < |data| && left > 0
      invariant 0 <= di <= |data|
      invariant fine ==> Written(p, dataLen, remaining, di, out, left, stripeRemaining)
      invariant fine && dataLen > 0 ==> stripeRemaining > 0
    {
      var toWrite := Trim(data[di], stripeRemaining, left);
      if fine { WriteNext(p, |data|, dataLen, remaining, di, out, left, stripeRemaining); }
      out := out + toWrite;
      left := left - |toWrite|;
      di := di + 1;
      if stripeRemaining >= 0 {
        stripeRemaining := stripeRemaining - |toWrite|;
        if stripeRemaining <= 0 {
          break;
        }
      }
    }
    if fine { WriteDone(p, |data|, dataLen, remaining, di, out, left, stripeRemaining); }
  }

  // ---- the object ----

  datatype GetResult = Complete(body: Bytes) | Incomplete(body: Bytes)

  /** No wrong byte is written: the whole body, or a beginning of it that is reported as broken off. */
  ghost predicate Truthful(r: GetResult, body: Bytes) { r.body <= body && (r.Complete? ==> r.body == body) }

  /** One turn of the stripe loop. */
  method GetNext(nodes: Cluster, e: Encoder, st: Stripe, order: seq<nat>, remaining: int, ghost p: Payload)
    returns (ok: bool, out: Bytes, left: int)
    requires e.Valid() && IsArrivalOrder(order, |st.shards|)
    ensures StripeKnown(st, p, e.E(), e.k, e.m, nodes.sha, remaining) ==>
      && (ok ==> out == p.raw && left == remaining - |p.raw|)
      && (Readable(st, e.k, nodes.sha, nodes.disk, nodes.down) ==> ok)
  {
    var data;
    ok, data := GetStripe(nodes, e, st, order, p);
    if !ok {
      return false, [], remaining;
    }
    out, left := WriteStripe(data, st.dataLen, remaining, p);
  }

  /** The stripe loop. */
  method GetStripes(nodes: Cluster, e: Encoder, meta: ECMeta, arrival: nat -> seq<nat>, ghost ps: seq<Payload>)
    returns (r: GetResult)
    requires e.Valid() && e.k == meta.k && e.m == meta.m
    requires forall i: nat :: i < |meta.stripes| ==> IsArrivalOrder(arrival(i), |meta.stripes[i].shards|)
    ensures Describes(meta, ps, e.E(), nodes.sha) && Injective(nodes.sha) ==> Truthful(r, Body(ps))
    ensures Retrievable(meta, ps, e.E(), nodes.sha, nodes.disk, nodes.down) ==> r.Complete?
  {
    ghost var fine := Describes(meta, ps, e.E(), nodes.sha) && Injective(nodes.sha);
    var remaining: int := meta.dataSize;
    var body: Bytes := [];
    for i := 0 to |meta.stripes|
      invariant fine ==> SoFar(meta, ps, i, body, remaining)
    {
      ghost var p := if fine then ps[i] else Payload([], 0);
      if fine {
        StripeIsKnown(meta, ps, e.E(), nodes.sha, i, body, remaining);
        SoFarPrefix(ps, i);
      }
      var ok, out, left := GetNext(nodes, e, meta.stripes[i], arrival(i), remaining, p);
      if !ok {
        return Incomplete(body);
      }
      body, remaining := body + out, left;
    }
    if fine { SoFarAll(meta, ps, body, remaining); }
    return Complete(body);
  }

  /** handleGetEC: the fetches of stripe i finish in the order arrival(i). Whatever is lost or corrupt, no
      wrong byte is written. */
  method GetObject(nodes: Cluster, meta: ECMeta, arrival: nat -> seq<nat>, ghost ps: seq<Payload>, ghost e: Mat)
    returns (r: GetResult)
    requires forall i: nat :: i < |meta.stripes| ==> IsArrivalOrder(arrival(i), |meta.stripes[i].shards|)
    ensures Describes(meta, ps, e, nodes.sha) && Injective(nodes.sha) ==> Truthful(r, Body(ps))
    ensures Retrievable(meta, ps, e, nodes.sha, nodes.disk, nodes.down) ==> r == Complete(Body(ps))
  {
    var enc := BuildEncoder(meta.k, meta.m);
    if enc.BadParameters? {
      return Incomplete([]);
    }
    if Describes(meta, ps, e, nodes.sha) {
      SystematicUnique(enc.encoder.E(), e, meta.k, meta.m);
    }
    r := GetStripes(nodes, enc.encoder, meta, arrival, ps);
  }
}
