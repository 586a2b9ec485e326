/** How an erasure-coded object is laid out in stripes: the records that internal/edge/edge.go
    writes and reads, and what it means for them to describe a body. */
module Layout {
  import opened GF
  import opened Linear
  import opened Encodings
  import opened Vandermonde
  import opened ReedSolomon
  import opened Nodes
  import opened Metadata
  import Chunker

  datatype ECMeta = ECMeta(k: int, m: int, dataSize: nat, stripes: seq<Stripe>)

  /** What one stripe was made from: the body bytes and the shard size they were padded to. */
  datatype Payload = Payload(raw: Bytes, shardSize: nat)

  function At(raw: Bytes, i: nat): (b: byte) { if i < |raw| then raw[i] else 0 }

  /** The K data shards of a zero-padded payload. */
  function Sliced(p: Payload, k: nat): (d: Mat)
    ensures IsMat(d, k, p.shardSize)
  {
    seq(k, i requires 0 <= i < k =>
      seq(p.shardSize, c requires 0 <= c < p.shardSize => At(p.raw, i * p.shardSize + c)))
  }

  /** The stripe record names the shards of the payload's codeword by their hashes. */
  ghost predicate StripeHolds(st: Stripe, p: Payload, e: Mat, k: nat, m: nat, sha: Bytes -> ChunkID)
    requires IsMat(e, k + m, k)
  {
    && |st.shards| == k + m && 0 < p.shardSize && 0 < |p.raw| <= k * p.shardSize
    && forall i :: 0 <= i < k + m ==> st.shards[i].id == sha(ShardOf(e, Sliced(p, k), p.shardSize, i))
  }

  lemma SliceBounds(i: nat, k: nat, size: nat)
    requires i < k
    ensures i * size + size <= k * size
    ensures (i + 1) * size == i * size + size
  {
  }

  lemma SliceIs(p: Payload, k: nat, padded: Bytes, i: nat)
    requires i < k && |p.raw| <= k * p.shardSize == |padded|
    requires forall j :: 0 <= j < |padded| ==> padded[j] == At(p.raw, j)
    ensures 0 <= i * p.shardSize <= (i + 1) * p.shardSize <= |padded|
    ensures padded[i * p.shardSize..(i + 1) * p.shardSize] == Sliced(p, k)[i]
  {
  }

  lemma AllShards(e: Mat, k: nat, m: nat, d: Mat, len: nat, parity: seq<Shard>)
    requires IsEncoding(e, k, m) && IsMat(d, k, len) && |parity| == m
    requires forall q :: 0 <= q < m ==> parity[q] == ShardOf(e, d, len, k + q)
    ensures forall i :: 0 <= i < k + m ==> (d + parity)[i] == ShardOf(e, d, len, i)
  {
    forall i | 0 <= i < k + m ensures (d + parity)[i] == ShardOf(e, d, len, i) {
      if i < k {
        DataShards(e, k, m, d, len, i);
      } else {
        assert (d + parity)[i] == parity[i - k];
      }
    }
  }

  /** Every shard the record names is on the disk of the node it names. */
  ghost predicate ShardsStored(st: Stripe, disk: map<(Addr, ChunkID), Bytes>) {
    forall i :: 0 <= i < |st.shards| ==>
      |st.shards[i].replicas| == 1 && (st.shards[i].replicas[0], st.shards[i].id) in disk
  }

  /** The payload as it is encoded: zero-padded to K shards. */
  function Padded(p: Payload, k: nat): (b: Bytes) { p.raw + Zeros(k * p.shardSize - |p.raw|) }

  function Zeros(n: int): (b: Bytes) { if n <= 0 then [] else seq(n, _ => 0) }

  /** The K data shards one after the other are the padded payload. */
  lemma ConcatSliced(p: Payload, k: nat)
    requires |p.raw| <= k * p.shardSize
    ensures Chunker.Concat(Sliced(p, k)) == Padded(p, k)
  {
    ConcatFilled(p, k);
    assert Filled(p, k * p.shardSize) == Padded(p, k);
  }

  function Filled(p: Payload, n: nat): (b: Bytes) { seq(n, i requires 0 <= i => At(p.raw, i)) }

  lemma {:induction false} ConcatFilled(p: Payload, k: nat)
    ensures Chunker.Concat(Sliced(p, k)) == Filled(p, k * p.shardSize)
  {
    if k > 0 {
      ConcatFilled(p, k - 1);
      assert Sliced(p, k) == Sliced(p, k - 1) + [Sliced(p, k)[k - 1]];
      Chunker.ConcatAppend(Sliced(p, k - 1), Sliced(p, k)[k - 1]);
      SliceBounds(k - 1, k, p.shardSize);
      assert Filled(p, k * p.shardSize) == Filled(p, (k - 1) * p.shardSize) + Sliced(p, k)[k - 1];
    }
  }

  /** The stripe is named after its padded payload, and shard i is recorded with its size at the i-th node
      that placement gives for that name. */
  ghost predicate StripePlaced(st: Stripe, p: Payload, k: nat, m: nat, sha: Bytes -> ChunkID,
                               place: (ChunkID, nat) -> seq<Addr>)
  {
    && st.stripeID == sha(Padded(p, k)) && |st.shards| == k + m <= |place(st.stripeID, k + m)|
    && forall i :: 0 <= i < k + m ==>
         st.shards[i].size == p.shardSize && st.shards[i].replicas == [place(st.stripeID, k + m)[i]]
  }

  ghost predicate AllPlaced(stripes: seq<Stripe>, ps: seq<Payload>, k: nat, m: nat, sha: Bytes -> ChunkID,
                            place: (ChunkID, nat) -> seq<Addr>)
  {
    |stripes| == |ps| && forall i :: 0 <= i < |ps| ==> StripePlaced(stripes[i], ps[i], k, m, sha, place)
  }

  /** Trimming gets the payload back: its length is recorded, or it fills the stripe, or it is last. */
  ghost predicate Trimmable(st: Stripe, p: Payload, k: nat, last: bool) {
    st.dataLen == |p.raw| || (st.dataLen == 0 && (|p.raw| == k * p.shardSize || last))
  }

  ghost function Raws(ps: seq<Payload>): (r: seq<Bytes>) { seq(|ps|, i requires 0 <= i < |ps| => ps[i].raw) }

  ghost function Body(ps: seq<Payload>): (b: Bytes) { Chunker.Concat(Raws(ps)) }

  lemma BodyAppend(ps: seq<Payload>, p: Payload, rest: Bytes)
    ensures Body(ps + [p]) == Body(ps) + p.raw
    ensures Body(ps + [p]) + rest == Body(ps) + (p.raw + rest)
  {
    assert Raws(ps + [p]) == Raws(ps) + [p.raw];
    Chunker.ConcatAppend(Raws(ps), p.raw);
  }

  lemma RawsAppend(ps: seq<Payload>, p: Payload, rest: seq<Bytes>)
    ensures Raws(ps + [p]) + rest == Raws(ps) + ([p.raw] + rest)
  {
  }

  /** The stripes are those of the payloads; more tells whether further payloads may follow. */
  ghost predicate StripesHold(stripes: seq<Stripe>, ps: seq<Payload>, e: Mat, k: nat, m: nat,
                              sha: Bytes -> ChunkID, more: bool)
    requires IsMat(e, k + m, k)
  {
    && |stripes| == |ps|
    && forall i :: 0 <= i < |ps| ==>
         StripeHolds(stripes[i], ps[i], e, k, m, sha) && Trimmable(stripes[i], ps[i], k, !more && i == |ps| - 1)
  }

  /** The record describes an object with exactly these payloads. */
  ghost predicate Describes(meta: ECMeta, ps: seq<Payload>, e: Mat, sha: Bytes -> ChunkID) {
    && 0 < meta.k && 0 < meta.m && meta.k + meta.m <= 256
    && IsMat(e, meta.k + meta.m, meta.k) && IsSystematic(e, meta.k, meta.m)
    && StripesHold(meta.stripes, ps, e, meta.k, meta.m, sha, false)
    && meta.dataSize == |Body(ps)|
  }

  lemma CeilingCovers(n: nat, k: nat)
    requires 0 < k
    ensures n <= k * ((n + k - 1) / k)
  {
  }

  lemma CeilingTight(n: nat, k: nat)
    requires 0 < k
    ensures k * ((n + k - 1) / k - 1) < n
  {
    var q := (n + k - 1) / k;
    assert k * q <= n + k - 1;
    assert k * (q - 1) == k * q - k;
  }

  // ---- how a body is cut into payloads ----

  /** Blocks of n bytes, the last one possibly shorter. */
  function Blocks(body: Bytes, n: nat): (r: seq<Bytes>)
    requires 0 < n
  {
    if |body| <= n then (if body == [] then [] else [body]) else [body[..n]] + Blocks(body[n..], n)
  }

  /** The blocks join to the body, and all but the last are full. */
  lemma {:induction false} BlocksPartition(body: Bytes, n: nat)
    requires 0 < n
    ensures Chunker.Concat(Blocks(body, n)) == body
    ensures forall i :: 0 <= i < |Blocks(body, n)| ==> 0 < |Blocks(body, n)[i]| <= n
    ensures forall i :: 0 <= i < |Blocks(body, n)| - 1 ==> |Blocks(body, n)[i]| == n
    decreases |body|
  {
    if |body| > n {
      BlocksPartition(body[n..], n);
      Chunker.ConcatFirst(body[..n], Blocks(body[n..], n));
    } else if body != [] {
      Chunker.ConcatFirst(body, []);
    }
  }

  /** Cutting off one block leaves the others. */
  lemma NextBlock(body: Bytes, n: nat, m: nat)
    requires 0 < n && body != [] && m == Chunker.Min(n, |body|)
    ensures Blocks(body, n) == [body[..m]] + Blocks(body[m..], n)
  {
    if |body| <= n { assert body[..m] == body && body[m..] == []; }
  }

  /** The CDC segmentation, or blocks of K shards. */
  function Pieces(body: Bytes, cdc: bool, cfg: Chunker.Params, n: nat): (r: seq<Bytes>)
    requires 0 < n && Chunker.Usable(cfg)
  {
    if cdc then Chunker.Segments(cfg, body) else Blocks(body, n)
  }

  /** The shard size of each payload: the smallest that holds a CDC piece, or the configured one. */
  ghost predicate ShardSizes(ps: seq<Payload>, k: nat, shardSize: nat, cdc: bool)
    requires 0 < k
  {
    forall i :: 0 <= i < |ps| ==> ps[i].shardSize == if cdc then PaddedShardSize(|ps[i].raw|, k) else shardSize
  }

  /** The smallest shard size that fits n bytes into K shards. */
  function PaddedShardSize(n: nat, k: nat): (s: nat)
    requires 0 < k
    ensures 0 < s && n <= k * s && (s == 1 || k * (s - 1) < n)
  {
    CeilingCovers(n, k);
    CeilingTight(n, k);
    var size := (n + k - 1) / k;
    if size == 0 then 1 else size
  }

  lemma ShardBytesPositive(k: nat, size: nat)
    requires 0 < k && 0 < size
    ensures 0 < k * size
  {
  }

  lemma StripesAppend(stripes: seq<Stripe>, ps: seq<Payload>, st: Stripe, p: Payload,
                      e: Mat, k: nat, m: nat, sha: Bytes -> ChunkID, more: bool)
    requires IsMat(e, k + m, k) && StripesHold(stripes, ps, e, k, m, sha, true)
    requires StripeHolds(st, p, e, k, m, sha) && Trimmable(st, p, k, !more)
    ensures StripesHold(stripes + [st], ps + [p], e, k, m, sha, more)
  {
  }

  ghost predicate AllStored(stripes: seq<Stripe>, disk: map<(Addr, ChunkID), Bytes>) {
    forall i :: 0 <= i < |stripes| ==> ShardsStored(stripes[i], disk)
  }

  // ---- one stripe of a PUT, and all of them ----

  /** The payload, its stripe and its shards are as the handler makes them; last tells that none follows. */
  ghost predicate StripePut(st: Stripe, p: Payload, e: Mat, k: nat, m: nat, sha: Bytes -> ChunkID,
                            place: (ChunkID, nat) -> seq<Addr>, disk: Disk, last: bool)
    requires IsMat(e, k + m, k)
  {
    && StripeHolds(st, p, e, k, m, sha) && Trimmable(st, p, k, last)
    && StripePlaced(st, p, k, m, sha, place) && ShardsStored(st, disk)
  }

  ghost predicate StripesPut(stripes: seq<Stripe>, ps: seq<Payload>, e: Mat, k: nat, m: nat, sha: Bytes -> ChunkID,
                             place: (ChunkID, nat) -> seq<Addr>, disk: Disk, more: bool)
    requires IsMat(e, k + m, k)
  {
    StripesHold(stripes, ps, e, k, m, sha, more) && AllPlaced(stripes, ps, k, m, sha, place) && AllStored(stripes, disk)
  }

  lemma StripesPutNext(stripes: seq<Stripe>, ps: seq<Payload>, st: Stripe, p: Payload, e: Mat, k: nat, m: nat,
                       sha: Bytes -> ChunkID, place: (ChunkID, nat) -> seq<Addr>, was: Disk, disk: Disk, last: bool)
    requires IsMat(e, k + m, k) && StripesPut(stripes, ps, e, k, m, sha, place, was, true)
    requires StripePut(st, p, e, k, m, sha, place, disk, last) && was.Keys <= disk.Keys
    ensures StripesPut(stripes + [st], ps + [p], e, k, m, sha, place, disk, !last)
  {
    StripesAppend(stripes, ps, st, p, e, k, m, sha, !last);
  }

  /** The payloads so far are the first pieces of the body, with their shard sizes; left and rest remain. */
  ghost predicate Taken(ps: seq<Payload>, body: Bytes, left: Bytes, pieces: seq<Bytes>, rest: seq<Bytes>,
                        k: nat, shardSize: nat, cdc: bool)
    requires 0 < k
  {
    Body(ps) + left == body && Raws(ps) + rest == pieces && ShardSizes(ps, k, shardSize, cdc)
  }

  lemma TakenNext(ps: seq<Payload>, p: Payload, body: Bytes, left: Bytes, pieces: seq<Bytes>, rest: seq<Bytes>,
                  k: nat, shardSize: nat, cdc: bool)
    requires 0 < k && Taken(ps, body, p.raw + left, pieces, [p.raw] + rest, k, shardSize, cdc)
    requires p.shardSize == if cdc then PaddedShardSize(|p.raw|, k) else shardSize
    ensures Taken(ps + [p], body, left, pieces, rest, k, shardSize, cdc) && |Body(ps + [p])| == |Body(ps)| + |p.raw|
  {
    BodyAppend(ps, p, left);
    RawsAppend(ps, p, rest);
    ShardSizesNext(ps, p, k, shardSize, cdc);
  }

  lemma ShardSizesNext(ps: seq<Payload>, p: Payload, k: nat, shardSize: nat, cdc: bool)
    requires 0 < k && ShardSizes(ps, k, shardSize, cdc)
    requires p.shardSize == if cdc then PaddedShardSize(|p.raw|, k) else shardSize
    ensures ShardSizes(ps + [p], k, shardSize, cdc)
  {
  }

  /** Placement does not always find n nodes. */
  ghost predicate PlacementShort(place: (ChunkID, nat) -> seq<Addr>, n: nat) {
    exists id: ChunkID :: |place(id, n)| < n
  }
}
