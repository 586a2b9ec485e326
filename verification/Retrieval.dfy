/** What a GET needs: enough verified shards per stripe, and payload ends that the trimming finds. */
module Retrieval {
  import opened GF
  import opened Linear
  import opened Lists
  import opened Encodings
  import opened Vandermonde
  import opened ReedSolomon
  import opened Nodes
  import opened Metadata
  import opened Layout
  import Chunker

  /** An address that answers has the shard, and no recorded address has other bytes under its name. */
  ghost predicate Intact(c: ChunkRef, sha: Bytes -> ChunkID, disk: Disk, down: set<Addr>) {
    && (exists a <- c.replicas :: a !in down && (a, c.id) in disk)
    && (forall a <- c.replicas :: (a, c.id) in disk ==> sha(disk[(a, c.id)]) == c.id)
  }

  ghost function Available(refs: seq<ChunkRef>, sha: Bytes -> ChunkID, disk: Disk, down: set<Addr>): (s: set<nat>) {
    set j: nat | j < |refs| && Intact(refs[j], sha, disk, down)
  }

  /** Every fetch reports once: a permutation of the shard indices. */
  ghost predicate IsArrivalOrder(order: seq<nat>, n: nat) {
    && NoRepeats(order)
    && (forall i :: 0 <= i < |order| ==> order[i] < n)
    && (forall j: nat :: j < n ==> j in order)
  }

  /** K shards of the stripe can be fetched and verified: at most M are lost, slow or corrupt. */
  ghost predicate Readable(st: Stripe, k: int, sha: Bytes -> ChunkID, disk: Disk, down: set<Addr>) {
    |Available(st.shards, sha, disk, down)| >= k
  }

  /** What was fetched: verified shards in their slots, nothing in the others. */
  ghost predicate Fetches(refs: seq<ChunkRef>, sha: Bytes -> ChunkID, out: seq<Shard>, got: set<nat>) {
    && |out| == |refs| && (forall j <- got :: j < |refs|)
    && (forall j: nat :: j < |refs| ==> if j in got then sha(out[j]) == refs[j].id else out[j] == [])
  }

  /** Verified shards are the stripe's own, since the hash has no collisions. */
  lemma FetchedIsErased(st: Stripe, p: Payload, e: Mat, k: nat, m: nat, sha: Bytes -> ChunkID,
                        out: seq<Shard>, got: set<nat>)
    requires IsMat(e, k + m, k) && StripeHolds(st, p, e, k, m, sha) && Injective(sha)
    requires Fetches(st.shards, sha, out, got)
    ensures Erased(out, e, Sliced(p, k), p.shardSize, got)
  {
  }

  // ---- trimming ----

  /** The bytes are enough, and the record says where they end. */
  ghost predicate Ends(dataLen: nat, remaining: int, p: Payload, k: nat) {
    && 0 < |p.raw| <= remaining && |p.raw| <= k * p.shardSize && 0 < p.shardSize
    && (dataLen == |p.raw| || (dataLen == 0 && (|p.raw| == k * p.shardSize || |p.raw| == remaining)))
  }

  /** toWrite for one shard. */
  function Trim(shard: Shard, stripeRemaining: int, remaining: int): (w: Bytes)
    requires remaining > 0
  {
    if stripeRemaining >= 0 then (if |shard| > stripeRemaining then shard[..stripeRemaining] else shard)
    else if |shard| > remaining then shard[..remaining]
    else shard
  }

  lemma TrimTo(shard: Shard, raw: Bytes, done: nat, stripeRemaining: int, remaining: int)
    requires done < |raw| && remaining > 0
    requires forall c: nat :: c < |shard| ==> shard[c] == At(raw, done + c)
    requires Chunker.Min(|shard|, |raw| - done) ==
      Chunker.Min(|shard|, if stripeRemaining >= 0 then stripeRemaining else remaining)
    ensures Trim(shard, stripeRemaining, remaining) == raw[done..Chunker.Min(done + |shard|, |raw|)]
  {
  }

  /** In a stripe that ends properly, a trimmed shard is the next slice of the payload. */
  lemma TrimIsSlice(p: Payload, k: nat, dataLen: nat, total: int, di: nat, done: nat)
    requires Ends(dataLen, total, p, k) && di < k && done == di * p.shardSize < |p.raw|
    ensures Trim(Sliced(p, k)[di], if dataLen > 0 then dataLen - done else -1, total - done)
         == p.raw[done..Chunker.Min(done + p.shardSize, |p.raw|)]
  {
    SliceBounds(di, k, p.shardSize);
    TrimTo(Sliced(p, k)[di], p.raw, done, if dataLen > 0 then dataLen - done else -1, total - done);
  }

  lemma BodyPrefix(ps: seq<Payload>, i: nat)
    requires i < |ps|
    ensures Body(ps[..i + 1]) == Body(ps[..i]) + ps[i].raw
    ensures |Body(ps[..i + 1])| <= |Body(ps)|
    ensures i + 1 == |ps| ==> Body(ps[..i + 1]) == Body(ps)
    decreases |ps| - i
  {
    assert ps[..i + 1] == ps[..i] + [ps[i]];
    BodyAppend(ps[..i], ps[i], []);
    if i + 1 < |ps| {
      BodyPrefix(ps, i + 1);
    } else {
      assert ps[..i + 1] == ps;
    }
  }

  /** Every stripe's payload ends where the remaining counter expects it. */
  lemma StripeEnds(meta: ECMeta, ps: seq<Payload>, e: Mat, sha: Bytes -> ChunkID, i: nat)
    requires Describes(meta, ps, e, sha) && i < |ps|
    ensures Ends(meta.stripes[i].dataLen, meta.dataSize - |Body(ps[..i])|, ps[i], meta.k)
  {
    BodyPrefix(ps, i);
    assert StripeHolds(meta.stripes[i], ps[i], e, meta.k, meta.m, sha);
  }

  /** The record describes the payloads, and at most M shards of each stripe cannot be fetched. */
  ghost predicate Retrievable(meta: ECMeta, ps: seq<Payload>, e: Mat, sha: Bytes -> ChunkID,
                              disk: Disk, down: set<Addr>)
  {
    && Describes(meta, ps, e, sha) && Injective(sha)
    && forall i: nat :: i < |meta.stripes| ==> Readable(meta.stripes[i], meta.k, sha, disk, down)
  }

  /** Everything the loop needs to know about a stripe to write nothing wrong. */
  ghost predicate StripeKnown(st: Stripe, p: Payload, e: Mat, k: nat, m: nat, sha: Bytes -> ChunkID, remaining: int)
    requires IsMat(e, k + m, k)
  {
    StripeHolds(st, p, e, k, m, sha) && Injective(sha) && Ends(st.dataLen, remaining, p, k)
  }

  /** After i stripes the output is their payloads, and the counter what is left of the object. */
  ghost predicate SoFar(meta: ECMeta, ps: seq<Payload>, i: nat, body: Bytes, remaining: int) {
    i <= |ps| && body == Body(ps[..i]) && remaining == meta.dataSize - |body|
  }

  lemma StripeIsKnown(meta: ECMeta, ps: seq<Payload>, e: Mat, sha: Bytes -> ChunkID,
                      i: nat, body: Bytes, remaining: int)
    requires Describes(meta, ps, e, sha) && Injective(sha) && i < |ps| && SoFar(meta, ps, i, body, remaining)
    ensures StripeKnown(meta.stripes[i], ps[i], e, meta.k, meta.m, sha, remaining)
    ensures SoFar(meta, ps, i + 1, body + ps[i].raw, remaining - |ps[i].raw|)
  {
    StripeEnds(meta, ps, e, sha, i);
    BodyPrefix(ps, i);
  }

  /** What has been written is the beginning of the body. */
  lemma {:induction false} SoFarPrefix(ps: seq<Payload>, i: nat)
    requires i <= |ps|
    ensures Body(ps[..i]) <= Body(ps)
    decreases |ps| - i
  {
    if i < |ps| {
      SoFarPrefix(ps, i + 1);
      BodyPrefix(ps, i);
    } else {
      assert ps[..i] == ps;
    }
  }

  lemma SoFarAll(meta: ECMeta, ps: seq<Payload>, body: Bytes, remaining: int)
    requires SoFar(meta, ps, |ps|, body, remaining)
    ensures body == Body(ps)
  {
    assert ps[..|ps|] == ps;
  }

  /** The shards written so far, and what the two counters say then. */
  ghost predicate Written(p: Payload, dataLen: nat, total: int, di: nat, out: Bytes, left: int, stripeRemaining: int) {
    && out == p.raw[..Chunker.Min(di * p.shardSize, |p.raw|)] && left == total - |out|
    && stripeRemaining == if dataLen > 0 then dataLen - |out| else -1
  }

  /** While both counters are positive there are bytes left to write. */
  lemma NotDone(p: Payload, k: nat, dataLen: nat, total: int, di: nat, out: Bytes, left: int, stripeRemaining: int)
    requires Ends(dataLen, total, p, k) && di < k && left > 0 && (dataLen > 0 ==> stripeRemaining > 0)
    requires Written(p, dataLen, total, di, out, left, stripeRemaining)
    ensures di * p.shardSize < |p.raw|
  {
  }

  lemma WriteDone(p: Payload, k: nat, dataLen: nat, total: int, di: nat, out: Bytes, left: int, stripeRemaining: int)
    requires Ends(dataLen, total, p, k) && Written(p, dataLen, total, di, out, left, stripeRemaining)
    requires di == k || left <= 0 || (dataLen > 0 && stripeRemaining <= 0)
    ensures out == p.raw && left == total - |p.raw|
  {
  }

  lemma WriteNext(p: Payload, k: nat, dataLen: nat, total: int, di: nat, out: Bytes, left: int, stripeRemaining: int)
    requires Ends(dataLen, total, p, k) && di < k && left > 0 && (dataLen > 0 ==> stripeRemaining > 0)
    requires Written(p, dataLen, total, di, out, left, stripeRemaining)
    ensures var w := Trim(Sliced(p, k)[di], stripeRemaining, left);
      Written(p, dataLen, total, di + 1, out + w, left - |w|,
              if stripeRemaining >= 0 then stripeRemaining - |w| else -1)
  {
    var done := di * p.shardSize;
    SliceBounds(di, k, p.shardSize);
    NotDone(p, k, dataLen, total, di, out, left, stripeRemaining);
    TrimIsSlice(p, k, dataLen, total, di, done);
    var hi := Chunker.Min(done + p.shardSize, |p.raw|);
    assert p.raw[..done] + p.raw[done..hi] == p.raw[..hi];
  }
}
