/** The erasure-coded object path end to end. */
module ObjectPath {
  import opened Nodes
  import opened Metadata
  import opened Layout
  import opened Retrieval
  import opened PutPath
  import opened GetPath
  import opened Linear
  import opened Lists
  import opened PlanSpec
  import Chunker

  /** The copy of a shard at address a is out of reach at the time of the GET: its node does not answer,
      its file is not as the PUT left it, or the PUT had found other bytes under its name. */
  ghost predicate IsHit(c: ChunkRef, a: Addr, sha: Bytes -> ChunkID, was: Disk, written: Disk, now: Disk,
                        down: set<Addr>)
  {
    || a in down
    || (a, c.id) !in now || (a, c.id) !in written || now[(a, c.id)] != written[(a, c.id)]
    || ((a, c.id) in was && sha(was[(a, c.id)]) != c.id)
  }

  /** The shards of a stripe that are hit. */
  ghost function Hit(st: Stripe, sha: Bytes -> ChunkID, was: Disk, written: Disk, now: Disk, down: set<Addr>):
    (s: set<nat>)
  {
    set j: nat | j < |st.shards| &&
      exists a <- st.shards[j].replicas :: IsHit(st.shards[j], a, sha, was, written, now, down)
  }

  /** At most M shards of each stripe are. */
  ghost predicate FewHit(meta: ECMeta, m: int, sha: Bytes -> ChunkID, was: Disk, written: Disk, now: Disk,
                         down: set<Addr>)
  {
    forall i: nat :: i < |meta.stripes| ==> |Hit(meta.stripes[i], sha, was, written, now, down)| <= m
  }

  /** What the handler asks of the parameters and the cluster. */
  ghost predicate Possible(k: int, m: int, totalDNs: nat, place: (ChunkID, nat) -> seq<Addr>) {
    0 < k && 0 < m && k + m <= totalDNs && k + m <= 256 && !PlacementShort(place, k + m)
  }

  /** A stored shard that is not hit is intact. */
  lemma NotHitIsIntact(st: Stripe, j: nat, sha: Bytes -> ChunkID, was: Disk, written: Disk, now: Disk,
                       down: set<Addr>)
    requires j < |st.shards| && ShardsStored(st, written) && Grew(sha, was, written)
    requires j !in Hit(st, sha, was, written, now, down)
    ensures Intact(st.shards[j], sha, now, down)
  {
    var c := st.shards[j];
    forall a | a in c.replicas ensures a !in down && (a, c.id) in now && sha(now[(a, c.id)]) == c.id {
      assert !IsHit(c, a, sha, was, written, now, down);
    }
  }

  lemma EnoughLeft(n: nat, hit: set<nat>, available: set<nat>)
    requires forall j: nat :: j < n ==> j in hit || j in available
    ensures |available| >= n - |hit|
  {
    if n > 0 {
      EnoughLeft(n - 1, hit - {n - 1}, available - {n - 1});
    }
  }

  /** At most M shards hit leave K to read. */
  lemma HitLeavesReadable(st: Stripe, k: nat, m: nat, sha: Bytes -> ChunkID, was: Disk, written: Disk, now: Disk,
                          down: set<Addr>)
    requires |st.shards| == k + m && ShardsStored(st, written) && Grew(sha, was, written)
    requires |Hit(st, sha, was, written, now, down)| <= m
    ensures Readable(st, k, sha, now, down)
  {
    var hit, available := Hit(st, sha, was, written, now, down), Available(st.shards, sha, now, down);
    forall j: nat | j < k + m ensures j in hit || j in available {
      if j !in hit { NotHitIsIntact(st, j, sha, was, written, now, down); }
    }
    EnoughLeft(k + m, hit, available);
  }

  // ---- losing whole nodes ----

  /** Placement gives different nodes. */
  ghost predicate Separates(place: (ChunkID, nat) -> seq<Addr>, n: nat) { forall id :: NoRepeats(place(id, n)) }

  /** Outside these nodes everything answers and is as the PUT left it, and the PUT found no wrong bytes. */
  ghost predicate Confined(bad: set<Addr>, sha: Bytes -> ChunkID, was: Disk, written: Disk, now: Disk,
                           down: set<Addr>)
  {
    down <= bad && forall p <- written :: p.0 !in bad ==>
      p in now && now[p] == written[p] && (p in was ==> sha(was[p]) == p.1)
  }

  /** A stripe that was just put has its shards on different nodes, and the rebalance planner, which places
      the stripe by the same name, leaves all of them where they are. */
  lemma FreshStripe(st: Stripe, p: Payload, k: nat, m: nat, sha: Bytes -> ChunkID,
                    place: (ChunkID, nat) -> seq<Addr>)
    requires StripePlaced(st, p, k, m, sha, place) && Separates(place, k + m)
    ensures Spread(st.shards) && Moves(st.shards, place(st.stripeID, k + m), k + m) == []
  {
    var desired := place(st.stripeID, k + m);
    assert NoRepeats(desired);
    NothingOutside(st.shards, desired, k + m);
  }

  lemma {:induction false} NothingOutside(shards: seq<ChunkRef>, desired: seq<Addr>, n: nat)
    requires n <= |shards| <= |desired| && forall i :: 0 <= i < n ==> shards[i].replicas == [desired[i]]
    ensures Outside(shards, desired, n) == []
  {
    if n > 0 { NothingOutside(shards, desired, n - 1); }
  }

  /** Shards on different nodes are hit one per node. */
  lemma HitPerNode(st: Stripe, bad: set<Addr>, sha: Bytes -> ChunkID, was: Disk, written: Disk, now: Disk,
                   down: set<Addr>)
    requires Spread(st.shards) && ShardsStored(st, written) && Confined(bad, sha, was, written, now, down)
    ensures |Hit(st, sha, was, written, now, down)| <= |bad|
  {
    var hit := Hit(st, sha, was, written, now, down);
    forall j | j in hit ensures st.shards[j].replicas[0] in bad {
      var a :| a in st.shards[j].replicas && IsHit(st.shards[j], a, sha, was, written, now, down);
      assert a == st.shards[j].replicas[0] && (a, st.shards[j].id) in written;
    }
    OnePerNode(st.shards, hit, bad);
  }

  lemma {:induction false} OnePerNode(shards: seq<ChunkRef>, hit: set<nat>, bad: set<Addr>)
    requires Spread(shards) && forall j <- hit :: j < |shards| && shards[j].replicas[0] in bad
    ensures |hit| <= |bad|
    decreases |hit|
  {
    if j :| j in hit {
      OnePerNode(shards, hit - {j}, bad - {shards[j].replicas[0]});
    }
  }

  /** Losing at most M nodes hits at most M shards of each stripe. */
  lemma FewNodesFewHit(meta: ECMeta, ps: seq<Payload>, k: nat, m: nat, place: (ChunkID, nat) -> seq<Addr>,
                       bad: set<Addr>, sha: Bytes -> ChunkID, was: Disk, written: Disk, now: Disk, down: set<Addr>)
    requires AllPlaced(meta.stripes, ps, k, m, sha, place) && Separates(place, k + m)
    requires AllStored(meta.stripes, written) && |bad| <= m && Confined(bad, sha, was, written, now, down)
    ensures FewHit(meta, m, sha, was, written, now, down)
  {
    forall i: nat | i < |meta.stripes| ensures |Hit(meta.stripes[i], sha, was, written, now, down)| <= m {
      FreshStripe(meta.stripes[i], ps[i], k, m, sha, place);
      HitPerNode(meta.stripes[i], bad, sha, was, written, now, down);
    }
  }

  /** PUT then GET: the PUT stores every non-empty body if the nodes answer and placement finds K+M of
      them. Whatever then happens to files and nodes, if it hits at most M shards of each stripe the GET
      writes exactly the body, in whatever order the fetches finish; if placement gives different nodes,
      that is so for everything that happens to at most M nodes. */
  method PutThenGet(nodes: Cluster, body: Bytes, k: int, m: int, shardSize: nat, cdc: bool,
                    cfg: Chunker.Params, totalDNs: nat, place: (ChunkID, nat) -> seq<Addr>,
                    committed: bool, damage: Disk -> Disk, down: set<Addr>, arrival: ECMeta -> (nat -> seq<nat>),
                    ghost bad: set<Addr>)
    returns (put: PutResult, got: GetResult, ghost written: Disk)
    requires 0 < shardSize && Chunker.Usable(cfg) && Injective(nodes.sha)
    requires forall meta: ECMeta, i: nat :: i < |meta.stripes| ==>
      IsArrivalOrder(arrival(meta)(i), |meta.stripes[i].shards|)
    modifies nodes
    ensures old(nodes.Up()) && committed && body != [] && Possible(k, m, totalDNs, place) ==> put.Stored?
    ensures nodes.disk == damage(written) && nodes.down == down
    ensures put.Stored? && FewHit(put.meta, m, nodes.sha, old(nodes.disk), written, nodes.disk, down) ==>
      got == Complete(body)
    ensures put.Stored? ==> Truthful(got, body)
    ensures put.Stored? && 0 < k && 0 < m && Separates(place, k + m) && |bad| <= m ==>
      Confined(bad, nodes.sha, old(nodes.disk), written, nodes.disk, down) ==> got == Complete(body)
  {
    ghost var ps, e;
    put, ps, e := PutObject(nodes, body, k, m, shardSize, cdc, cfg, totalDNs, place, committed);
    written := nodes.disk;
    nodes.disk, nodes.down := damage(nodes.disk), down;
    if !put.Stored? {
      return put, Incomplete([]), written;
    }
    var meta := put.meta;
    if Separates(place, k + m) && |bad| <= m && Confined(bad, nodes.sha, old(nodes.disk), written, nodes.disk, down) {
      FewNodesFewHit(meta, ps, k, m, place, bad, nodes.sha, old(nodes.disk), written, nodes.disk, down);
    }
    if FewHit(meta, m, nodes.sha, old(nodes.disk), written, nodes.disk, down) {
      forall i: nat | i < |meta.stripes| ensures Readable(meta.stripes[i], k, nodes.sha, nodes.disk, down) {
        assert StripeHolds(meta.stripes[i], ps[i], e, k, m, nodes.sha);
        HitLeavesReadable(meta.stripes[i], k, m, nodes.sha, old(nodes.disk), written, nodes.disk, down);
      }
    }
    got := GetObject(nodes, meta, arrival(meta), ps, e);
  }
}
