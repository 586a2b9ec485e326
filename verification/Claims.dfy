/** What the metadata claims is on disk: replicated PUT, rebalance (internal/rebalance/rebalance.go),
    repair (internal/repair/repair.go) and garbage collection (internal/gc/gc.go) as rounds that do
    not overlap, with any copy, delete or record update failing at any time. */
module ClaimSpec {
  import opened Nodes
  import opened Metadata
  import opened PlanSpec

  type Files = set<(Addr, ChunkID)>
  type Objects = map<string, ObjectMeta>

  /** Where placement puts chunk or stripe number i of an object. */
  type Want = (string, nat) -> seq<Addr>

  /** Every replica a reference names has the chunk. */
  ghost predicate ChunkHeld(c: ChunkRef, disk: Files) { forall a :: a in c.replicas ==> (a, c.id) in disk }

  ghost predicate ChunksHeld(cs: seq<ChunkRef>, disk: Files) { forall i :: 0 <= i < |cs| ==> ChunkHeld(cs[i], disk) }

  ghost predicate StripesHeld(ss: seq<Stripe>, disk: Files)
  {
    forall i :: 0 <= i < |ss| ==> ChunksHeld(ss[i].shards, disk)
  }

  ghost predicate ObjectHeld(o: ObjectMeta, disk: Files) { ChunksHeld(o.chunks, disk) && StripesHeld(o.stripes, disk) }

  ghost predicate AllHeld(objects: Objects, disk: Files) { forall k <- objects :: ObjectHeld(objects[k], disk) }

  /** An erasure-coded record has K+M shards per stripe. */
  ghost predicate WellFormed(o: ObjectMeta) {
    IsEC(o) ==>
      && 0 < o.ec.k && 0 < o.ec.m && o.ec.k + o.ec.m <= 256
      && forall i :: 0 <= i < |o.stripes| ==> |o.stripes[i].shards| == o.ec.k + o.ec.m
  }

  ghost predicate AllWellFormed(objects: Objects) { forall k <- objects :: WellFormed(objects[k]) }

  // ---- ids do not change when replicas do ----

  ghost predicate SameIDs(a: seq<ChunkRef>, b: seq<ChunkRef>)
  {
    |a| == |b| && forall i :: 0 <= i < |a| ==> a[i].id == b[i].id
  }

  ghost predicate SameShards(a: seq<Stripe>, b: seq<Stripe>)
  {
    |a| == |b| && forall i :: 0 <= i < |a| ==> SameIDs(a[i].shards, b[i].shards)
  }

  ghost predicate SameObject(a: ObjectMeta, b: ObjectMeta)
  {
    SameIDs(a.chunks, b.chunks) && SameShards(a.stripes, b.stripes) && a.ec == b.ec
  }

  /** The two tables differ in replica lists only. */
  ghost predicate SameContent(a: Objects, b: Objects) { a.Keys == b.Keys && forall k <- a :: SameObject(a[k], b[k]) }

  lemma SameContentTransitive(a: Objects, b: Objects, c: Objects)
    requires SameContent(a, b) && SameContent(b, c)
    ensures SameContent(a, c)
  {
  }

  lemma ContentKeepsForm(a: Objects, b: Objects)
    requires SameContent(a, b) && AllWellFormed(a)
    ensures AllWellFormed(b)
  {
  }

  lemma HeldGrows(objects: Objects, disk: Files, disk': Files)
    requires AllHeld(objects, disk) && disk <= disk'
    ensures AllHeld(objects, disk')
  {
  }

  // ---- plans ----

  datatype Migration =
    | MoveChunk(key: string, index: nat, id: ChunkID, actual: seq<Addr>, desired: seq<Addr>, missing: seq<Addr>)
    | MoveShard(key: string, stripe: nat, shard: nat, id: ChunkID, oldAddr: Addr, newAddr: Addr)

  /** The plan entry was made from these records, or from earlier ones with the same content. */
  ghost predicate Fits(mg: Migration, objects: Objects, disk: Files) {
    match mg
    case MoveChunk(k, i, id, actual, desired, missing) =>
      && (k in objects && i < |objects[k].chunks| ==> objects[k].chunks[i].id == id)
      && (forall a :: a in actual ==> (a, id) in disk)
      && (forall a :: a in missing <==> a in desired && a !in actual)
    case MoveShard(k, si, shi, id, _, _) =>
      k in objects && si < |objects[k].stripes| && shi < |objects[k].stripes[si].shards| ==>
        objects[k].stripes[si].shards[shi].id == id
  }

  ghost predicate AllFit(plan: seq<Migration>, objects: Objects, disk: Files) {
    forall i :: 0 <= i < |plan| ==> Fits(plan[i], objects, disk)
  }

  lemma StillFits(mg: Migration, a: Objects, disk: Files, b: Objects, disk': Files)
    requires Fits(mg, a, disk) && SameContent(a, b) && disk <= disk'
    ensures Fits(mg, b, disk')
  {
  }

  /** What a migrated chunk's replicas become: exactly the desired set, or no less than before. */
  ghost predicate Migrated(was: seq<Addr>, desired: seq<Addr>, now: seq<Addr>) {
    || (forall a :: a in now <==> a in desired)
    || (forall a :: a in was ==> a in now)
  }

  /** Every chunk's replicas, compared with those at the start of the round. */
  ghost predicate ChunksMigrated(start: Objects, now: Objects, want: Want) {
    SameContent(start, now) && forall k <- start :: ObjectMigrated(k, start[k], now[k], want)
  }

  ghost predicate ObjectMigrated(k: string, start: ObjectMeta, now: ObjectMeta, want: Want) {
    |start.chunks| == |now.chunks| && forall i :: 0 <= i < |start.chunks| ==>
      Migrated(start.chunks[i].replicas, want(k, i), now.chunks[i].replicas)
  }

  /** A chunk migration planned from the records at the start of the round. */
  ghost predicate Planned(mg: Migration, start: Objects, want: Want) {
    mg.MoveChunk? ==>
      && mg.key in start && mg.index < |start[mg.key].chunks|
      && (forall a :: a in mg.actual <==> a in start[mg.key].chunks[mg.index].replicas)
      && (forall a :: a in mg.desired <==> a in want(mg.key, mg.index))
  }

  ghost predicate AllPlanned(plan: seq<Migration>, start: Objects, want: Want) {
    forall i :: 0 <= i < |plan| ==> Planned(plan[i], start, want)
  }

  // ---- shards ----

  predicate HasStripe(objects: Objects, k: string, si: nat) { k in objects && si < |objects[k].stripes| }

  function ShardsOf(objects: Objects, k: string, si: nat): (r: seq<ChunkRef>)
    requires HasStripe(objects, k, si)
  {
    objects[k].stripes[si].shards
  }

  /** A shard migration is one of the moves planned for its stripe. */
  ghost predicate PlannedShard(mg: Migration, start: Objects, want: Want) {
    mg.MoveShard? ==>
      && HasStripe(start, mg.key, mg.stripe) && IsEC(start[mg.key])
      && var shards := ShardsOf(start, mg.key, mg.stripe);
         Move(mg.shard, mg.oldAddr, mg.newAddr) in Moves(shards, want(mg.key, mg.stripe), |shards|)
  }

  ghost predicate AllPlannedShards(plan: seq<Migration>, start: Objects, want: Want) {
    forall i :: 0 <= i < |plan| ==> PlannedShard(plan[i], start, want)
  }

  predicate Moves1(mg: Migration, k: string, si: nat, shi: nat) {
    mg.MoveShard? && mg.key == k && mg.stripe == si && mg.shard == shi
  }

  predicate Carries(mg: Migration, k: string, si: nat, m: Move) {
    Moves1(mg, k, si, m.shard) && mg.newAddr == m.newAddr && mg.oldAddr == m.oldAddr
  }

  /** A shard is where it was at the start, or where one of the first n migrations put it. */
  ghost predicate ShardTracked(plan: seq<Migration>, n: nat, start: Objects, now: Objects, k: string, si: nat,
                               shi: nat)
  {
    HasStripe(start, k, si) && shi < |ShardsOf(start, k, si)| ==>
      && HasStripe(now, k, si) && shi < |ShardsOf(now, k, si)| && n <= |plan|
      && (|| ShardsOf(now, k, si)[shi] == ShardsOf(start, k, si)[shi]
          || exists j :: 0 <= j < n && Moves1(plan[j], k, si, shi))
  }

  ghost predicate ShardsTracked(plan: seq<Migration>, n: nat, start: Objects, now: Objects) {
    forall k, si: nat, shi: nat :: ShardTracked(plan, n, start, now, k, si, shi)
  }

  /** The first n migrations have moved their shards. */
  ghost predicate ShardsMoved(plan: seq<Migration>, n: nat, now: Objects) {
    n <= |plan| && forall j :: 0 <= j < n && plan[j].MoveShard? && plan[j].oldAddr != "" && plan[j].newAddr != "" ==>
      ShardAt(now, plan[j].key, plan[j].stripe, plan[j].shard, plan[j].newAddr)
  }

  ghost predicate ShardAt(now: Objects, k: string, si: nat, shi: nat, a: Addr) {
    HasStripe(now, k, si) && shi < |ShardsOf(now, k, si)| && ShardsOf(now, k, si)[shi].replicas == [a]
  }
}

/** Changing one replica list. */
module ClaimProofs {
  import opened Nodes
  import opened Metadata
  import opened Store
  import opened ClaimSpec

  /** Exactly the replicas of one chunk changed. */
  ghost predicate ChunkChanged(before: Objects, after: Objects, k: string, i: nat, replicas: seq<Addr>) {
    k in before && i < |before[k].chunks| && after == before[k := WithChunkReplicas(before[k], i, replicas)]
  }

  /** The chunk's replicas are exactly the wanted set. */
  ghost predicate Settled(objects: Objects, k: string, i: nat, want: Want) {
    k in objects && i < |objects[k].chunks| && forall a :: a in objects[k].chunks[i].replicas <==> a in want(k, i)
  }

  /** The first n migrations have settled their chunks. */
  ghost predicate AllSettled(plan: seq<Migration>, n: nat, objects: Objects, want: Want) {
    n <= |plan| && forall j :: 0 <= j < n && plan[j].MoveChunk? && plan[j].actual != [] ==>
      Settled(objects, plan[j].key, plan[j].index, want)
  }

  /** The first n migrations have all succeeded. */
  ghost predicate Done(plan: seq<Migration>, n: nat, now: Objects, want: Want) {
    AllSettled(plan, n, now, want) && ShardsMoved(plan, n, now)
  }

  /** The shard is where the plan says and can be recorded elsewhere. */
  ghost predicate Movable(mg: Migration, objects: Objects, sha: Bytes -> ChunkID, disk: Disk)
    requires mg.MoveShard?
  {
    && mg.oldAddr != "" && mg.newAddr != "" && HasShard(objects, mg.key, mg.stripe, mg.shard)
    && (mg.oldAddr, mg.id) in disk && sha(disk[(mg.oldAddr, mg.id)]) == mg.id
  }

  ghost predicate HonestDisk(sha: Bytes -> ChunkID, disk: Disk) { forall p <- disk :: sha(disk[p]) == p.1 }

  /** The files a chunk can be read from are right. */
  ghost predicate HonestAt(sha: Bytes -> ChunkID, disk: Disk, id: ChunkID, addrs: seq<Addr>) {
    forall a :: a in addrs && (a, id) in disk ==> sha(disk[(a, id)]) == id
  }

  /** Exactly the replicas of one shard changed. */
  ghost predicate ShardChanged(before: Objects, after: Objects, k: string, si: nat, shi: nat, replicas: seq<Addr>) {
    HasShard(before, k, si, shi) && after == before[k := WithShardReplicas(before[k], si, shi, replicas)]
  }

  lemma ChunkUpdate(objects: Objects, disk: Files, k: string, i: nat, replicas: seq<Addr>)
    requires k in objects && i < |objects[k].chunks| && AllHeld(objects, disk)
    requires forall a :: a in replicas ==> (a, objects[k].chunks[i].id) in disk
    ensures var now := objects[k := WithChunkReplicas(objects[k], i, replicas)];
      AllHeld(now, disk) && SameContent(objects, now)
  {
  }

  lemma SameSelf(objects: Objects)
    ensures SameContent(objects, objects)
  {
  }

  lemma ShardUpdate(objects: Objects, disk: Files, k: string, si: nat, shi: nat, replicas: seq<Addr>)
    requires k in objects && si < |objects[k].stripes| && shi < |objects[k].stripes[si].shards|
    requires AllHeld(objects, disk)
    requires forall a :: a in replicas ==> (a, objects[k].stripes[si].shards[shi].id) in disk
    ensures var now := objects[k := WithShardReplicas(objects[k], si, shi, replicas)];
      AllHeld(now, disk) && SameContent(objects, now)
  {
  }

  lemma MigratedAtStart(start: Objects, want: Want)
    ensures ChunksMigrated(start, start, want)
  {
  }

  /** One more migration of a planned chunk keeps the comparison with the start of the round. */
  lemma MigratedChunk(start: Objects, now: Objects, want: Want, mg: Migration, replicas: seq<Addr>)
    requires mg.MoveChunk? && Planned(mg, start, want) && ChunksMigrated(start, now, want)
    requires mg.key in now && mg.index < |now[mg.key].chunks| && Migrated(mg.actual, mg.desired, replicas)
    ensures ChunksMigrated(start, now[mg.key := WithChunkReplicas(now[mg.key], mg.index, replicas)], want)
  {
  }

  /** Updating a shard leaves the chunks alone. */
  lemma MigratedShard(start: Objects, now: Objects, want: Want, k: string, si: nat, shi: nat, replicas: seq<Addr>)
    requires ChunksMigrated(start, now, want)
    requires k in now && si < |now[k].stripes| && shi < |now[k].stripes[si].shards|
    requires SameContent(now, now[k := WithShardReplicas(now[k], si, shi, replicas)])
    ensures ChunksMigrated(start, now[k := WithShardReplicas(now[k], si, shi, replicas)], want)
  {
  }
}
