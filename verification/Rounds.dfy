/** Rounds that do not overlap. */
module Rounds {
  import opened Lists
  import opened Order
  import opened GF
  import opened Nodes
  import opened Metadata
  import opened StoreSpec
  import opened Store
  import opened ClaimSpec
  import opened ClaimProofs
  import opened PlanSpec
  import opened RepairSpec
  import opened RepairRecord
  import opened Linear
  import RebalancePlan
  import Repair
  import RepairPlan
  import Rebalance
  import RebalancePlanner
  import GarbageCollection
  import opened References

  /** Every claimed (chunk, address) pair is on disk. */
  ghost predicate Inv(nodes: Cluster, store: MetaStore)
    reads nodes, store
  {
    AllHeld(store.objects, nodes.disk.Keys) && AllWellFormed(store.objects)
  }

  // ---- replicated PUT ----

  /** WriteChunkToAddrsW: fan out, collect the acknowledgements, compare with the quorum. */
  method WriteChunk(nodes: Cluster, id: ChunkID, data: Bytes, targets: seq<Addr>, w: int, quorum: nat)
    returns (ok: bool, acked: seq<Addr>)
    modifies nodes`disk
    ensures Grew(nodes.sha, old(nodes.disk), nodes.disk)
    ensures forall a :: a in acked ==> a in targets && (a, id) in nodes.disk
    ensures ok ==> QuorumPossible(targets, w, quorum) && |acked| >= Needed(w, quorum)
    ensures nodes.Up() && nodes.sha(data) == id && QuorumPossible(targets, w, quorum) ==>
      ok && multiset(acked) == multiset(targets)
  {
    acked := [];
    if |targets| == 0 || w < 0 { return false, []; }
    var need := if w == 0 then quorum else w;
    if need > |targets| { return false, []; }
    acked := FanOut(nodes, id, data, targets);
    ok := |acked| >= need;
  }

  /** PUTs to all targets at once: they finish, and are collected, in any order. */
  method FanOut(nodes: Cluster, id: ChunkID, data: Bytes, targets: seq<Addr>) returns (acked: seq<Addr>)
    modifies nodes`disk
    ensures Grew(nodes.sha, old(nodes.disk), nodes.disk)
    ensures forall a :: a in acked ==> a in targets && (a, id) in nodes.disk
    ensures nodes.Up() && nodes.sha(data) == id ==> multiset(acked) == multiset(targets)
    ensures nodes.Up() && nodes.sha(data) == id ==> |acked| == |targets|
  {
    acked := [];
    var pending := multiset(targets);
    while pending != multiset{}
      invariant pending <= multiset(targets) && Grew(nodes.sha, old(nodes.disk), nodes.disk)
      invariant forall a :: a in acked ==> a in targets && (a, id) in nodes.disk
      invariant nodes.Up() && nodes.sha(data) == id ==> multiset(acked) + pending == multiset(targets)
      decreases |pending|
    {
      var a :| a in pending;
      assert a in multiset(targets);
      ghost var disk := nodes.disk;
      var r := nodes.Put(a, id, data, false);
      GrewMore(nodes.sha, old(nodes.disk), disk, nodes.disk);
      if r.Acked? { acked := acked + [a]; }
      pending := pending - multiset{a};
    }
    assert |multiset(acked)| == |acked| && |multiset(targets)| == |targets|;
  }

  /** w == 0 asks for the default quorum. */
  function Needed(w: int, quorum: nat): (n: int) { if w == 0 then quorum else w }

  predicate QuorumPossible(targets: seq<Addr>, w: int, quorum: nat)
  {
    |targets| > 0 && 0 <= w && Needed(w, quorum) <= |targets|
  }

  /** writeS3Chunks: the pieces of a body, each to its own targets. */
  method WriteChunks(nodes: Cluster, pieces: seq<Bytes>, targets: ChunkID -> seq<Addr>, w: int, quorum: nat)
    returns (ok: bool, refs: seq<ChunkRef>)
    modifies nodes`disk
    ensures Grew(nodes.sha, old(nodes.disk), nodes.disk)
    ensures ok ==> ChunksHeld(refs, nodes.disk.Keys) && |refs| == |pieces| > 0
    ensures ok ==> Names(nodes.sha, refs, pieces, targets, Needed(w, quorum))
    ensures nodes.Up() && |pieces| > 0 && (forall id :: QuorumPossible(targets(id), w, quorum)) ==> ok
  {
    refs := [];
    for i := 0 to |pieces|
      invariant Grew(nodes.sha, old(nodes.disk), nodes.disk) && |refs| == i
      invariant ChunksHeld(refs, nodes.disk.Keys)
      invariant Names(nodes.sha, refs, pieces[..i], targets, Needed(w, quorum))
    {
      var id := nodes.sha(pieces[i]);
      ghost var disk := nodes.disk.Keys;
      var written, acked := WriteChunk(nodes, id, pieces[i], targets(id), w, quorum);
      ChunksGrow(refs, disk, nodes.disk.Keys);
      if !written { return false, []; }
      refs := refs + [ChunkRef(id, |pieces[i]|, acked)];
    }
    assert pieces[..|pieces|] == pieces;
    ok := |refs| > 0;
  }

  /** The references name the pieces by hash and size, with at least the needed number of copies, all on
      targets of the piece. */
  ghost predicate Names(sha: Bytes -> ChunkID, refs: seq<ChunkRef>, pieces: seq<Bytes>, targets: ChunkID -> seq<Addr>,
                        need: int)
  {
    && |refs| == |pieces|
    && (forall i :: 0 <= i < |refs| ==>
          refs[i].id == sha(pieces[i]) && refs[i].size == |pieces[i]| && |refs[i].replicas| >= need)
    && (forall i, a :: 0 <= i < |refs| && a in refs[i].replicas ==> a in targets(sha(pieces[i])))
  }

  lemma ChunksGrow(cs: seq<ChunkRef>, disk: Files, disk': Files)
    requires ChunksHeld(cs, disk) && disk <= disk'
    ensures ChunksHeld(cs, disk')
  {
  }

  /** Exactly the object's record changed; it is the one given, and names the pieces. */
  ghost predicate StoredAs(nodes: Cluster, store: MetaStore, was: Objects, obj: ObjectMeta, pieces: seq<Bytes>,
                           targets: ChunkID -> seq<Addr>, need: int)
    reads nodes, store
  {
    var k := ObjKey(obj.bucket, obj.key);
    && k in store.objects && store.objects == was[k := store.objects[k]]
    && Names(nodes.sha, store.objects[k].chunks, pieces, targets, need)
    && var o := store.objects[k];
       o == obj.(chunks := o.chunks, ec := NoEC, stripes := [], version := o.version, createdAt := o.createdAt)
  }

  /** A replicated PUT: write the chunks, then commit the record; either may fail. */
  method PutRound(nodes: Cluster, store: MetaStore, obj: ObjectMeta, pieces: seq<Bytes>,
                  targets: ChunkID -> seq<Addr>, w: int, quorum: nat, now: Instant, ghost sha: string -> string)
    requires Inv(nodes, store)
    modifies nodes`disk, store
    ensures Inv(nodes, store) && Grew(nodes.sha, old(nodes.disk), nodes.disk)
    ensures || store.objects == old(store.objects)
            || StoredAs(nodes, store, old(store.objects), obj, pieces, targets, Needed(w, quorum))
    ensures nodes.Up() && store.up && |pieces| > 0 && (forall id :: QuorumPossible(targets(id), w, quorum)) ==>
      StoredAs(nodes, store, old(store.objects), obj, pieces, targets, Needed(w, quorum))
  {
    ghost var disk := nodes.disk.Keys;
    var ok, refs := WriteChunks(nodes, pieces, targets, w, quorum);
    HeldGrows(store.objects, disk, nodes.disk.Keys);
    if !ok { return; }
    var o := obj.(chunks := refs, ec := NoEC, stripes := []);
    ghost var before := store.Tables();
    var r := store.PutObject(o, now, sha);
    ghost var stored := Stored(before, o, now);
    assert store.Tables() == WithObject(before, stored) || store.Tables() == before;
    assert ObjectHeld(stored, nodes.disk.Keys) && WellFormed(stored);
  }

  // ---- rebalance, garbage collection ----

  /** A replicated chunk with some replica to copy from. */
  ghost predicate Copyable(objects: Objects, k: string, i: nat) {
    k in objects && !IsEC(objects[k]) && i < |objects[k].chunks| && objects[k].chunks[i].replicas != []
  }

  ghost predicate HasWanted(objects: Objects, k: string, i: nat, want: Want) {
    k in objects && i < |objects[k].chunks| && forall a :: a in want(k, i) ==> a in objects[k].chunks[i].replicas
  }

  /** When nothing fails, a chunk ends up on every node it should be on. */
  lemma RoundSettles(plan: seq<Migration>, start: Objects, now: Objects, k: string, i: nat, want: Want,
                     wantStripe: Want)
    requires AllPlanned(plan, start, want) && AllSettled(plan, |plan|, now, want) && ChunksMigrated(start, now, want)
    requires Copyable(start, k, i) && RebalancePlanner.ObjectCovered(plan, start, k, want, wantStripe)
    ensures HasWanted(now, k, i, want)
  {
    assert RebalancePlanner.Covered(plan, start, k, i, want);
    assert ObjectMigrated(k, start[k], now[k], want);
    if j :| 0 <= j < |plan| && plan[j].MoveChunk? && plan[j].key == k && plan[j].index == i {
      assert Planned(plan[j], start, want);
      assert start[k].chunks[i].replicas[0] in plan[j].actual;
    }
  }

  /** A stripe whose shards are on different nodes and for which placement found as many others. */
  ghost predicate Placeable(objects: Objects, k: string, si: nat, want: Want) {
    && HasStripe(objects, k, si) && IsEC(objects[k]) && Spread(ShardsOf(objects, k, si)) && NoRepeats(want(k, si))
    && |want(k, si)| == |ShardsOf(objects, k, si)| && "" !in want(k, si) && "" !in Held(ShardsOf(objects, k, si))
  }

  /** The stripe's shards occupy exactly the placement set, one each. */
  ghost predicate Occupies(objects: Objects, k: string, si: nat, want: Want) {
    && HasStripe(objects, k, si) && Spread(ShardsOf(objects, k, si))
    && Held(ShardsOf(objects, k, si)) == Elems(want(k, si))
  }

  function Upto(n: nat): (s: set<nat>)
    ensures forall j :: 0 <= j < n ==> j in s
  {
    if n == 0 then {} else Upto(n - 1) + {n - 1}
  }

  /** When nothing fails, the shards of a stripe end up on exactly the placement set. */
  lemma RoundPlaces(plan: seq<Migration>, start: Objects, now: Objects, k: string, si: nat, want: Want,
                    wantStripe: Want)
    requires AllPlannedShards(plan, start, wantStripe) && ShardsTracked(plan, |plan|, start, now)
    requires ShardsMoved(plan, |plan|, now) && SameContent(start, now) && Placeable(start, k, si, wantStripe)
    requires RebalancePlanner.ObjectCovered(plan, start, k, want, wantStripe)
    ensures Occupies(now, k, si, wantStripe)
  {
    var shards, desired := ShardsOf(start, k, si), wantStripe(k, si);
    var moves := Moves(shards, desired, |shards|);
    assert SameObject(start[k], now[k]) && SameIDs(shards, now[k].stripes[si].shards);
    assert RebalancePlanner.StripeCovered(plan, start, k, si, wantStripe);
    forall j | 0 <= j < |moves| ensures ShardAt(now, k, si, moves[j].shard, moves[j].newAddr) {
      MoveCarriedOut(plan, now, k, si, shards, desired, moves[j]);
    }
    forall i, j | 0 <= i < |shards| && 0 <= j < |plan| && Moves1(plan[j], k, si, i)
      ensures IsMoved(moves, Upto(|moves|), i)
    {
      PlannedIsMoved(plan, start, k, si, wantStripe, i, j);
    }
    forall i | 0 <= i < |shards| && !IsMoved(moves, Upto(|moves|), i) ensures ShardsOf(now, k, si)[i] == shards[i] {
      assert ShardTracked(plan, |plan|, start, now, k, si, i);
    }
    RebalancePlan.PlanIsBijection(shards, desired, moves, Upto(|moves|), ShardsOf(now, k, si));
  }

  lemma MoveCarriedOut(plan: seq<Migration>, now: Objects, k: string, si: nat, shards: seq<ChunkRef>,
                       desired: seq<Addr>, m: Move)
    requires m in Moves(shards, desired, |shards|) && RebalancePlanner.HasMove(plan, k, si, m)
    requires ShardsMoved(plan, |plan|, now) && NoRepeats(desired) && "" !in desired && "" !in Held(shards)
    ensures ShardAt(now, k, si, m.shard, m.newAddr)
  {
    RebalancePlan.MoveFacts(shards, desired, Moves(shards, desired, |shards|));
    assert m.oldAddr in Held(shards);
    var j :| 0 <= j < |plan| && Carries(plan[j], k, si, m);
  }

  /** A shard the plan moves is among the moves of its stripe. */
  lemma PlannedIsMoved(plan: seq<Migration>, start: Objects, k: string, si: nat, want: Want, i: nat, j: nat)
    requires AllPlannedShards(plan, start, want) && HasStripe(start, k, si) && j < |plan| && Moves1(plan[j], k, si, i)
    ensures var shards := ShardsOf(start, k, si);
      var moves := Moves(shards, want(k, si), |shards|); IsMoved(moves, Upto(|moves|), i)
  {
    var shards := ShardsOf(start, k, si);
    var moves := Moves(shards, want(k, si), |shards|);
    assert PlannedShard(plan[j], start, want);
    var n :| 0 <= n < |moves| && moves[n] == Move(i, plan[j].oldAddr, plan[j].newAddr);
    assert n in Upto(|moves|);
  }

  /** One rebalance round: plan, then run. */
  method RebalanceRound(nodes: Cluster, store: MetaStore, keys: seq<string>, want: Want, wantStripe: Want)
    requires Inv(nodes, store) && forall k :: k in keys ==> k in store.objects
    modifies nodes`disk, store`objects
    ensures Inv(nodes, store) && Grew(nodes.sha, old(nodes.disk), nodes.disk)
    ensures ChunksMigrated(old(store.objects), store.objects, want)
    ensures Reliable(nodes, store, old(nodes.disk)) ==> forall n, i: nat ::
      0 <= n < |keys| && Copyable(old(store.objects), keys[n], i) ==> HasWanted(store.objects, keys[n], i, want)
    ensures Reliable(nodes, store, old(nodes.disk)) ==> forall n, si: nat ::
      0 <= n < |keys| && Placeable(old(store.objects), keys[n], si, wantStripe) ==>
        Occupies(store.objects, keys[n], si, wantStripe)
  {
    var plan := RebalancePlanner.ComputePlan(store.objects, keys, want, wantStripe, nodes.disk.Keys);
    ghost var start, disk := store.objects, nodes.disk;
    Rebalance.RunPlan(nodes, store, plan, want, wantStripe);
    ContentKeepsForm(start, store.objects);
    if Reliable(nodes, store, disk) {
      forall n, i: nat | 0 <= n < |keys| && Copyable(start, keys[n], i)
        ensures HasWanted(store.objects, keys[n], i, want)
      {
        RoundSettles(plan, start, store.objects, keys[n], i, want, wantStripe);
      }
      forall n, si: nat | 0 <= n < |keys| && Placeable(start, keys[n], si, wantStripe)
        ensures Occupies(store.objects, keys[n], si, wantStripe)
      {
        RoundPlaces(plan, start, store.objects, keys[n], si, want, wantStripe);
      }
    }
  }

  /** Nothing fails, and the files that are copied from are right. */
  ghost predicate Reliable(nodes: Cluster, store: MetaStore, was: Disk)
    reads nodes
  {
    nodes.Up() && store.up && HonestDisk(nodes.sha, was)
  }

  /** One collection round over a listing of all records. */
  method GCRound(nodes: Cluster, store: MetaStore, objs: seq<ObjectMeta>, dns: seq<Addr>,
                 listing: Addr -> seq<GarbageCollection.ChunkInfo>, listed: Addr -> bool, cutoff: int)
    requires Inv(nodes, store) && forall k :: k in store.objects ==> store.objects[k] in objs
    modifies nodes`disk
    ensures Inv(nodes, store) && GarbageCollection.Kept(old(nodes.disk), nodes.disk)
    ensures forall p :: p in old(nodes.disk) && p !in nodes.disk ==>
      !Mentions(objs, p.0, p.1) && GarbageCollection.OldFile(listing, GarbageCollection.Sweep(p.0, p.1), cutoff)
  {
    var ok, sweeps := GarbageCollection.ComputePlan(objs, dns, listing, listed, cutoff);
    if !ok { return; }
    ghost var disk := nodes.disk.Keys;
    GarbageCollection.RunSweeps(nodes, sweeps);
    GarbageCollection.SweepKeepsClaims(store.objects, objs, disk, nodes.disk.Keys);
  }

  // ---- repair ----

  /** One stripe: plan its repair from the live nodes, then carry it out. Complete or part-way,
      the record points the shards moved at their new addresses and is otherwise as it was, and Written
      decides what is on disk; a planned repair of a codeword from right survivors completes when nothing
      fails. */
  method RepairRound(nodes: Cluster, store: MetaStore, k: string, si: nat, live: set<Addr>, desired: seq<Addr>,
                     ghost e: Mat, ghost d: Mat, ghost len: nat)
    returns (plan: RepairPlan.StripePlan, done: bool, moved: nat)
    requires Inv(nodes, store) && k in store.objects && IsEC(store.objects[k]) && si < |store.objects[k].stripes|
    modifies nodes`disk, store`objects
    ensures Inv(nodes, store) && Grew(nodes.sha, old(nodes.disk), nodes.disk)
    ensures !plan.Repairs? ==> !done && store.objects == old(store.objects)
    ensures plan.Repairs? ==> moved <= |plan.rep.dead| && (done ==> moved == |plan.rep.dead|)
    ensures plan.Repairs? ==> MovedSoFar(plan.rep, moved, k, si, old(store.objects), store.objects)
    ensures plan.Repairs? ==> PointsAtNew(old(store.objects), store.objects, k, si, plan.rep, moved)
    ensures plan.Repairs? ==> Written(plan.rep, moved, nodes.sha, old(nodes.disk), nodes.disk)
    ensures plan.Repairs? ==> Matches(plan.rep, RepairPlan.IDs(old(store.objects)[k].stripes[si].shards))
    ensures plan.Repairs? && nodes.Up() && store.up && SurvivorsThere(plan.rep, old(nodes.disk)) ==>
      var ids := RepairPlan.IDs(old(store.objects)[k].stripes[si].shards);
      Repairable(plan.rep, ids, e, d, len, nodes.sha, old(nodes.disk)) ==> done
  {
    var o := store.objects[k];
    assert WellFormed(o);
    var shards := o.stripes[si].shards;
    ghost var dead;
    plan, dead := RepairPlan.PlanStripeRepair(shards, o.ec.k, o.ec.m, live, desired);
    done, moved := false, 0;
    if !plan.Repairs? { return; }
    ghost var start, disk := store.objects, nodes.disk.Keys;
    var r;
    r, moved := Repair.RepairStripe(nodes, store, k, si, plan.rep, RepairPlan.IDs(shards), e, d, len);
    done := r.Repaired?;
    HeldGrows(start, disk, nodes.disk.Keys);
    RecordedHeld(start, nodes.disk.Keys, k, si, plan.rep, moved);
    Repair.RecordPointsAtNew(start, k, si, plan.rep, moved);
    ContentKeepsForm(start, store.objects);
  }

  // ---- any sequence of rounds ----

  datatype Round =
    | Put(obj: ObjectMeta, pieces: seq<Bytes>, targets: ChunkID -> seq<Addr>, w: int, quorum: nat, now: Instant)
    | Rebalance(want: Want, wantStripe: Want)
    | Repairs(key: string, stripe: nat, live: set<Addr>, desired: seq<Addr>)
    | Collect(dns: seq<Addr>, listing: Addr -> seq<GarbageCollection.ChunkInfo>, listed: Addr -> bool, cutoff: int)

  /** ListObjects: the object table, in some order. */
  method ListObjects(objects: Objects) returns (keys: seq<string>, objs: seq<ObjectMeta>)
    ensures forall k :: k in keys <==> k in objects
    ensures forall k :: k in objects ==> objects[k] in objs
  {
    keys, objs := [], [];
    var rest := objects.Keys;
    while rest != {}
      invariant rest <= objects.Keys && forall k :: k in keys <==> k in objects.Keys - rest
      invariant forall k :: k in objects.Keys - rest ==> objects[k] in objs
      decreases |rest|
    {
      var k :| k in rest;
      keys, objs := keys + [k], objs + [objects[k]];
      rest := rest - {k};
    }
  }

  /** Over any sequence of rounds, with any failures, claims stay true, and if every file held what its
      name promises at the start it still does: a claimed copy is the chunk itself. */
  method RunRounds(nodes: Cluster, store: MetaStore, rounds: seq<Round>, ghost sha: string -> string)
    requires Inv(nodes, store)
    modifies nodes`disk, store
    ensures Inv(nodes, store)
    ensures HonestDisk(nodes.sha, old(nodes.disk)) ==> HonestDisk(nodes.sha, nodes.disk)
  {
    for i := 0 to |rounds|
      invariant Inv(nodes, store)
      invariant HonestDisk(nodes.sha, old(nodes.disk)) ==> HonestDisk(nodes.sha, nodes.disk)
    {
      var keys, objs := ListObjects(store.objects);
      match rounds[i]
      case Put(obj, pieces, targets, w, quorum, now) =>
        PutRound(nodes, store, obj, pieces, targets, w, quorum, now, sha);
      case Rebalance(want, wantStripe) => RebalanceRound(nodes, store, keys, want, wantStripe);
      case Repairs(k, si, live, desired) =>
        if k in store.objects && IsEC(store.objects[k]) && si < |store.objects[k].stripes| {
          // Claims stay true whatever the shards are, so no codeword is named here.
          var _, _, _ := RepairRound(nodes, store, k, si, live, desired, [], [], 0);
        }
      case Collect(dns, listing, listed, cutoff) =>
        GCRound(nodes, store, objs, dns, listing, listed, cutoff);
    }
  }
}
