/** Rebalance: internal/rebalance/rebalance.go. */
module Rebalance {
  import opened Lists
  import opened Order
  import opened Nodes
  import opened Metadata
  import opened Store
  import opened ClaimSpec
  import opened ClaimProofs
  import opened PlanSpec
  import RebalancePlan

  /** uniqueSorted. */
  method UniqueSorted(xs: seq<Addr>) returns (out: seq<Addr>)
    ensures NoRepeats(out) && Sorted(Less, out) && forall x :: x in out <==> x in xs
  {
    var seen: set<Addr> := {};
    var found: seq<Addr> := [];
    for i := 0 to |xs|
      invariant NoRepeats(found) && forall x :: x in seen <==> x in found
      invariant forall x :: x in found <==> x in xs[..i]
    {
      assert xs[..i + 1] == xs[..i] + [xs[i]];
      if xs[i] !in seen {
        seen := seen + {xs[i]};
        found := found + [xs[i]];
      }
    }
    assert xs[..|xs|] == xs;
    out := Sort(Less, found);
    StringsOrdered(found);
    SortSorted(Less, found);
    PermutedNoRepeats(found, out);
    forall x ensures x in out <==> x in found { SameMembers(out, found, x); }
  }

  /** intersect. */
  method Intersect(a: seq<Addr>, b: seq<Addr>) returns (out: seq<Addr>)
    ensures forall x :: x in out <==> x in a && x in b
  {
    out := [];
    for i := 0 to |a|
      invariant forall x :: x in out <==> x in a[..i] && x in b
    {
      assert a[..i + 1] == a[..i] + [a[i]];
      if a[i] in b { out := out + [a[i]]; }
    }
    assert a[..|a|] == a;
  }

  /** Copy a chunk to every missing node; any copy may fail. */
  method CopyMissing(nodes: Cluster, id: ChunkID, data: Bytes, missing: seq<Addr>)
    returns (good: seq<Addr>, failed: bool)
    modifies nodes`disk
    ensures Grew(nodes.sha, old(nodes.disk), nodes.disk)
    ensures forall a :: a in good ==> a in missing && (a, id) in nodes.disk
    ensures !failed ==> good == missing
    ensures nodes.Up() && nodes.sha(data) == id ==> !failed
  {
    good, failed := [], false;
    for i := 0 to |missing|
      invariant Grew(nodes.sha, old(nodes.disk), nodes.disk)
      invariant forall a :: a in good ==> a in missing && (a, id) in nodes.disk
      invariant !failed ==> good == missing[..i]
      invariant nodes.Up() && nodes.sha(data) == id ==> !failed
    {
      var r := nodes.Put(missing[i], id, data, false);
      if r.Acked? { good := good + [missing[i]]; } else { failed := true; }
    }
    assert missing[..|missing|] == missing;
  }

  /** The final replica list: the desired set when every copy succeeded, otherwise nothing is dropped. */
  method FinalReplicas(mg: Migration, good: seq<Addr>, failed: bool) returns (r: seq<Addr>)
    requires mg.MoveChunk? && (forall a :: a in mg.missing <==> a in mg.desired && a !in mg.actual)
    requires (forall a :: a in good ==> a in mg.missing) && (!failed ==> forall a :: a in mg.missing ==> a in good)
    ensures NoRepeats(r) && Sorted(Less, r) && forall a :: a in r ==> a in mg.actual || a in good
    ensures !failed ==> forall a :: a in r <==> a in mg.desired
    ensures failed ==> forall a :: a in r <==> a in mg.actual || a in good
  {
    if !failed {
      var kept := Intersect(mg.actual, mg.desired);
      r := UniqueSorted(kept + good);
    } else {
      r := UniqueSorted(mg.actual + good);
    }
  }

  /** migrateChunk. */
  method MigrateChunk(nodes: Cluster, store: MetaStore, mg: Migration, ghost start: Objects, ghost want: Want)
    returns (ok: bool, ghost replicas: seq<Addr>)
    requires mg.MoveChunk? && Fits(mg, store.objects, nodes.disk.Keys) && Planned(mg, start, want)
    requires AllHeld(store.objects, nodes.disk.Keys) && ChunksMigrated(start, store.objects, want)
    modifies nodes`disk, store`objects
    ensures AllHeld(store.objects, nodes.disk.Keys) && ChunksMigrated(start, store.objects, want)
    ensures Grew(nodes.sha, old(nodes.disk), nodes.disk) && SameContent(old(store.objects), store.objects)
    ensures nodes.Up() && store.up && CanMigrate(mg, old(store.objects), nodes.sha, old(nodes.disk)) ==> ok
    ensures mg.actual == [] ==> store.objects == old(store.objects)
    ensures || store.objects == old(store.objects)
            || ChunkChanged(old(store.objects), store.objects, mg.key, mg.index, replicas)
    ensures ok ==> ChunkChanged(old(store.objects), store.objects, mg.key, mg.index, replicas)
    ensures ok ==> forall a :: a in replicas <==> a in mg.desired
  {
    SameSelf(store.objects);
    replicas := [];
    if |mg.actual| == 0 { return false, []; }
    assert mg.actual[0] in mg.actual;
    var data := nodes.Read(mg.id, mg.actual);
    if data.Failed? { return false, []; }
    ghost var disk := nodes.disk.Keys;
    var good, failed := CopyMissing(nodes, mg.id, data.body, mg.missing);
    HeldGrows(store.objects, disk, nodes.disk.Keys);
    var final := FinalReplicas(mg, good, failed);
    replicas := final;
    ghost var before := store.objects;
    var updated := store.UpdateChunkReplicas(mg.key, mg.index, final);
    if updated {
      ChunkUpdate(before, nodes.disk.Keys, mg.key, mg.index, final);
      MigratedChunk(start, before, want, mg, final);
    }
    ok := updated && !failed;
  }

  /** The chunk exists and can be read from right files. */
  ghost predicate CanMigrate(mg: Migration, objects: Objects, sha: Bytes -> ChunkID, disk: Disk)
    requires mg.MoveChunk?
  {
    && mg.actual != [] && mg.key in objects && mg.index < |objects[mg.key].chunks|
    && HonestAt(sha, disk, mg.id, mg.actual)
  }

  /** Read a shard from one node and write it to another. */
  method CopyShard(nodes: Cluster, id: ChunkID, from: Addr, to: Addr) returns (ok: bool)
    modifies nodes`disk
    ensures Grew(nodes.sha, old(nodes.disk), nodes.disk)
    ensures ok ==> (to, id) in nodes.disk
    ensures nodes.Up() && (from, id) in old(nodes.disk) && nodes.sha(old(nodes.disk)[(from, id)]) == id ==> ok
  {
    var data := nodes.Read(id, [from]);
    if data.Failed? { return false; }
    var put := nodes.Put(to, id, data.body, false);
    ok := put.Acked?;
  }

  /** migrateShard. */
  method MigrateShard(nodes: Cluster, store: MetaStore, mg: Migration, ghost start: Objects, ghost want: Want)
    returns (ok: bool)
    requires mg.MoveShard? && Fits(mg, store.objects, nodes.disk.Keys)
    requires AllHeld(store.objects, nodes.disk.Keys) && ChunksMigrated(start, store.objects, want)
    modifies nodes`disk, store`objects
    ensures AllHeld(store.objects, nodes.disk.Keys) && ChunksMigrated(start, store.objects, want)
    ensures Grew(nodes.sha, old(nodes.disk), nodes.disk) && SameContent(old(store.objects), store.objects)
    ensures nodes.Up() && store.up && Movable(mg, old(store.objects), nodes.sha, old(nodes.disk)) ==> ok
    ensures !ok ==> store.objects == old(store.objects)
    ensures ok ==>
      ShardChanged(old(store.objects), store.objects, mg.key, mg.stripe, mg.shard, [mg.newAddr]) && mg.newAddr != ""
  {
    SameSelf(store.objects);
    if mg.oldAddr == "" || mg.newAddr == "" { return false; }
    ghost var disk := nodes.disk.Keys;
    var copied := CopyShard(nodes, mg.id, mg.oldAddr, mg.newAddr);
    HeldGrows(store.objects, disk, nodes.disk.Keys);
    if !copied { return false; }
    ghost var before := store.objects;
    ok := store.UpdateShardReplicas(mg.key, mg.stripe, mg.shard, [mg.newAddr]);
    if ok {
      ShardUpdate(before, nodes.disk.Keys, mg.key, mg.stripe, mg.shard, [mg.newAddr]);
      MigratedShard(start, before, want, mg.key, mg.stripe, mg.shard, [mg.newAddr]);
    }
  }

  /** Run: every migration of the plan, each of which may fail. */
  method RunPlan(nodes: Cluster, store: MetaStore, plan: seq<Migration>, ghost want: Want, ghost wantStripe: Want)
    requires AllHeld(store.objects, nodes.disk.Keys) && AllFit(plan, store.objects, nodes.disk.Keys)
    requires AllPlanned(plan, store.objects, want) && AllPlannedShards(plan, store.objects, wantStripe)
    modifies nodes`disk, store`objects
    ensures AllHeld(store.objects, nodes.disk.Keys) && Grew(nodes.sha, old(nodes.disk), nodes.disk)
    ensures ChunksMigrated(old(store.objects), store.objects, want)
    ensures ShardsTracked(plan, |plan|, old(store.objects), store.objects)
    ensures nodes.Up() && store.up && HonestDisk(nodes.sha, old(nodes.disk)) ==> Done(plan, |plan|, store.objects, want)
  {
    ghost var start, disk := store.objects, nodes.disk;
    MigratedAtStart(start, want);
    for i := 0 to |plan|
      invariant AllHeld(store.objects, nodes.disk.Keys) && Grew(nodes.sha, disk, nodes.disk)
      invariant ChunksMigrated(start, store.objects, want) && ShardsTracked(plan, i, start, store.objects)
      invariant nodes.Up() && store.up && HonestDisk(nodes.sha, disk) ==> Done(plan, i, store.objects, want)
    {
      RunOne(nodes, store, plan, i, start, disk, want, wantStripe);
    }
  }

  /** One migration of the plan. */
  method RunOne(nodes: Cluster, store: MetaStore, plan: seq<Migration>, i: nat, ghost start: Objects, ghost disk: Disk,
                ghost want: Want, ghost wantStripe: Want)
    requires i < |plan| && AllHeld(start, disk.Keys) && AllFit(plan, start, disk.Keys)
    requires AllPlanned(plan, start, want) && AllPlannedShards(plan, start, wantStripe)
    requires AllHeld(store.objects, nodes.disk.Keys) && Grew(nodes.sha, disk, nodes.disk)
    requires ChunksMigrated(start, store.objects, want) && ShardsTracked(plan, i, start, store.objects)
    modifies nodes`disk, store`objects
    ensures AllHeld(store.objects, nodes.disk.Keys) && Grew(nodes.sha, disk, nodes.disk)
    ensures ChunksMigrated(start, store.objects, want) && ShardsTracked(plan, i + 1, start, store.objects)
    ensures nodes.Up() && store.up && HonestDisk(nodes.sha, disk) && Done(plan, i, old(store.objects), want) ==>
      Done(plan, i + 1, store.objects, want)
  {
    StillFits(plan[i], start, disk.Keys, store.objects, nodes.disk.Keys);
    ghost var before, was := store.objects, nodes.disk;
    if plan[i].MoveShard? {
      if HonestDisk(nodes.sha, disk) && plan[i].oldAddr != "" && plan[i].newAddr != "" {
        StillMovable(plan[i], start, before, nodes.sha, disk, was, wantStripe);
      }
      var ok := MigrateShard(nodes, store, plan[i], start, want);
      GrewMore(nodes.sha, disk, was, nodes.disk);
      ShardStep(plan, i, start, before, store.objects, want, wantStripe, ok);
    } else {
      assert SameObject(start[plan[i].key], before[plan[i].key]);
      var ok, replicas := MigrateChunk(nodes, store, plan[i], start, want);
      GrewMore(nodes.sha, disk, was, nodes.disk);
      ChunkStep(plan, i, start, before, store.objects, want, ok, replicas);
    }
  }

  /** A planned shard is still where it was, and its file is right. */
  lemma StillMovable(mg: Migration, start: Objects, now: Objects, sha: Bytes -> ChunkID, disk: Disk, was: Disk,
                     want: Want)
    requires mg.MoveShard? && PlannedShard(mg, start, want) && Fits(mg, start, disk.Keys)
    requires AllHeld(start, disk.Keys) && SameContent(start, now) && HonestDisk(sha, disk) && Grew(sha, disk, was)
    requires mg.oldAddr != "" && mg.newAddr != ""
    ensures Movable(mg, now, sha, was)
  {
    var shards := ShardsOf(start, mg.key, mg.stripe);
    MoveIsOutside(shards, want(mg.key, mg.stripe), Move(mg.shard, mg.oldAddr, mg.newAddr));
    assert ObjectHeld(start[mg.key], disk.Keys) && ChunksHeld(shards, disk.Keys);
    assert ChunkHeld(shards[mg.shard], disk.Keys);
    assert SameObject(start[mg.key], now[mg.key]);
    assert SameIDs(shards, now[mg.key].stripes[mg.stripe].shards);
  }

  lemma MoveIsOutside(shards: seq<ChunkRef>, desired: seq<Addr>, m: Move)
    requires m in Moves(shards, desired, |shards|)
    ensures m.shard < |shards| && IsOutside(shards[m.shard], desired) && m.oldAddr == shards[m.shard].replicas[0]
  {
    var moves, out := Moves(shards, desired, |shards|), Outside(shards, desired, |shards|);
    var j :| 0 <= j < |moves| && moves[j] == m;
    assert out[j] in out;
  }

  /** A shard is moved to one place only. */
  lemma OneTarget(plan: seq<Migration>, start: Objects, want: Want, i: nat, j: nat)
    requires AllPlannedShards(plan, start, want) && i < |plan| && j < |plan|
    requires plan[i].MoveShard? && Moves1(plan[j], plan[i].key, plan[i].stripe, plan[i].shard)
    ensures plan[i].newAddr == plan[j].newAddr
  {
    assert PlannedShard(plan[i], start, want) && PlannedShard(plan[j], start, want);
    var shards := ShardsOf(start, plan[i].key, plan[i].stripe);
    var moves := Moves(shards, want(plan[i].key, plan[i].stripe), |shards|);
    var a :| 0 <= a < |moves| && moves[a] == Move(plan[i].shard, plan[i].oldAddr, plan[i].newAddr);
    var b :| 0 <= b < |moves| && moves[b] == Move(plan[j].shard, plan[j].oldAddr, plan[j].newAddr);
  }

  /** What a shard migration does to the shards and chunks tracked so far. */
  lemma ShardStep(plan: seq<Migration>, i: nat, start: Objects, before: Objects, after: Objects, want: Want,
                  wantStripe: Want, ok: bool)
    requires i < |plan| && plan[i].MoveShard? && AllPlannedShards(plan, start, wantStripe)
    requires ShardsTracked(plan, i, start, before) && (!ok ==> after == before)
    requires ok ==> ShardChanged(before, after, plan[i].key, plan[i].stripe, plan[i].shard, [plan[i].newAddr])
    ensures ShardsTracked(plan, i + 1, start, after)
    ensures Done(plan, i, before, want) && (ok || plan[i].oldAddr == "" || plan[i].newAddr == "") ==>
      Done(plan, i + 1, after, want)
  {
    ShardStaysTracked(plan, i, start, before, after, ok);
    if Done(plan, i, before, want) && (ok || plan[i].oldAddr == "" || plan[i].newAddr == "") {
      ShardKeepsSettled(plan, i, before, after, want, ok);
      ShardStaysMoved(plan, i, start, before, after, wantStripe, ok);
    }
  }

  lemma ShardStaysTracked(plan: seq<Migration>, i: nat, start: Objects, before: Objects, after: Objects, ok: bool)
    requires i < |plan| && plan[i].MoveShard? && ShardsTracked(plan, i, start, before) && (!ok ==> after == before)
    requires ok ==> ShardChanged(before, after, plan[i].key, plan[i].stripe, plan[i].shard, [plan[i].newAddr])
    ensures ShardsTracked(plan, i + 1, start, after)
  {
    var n := i + 1;
    forall k, si: nat, shi: nat ensures ShardTracked(plan, n, start, after, k, si, shi) {
      assert ShardTracked(plan, i, start, before, k, si, shi);
      assert Moves1(plan[i], plan[i].key, plan[i].stripe, plan[i].shard);
    }
  }

  lemma ShardStaysMoved(plan: seq<Migration>, i: nat, start: Objects, before: Objects, after: Objects, want: Want,
                        ok: bool)
    requires i < |plan| && plan[i].MoveShard? && AllPlannedShards(plan, start, want) && ShardsMoved(plan, i, before)
    requires if ok then ShardChanged(before, after, plan[i].key, plan[i].stripe, plan[i].shard, [plan[i].newAddr])
             else after == before && (plan[i].oldAddr == "" || plan[i].newAddr == "")
    ensures ShardsMoved(plan, i + 1, after)
  {
    forall j | 0 <= j < i && plan[j].MoveShard? && plan[j].oldAddr != "" && plan[j].newAddr != ""
      ensures ShardAt(after, plan[j].key, plan[j].stripe, plan[j].shard, plan[j].newAddr)
    {
      assert ShardAt(before, plan[j].key, plan[j].stripe, plan[j].shard, plan[j].newAddr);
      if Moves1(plan[j], plan[i].key, plan[i].stripe, plan[i].shard) { OneTarget(plan, start, want, i, j); }
    }
  }

  lemma ShardKeepsSettled(plan: seq<Migration>, i: nat, before: Objects, after: Objects, want: Want, ok: bool)
    requires i < |plan| && plan[i].MoveShard? && AllSettled(plan, i, before, want) && (!ok ==> after == before)
    requires ok ==> ShardChanged(before, after, plan[i].key, plan[i].stripe, plan[i].shard, [plan[i].newAddr])
    ensures AllSettled(plan, i + 1, after, want)
  {
    forall j | 0 <= j < i && plan[j].MoveChunk? && plan[j].actual != []
      ensures Settled(after, plan[j].key, plan[j].index, want)
    {
      assert Settled(before, plan[j].key, plan[j].index, want);
    }
  }

  /** What a chunk migration does to them. */
  lemma ChunkStep(plan: seq<Migration>, i: nat, start: Objects, before: Objects, after: Objects, want: Want, ok: bool,
                  replicas: seq<Addr>)
    requires i < |plan| && plan[i].MoveChunk? && Planned(plan[i], start, want)
    requires ShardsTracked(plan, i, start, before)
    requires after == before || ChunkChanged(before, after, plan[i].key, plan[i].index, replicas)
    requires plan[i].actual == [] ==> after == before
    requires ok ==> ChunkChanged(before, after, plan[i].key, plan[i].index, replicas)
    requires ok ==> forall a :: a in replicas <==> a in plan[i].desired
    ensures ShardsTracked(plan, i + 1, start, after)
    ensures Done(plan, i, before, want) && (ok || plan[i].actual == []) ==> Done(plan, i + 1, after, want)
  {
    var n := i + 1;
    forall k, si: nat, shi: nat ensures ShardTracked(plan, n, start, after, k, si, shi) {
      assert ShardTracked(plan, i, start, before, k, si, shi);
    }
    if Done(plan, i, before, want) && (ok || plan[i].actual == []) {
      forall j | 0 <= j < i && plan[j].MoveChunk? && plan[j].actual != []
        ensures Settled(after, plan[j].key, plan[j].index, want)
      {
        assert Settled(before, plan[j].key, plan[j].index, want);
      }
      forall j | 0 <= j < i && plan[j].MoveShard? && plan[j].oldAddr != "" && plan[j].newAddr != ""
        ensures ShardAt(after, plan[j].key, plan[j].stripe, plan[j].shard, plan[j].newAddr)
      {
        assert ShardAt(before, plan[j].key, plan[j].stripe, plan[j].shard, plan[j].newAddr);
      }
    }
  }
}

/** ComputePlan of the rebalancer. */
module RebalancePlanner {
  import opened Lists
  import opened Order
  import opened Nodes
  import opened Metadata
  import opened ClaimSpec
  import opened PlanSpec
  import RebalancePlan

  /** Every plan entry is about these records. */
  ghost predicate Good(plan: seq<Migration>, objects: Objects, disk: Files, want: Want, wantStripe: Want) {
    AllFit(plan, objects, disk) && AllPlanned(plan, objects, want) && AllPlannedShards(plan, objects, wantStripe)
  }

  /** Chunk i of object k has all it should have, or a migration is planned for it. */
  ghost predicate Covered(plan: seq<Migration>, objects: Objects, k: string, i: nat, want: Want) {
    k in objects && i < |objects[k].chunks| ==>
      || (forall a :: a in want(k, i) ==> a in objects[k].chunks[i].replicas)
      || exists j :: 0 <= j < |plan| && plan[j].MoveChunk? && plan[j].key == k && plan[j].index == i
  }

  /** Every move planned for stripe si of object k is in the plan. */
  ghost predicate StripeCovered(plan: seq<Migration>, objects: Objects, k: string, si: nat, wantStripe: Want) {
    HasStripe(objects, k, si) ==>
      var shards := ShardsOf(objects, k, si);
      forall m <- Moves(shards, wantStripe(k, si), |shards|) :: HasMove(plan, k, si, m)
  }

  ghost predicate HasMove(plan: seq<Migration>, k: string, si: nat, m: Move) {
    exists j :: 0 <= j < |plan| && Carries(plan[j], k, si, m)
  }

  /** All chunks of a replicated object are, or all stripes of an erasure-coded one. */
  ghost predicate ObjectCovered(plan: seq<Migration>, objects: Objects, k: string, want: Want, wantStripe: Want) {
    k in objects ==>
      if IsEC(objects[k]) then
        forall si: nat :: si < |objects[k].stripes| ==> StripeCovered(plan, objects, k, si, wantStripe)
      else forall i: nat :: i < |objects[k].chunks| ==> Covered(plan, objects, k, i, want)
  }

  lemma StripeCoveredLonger(plan: seq<Migration>, more: seq<Migration>, objects: Objects, k: string, si: nat,
                            wantStripe: Want)
    requires StripeCovered(plan, objects, k, si, wantStripe) || StripeCovered(more, objects, k, si, wantStripe)
    ensures StripeCovered(plan + more, objects, k, si, wantStripe)
  {
    if HasStripe(objects, k, si) {
      var shards := ShardsOf(objects, k, si);
      forall m | m in Moves(shards, wantStripe(k, si), |shards|) ensures HasMove(plan + more, k, si, m) {
        MoveLonger(plan, more, k, si, m);
      }
    }
  }

  lemma MoveLonger(plan: seq<Migration>, more: seq<Migration>, k: string, si: nat, m: Move)
    requires HasMove(plan, k, si, m) || HasMove(more, k, si, m)
    ensures HasMove(plan + more, k, si, m)
  {
    var all := plan + more;
    if HasMove(plan, k, si, m) {
      var j :| 0 <= j < |plan| && Carries(plan[j], k, si, m);
      assert all[j] == plan[j];
    } else {
      var j :| 0 <= j < |more| && Carries(more[j], k, si, m);
      var n := |plan| + j;
      assert all[n] == more[j];
    }
  }

  lemma CoveredLonger(plan: seq<Migration>, more: seq<Migration>, objects: Objects, k: string, i: nat, want: Want)
    requires Covered(plan, objects, k, i, want) || Covered(more, objects, k, i, want)
    ensures Covered(plan + more, objects, k, i, want)
  {
    if j :| 0 <= j < |plan| && plan[j].MoveChunk? && plan[j].key == k && plan[j].index == i {
      assert (plan + more)[j] == plan[j];
    }
    if j :| 0 <= j < |more| && more[j].MoveChunk? && more[j].key == k && more[j].index == i {
      var n := |plan| + j;
      assert (plan + more)[n] == more[j];
    }
  }

  lemma ObjectCoveredLonger(plan: seq<Migration>, more: seq<Migration>, objects: Objects, k: string, want: Want,
                            wantStripe: Want)
    requires ObjectCovered(plan, objects, k, want, wantStripe) || ObjectCovered(more, objects, k, want, wantStripe)
    ensures ObjectCovered(plan + more, objects, k, want, wantStripe)
  {
    if k in objects && IsEC(objects[k]) {
      forall si: nat | si < |objects[k].stripes| ensures StripeCovered(plan + more, objects, k, si, wantStripe) {
        StripeCoveredLonger(plan, more, objects, k, si, wantStripe);
      }
    } else if k in objects {
      forall i: nat | i < |objects[k].chunks| ensures Covered(plan + more, objects, k, i, want) {
        CoveredLonger(plan, more, objects, k, i, want);
      }
    }
  }

  lemma GoodJoin(a: seq<Migration>, b: seq<Migration>, objects: Objects, disk: Files, want: Want, wantStripe: Want)
    requires Good(a, objects, disk, want, wantStripe) && Good(b, objects, disk, want, wantStripe)
    ensures Good(a + b, objects, disk, want, wantStripe)
  {
  }

  /** planChunks for one chunk. */
  method PlanChunk(objects: Objects, k: string, i: nat, place: seq<Addr>, ghost disk: Files, ghost want: Want,
                   ghost wantStripe: Want)
    returns (out: seq<Migration>)
    requires k in objects && i < |objects[k].chunks| && AllHeld(objects, disk) && place == want(k, i)
    ensures Good(out, objects, disk, want, wantStripe) && Covered(out, objects, k, i, want)
    ensures out == [] <==> forall a :: a in place ==> a in objects[k].chunks[i].replicas
  {
    var c := objects[k].chunks[i];
    var actual, desired, missing := CompareReplicas(c.replicas, place);
    out := [];
    if |missing| > 0 {
      out := [MoveChunk(k, i, c.id, actual, desired, missing)];
      GoodChunk(objects, out[0], disk, want, wantStripe);
    }
  }

  /** Actual and desired, sorted, and what is missing. */
  method CompareReplicas(replicas: seq<Addr>, place: seq<Addr>)
    returns (actual: seq<Addr>, desired: seq<Addr>, missing: seq<Addr>)
    ensures forall a :: (a in desired <==> a in place) && (a in actual <==> a in replicas)
    ensures forall a :: a in missing <==> a in desired && a !in actual
    ensures missing == [] <==> forall a :: a in place ==> a in replicas
  {
    desired, actual := Sort(Less, place), Sort(Less, replicas);
    forall a ensures (a in desired <==> a in place) && (a in actual <==> a in replicas) {
      SameMembers(desired, place, a);
      SameMembers(actual, replicas, a);
    }
    missing := RebalancePlan.SetDiff(desired, set a | a in actual);
    if missing != [] { assert missing[0] in missing; }
  }

  lemma GoodChunk(objects: Objects, mg: Migration, disk: Files, want: Want, wantStripe: Want)
    requires mg.MoveChunk? && mg.key in objects && mg.index < |objects[mg.key].chunks| && AllHeld(objects, disk)
    requires mg.id == objects[mg.key].chunks[mg.index].id
    requires forall a :: a in mg.actual <==> a in objects[mg.key].chunks[mg.index].replicas
    requires forall a :: a in mg.desired <==> a in want(mg.key, mg.index)
    requires forall a :: a in mg.missing <==> a in mg.desired && a !in mg.actual
    ensures Good([mg], objects, disk, want, wantStripe)
  {
  }

  /** planEC for one stripe: one migration per planned move. */
  method PlanShards(objects: Objects, k: string, si: nat, place: seq<Addr>, ghost disk: Files, ghost want: Want,
                    ghost wantStripe: Want)
    returns (out: seq<Migration>)
    requires HasStripe(objects, k, si) && IsEC(objects[k]) && place == wantStripe(k, si)
    ensures Good(out, objects, disk, want, wantStripe) && StripeCovered(out, objects, k, si, wantStripe)
  {
    var shards := objects[k].stripes[si].shards;
    var moves := RebalancePlan.PlanStripe(shards, place);
    out := [];
    for j := 0 to |moves|
      invariant Good(out, objects, disk, want, wantStripe)
      invariant forall n :: 0 <= n < j ==> HasMove(out, k, si, moves[n])
    {
      assert moves[j].shard in Outside(shards, place, |shards|);
      var m := moves[j];
      var one := [MoveShard(k, si, m.shard, shards[m.shard].id, m.oldAddr, m.newAddr)];
      assert m in moves && one[0].newAddr == m.newAddr;
      GoodJoin(out, one, objects, disk, want, wantStripe);
      forall n | 0 <= n <= j ensures HasMove(out + one, k, si, moves[n]) {
        assert n == j ==> Moves1(one[0], k, si, m.shard);
        MoveLonger(out, one, k, si, moves[n]);
      }
      out := out + one;
    }
  }

  /** planEC. */
  method PlanEC(objects: Objects, k: string, ghost want: Want, wantStripe: Want, ghost disk: Files)
    returns (out: seq<Migration>)
    requires k in objects && IsEC(objects[k])
    ensures Good(out, objects, disk, want, wantStripe) && ObjectCovered(out, objects, k, want, wantStripe)
  {
    out := [];
    for si := 0 to |objects[k].stripes|
      invariant Good(out, objects, disk, want, wantStripe)
      invariant forall n: nat :: n < si ==> StripeCovered(out, objects, k, n, wantStripe)
    {
      var more := PlanShards(objects, k, si, wantStripe(k, si), disk, want, wantStripe);
      GoodJoin(out, more, objects, disk, want, wantStripe);
      forall n: nat | n <= si ensures StripeCovered(out + more, objects, k, n, wantStripe) {
        StripeCoveredLonger(out, more, objects, k, n, wantStripe);
      }
      out := out + more;
    }
  }

  /** planChunks. */
  method PlanChunks(objects: Objects, k: string, want: Want, ghost wantStripe: Want, ghost disk: Files)
    returns (out: seq<Migration>)
    requires k in objects && !IsEC(objects[k]) && AllHeld(objects, disk)
    ensures Good(out, objects, disk, want, wantStripe) && ObjectCovered(out, objects, k, want, wantStripe)
  {
    out := [];
    for i := 0 to |objects[k].chunks|
      invariant Good(out, objects, disk, want, wantStripe)
      invariant forall n: nat :: n < i ==> Covered(out, objects, k, n, want)
    {
      var more := PlanChunk(objects, k, i, want(k, i), disk, want, wantStripe);
      GoodJoin(out, more, objects, disk, want, wantStripe);
      forall n: nat | n <= i ensures Covered(out + more, objects, k, n, want) {
        CoveredLonger(out, more, objects, k, n, want);
      }
      out := out + more;
    }
  }

  /** ComputePlan over the listed objects. */
  method ComputePlan(objects: Objects, keys: seq<string>, want: Want, wantStripe: Want, ghost disk: Files)
    returns (plan: seq<Migration>)
    requires (forall k :: k in keys ==> k in objects) && AllHeld(objects, disk)
    ensures Good(plan, objects, disk, want, wantStripe)
    ensures forall n :: 0 <= n < |keys| ==> ObjectCovered(plan, objects, keys[n], want, wantStripe)
  {
    plan := [];
    for n := 0 to |keys|
      invariant Good(plan, objects, disk, want, wantStripe)
      invariant forall q :: 0 <= q < n ==> ObjectCovered(plan, objects, keys[q], want, wantStripe)
    {
      var more;
      if IsEC(objects[keys[n]]) {
        more := PlanEC(objects, keys[n], want, wantStripe, disk);
      } else {
        more := PlanChunks(objects, keys[n], want, wantStripe, disk);
      }
      GoodJoin(plan, more, objects, disk, want, wantStripe);
      forall q | 0 <= q <= n ensures ObjectCovered(plan + more, objects, keys[q], want, wantStripe) {
        ObjectCoveredLonger(plan, more, objects, keys[q], want, wantStripe);
      }
      plan := plan + more;
    }
  }
}
