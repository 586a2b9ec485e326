/** repairStripe of internal/repair/repair.go: rebuild the shards of dead nodes from K survivors. */
module RepairSpec {
  import opened GF
  import opened Linear
  import opened Encodings
  import opened Vandermonde
  import opened ReedSolomon
  import opened Nodes
  import opened Metadata
  import opened Store
  import opened ClaimSpec
  import opened ClaimProofs

  datatype Survivor = Survivor(index: nat, id: ChunkID, addr: Addr)

  datatype DeadShard = DeadShard(index: nat, id: ChunkID, newAddr: Addr, force: bool)

  datatype StripeRepair = StripeRepair(k: int, m: int, survivors: seq<Survivor>, dead: seq<DeadShard>)

  /** The chunk ids of a stripe are the hashes of one codeword. */
  ghost predicate IsCodeword(ids: seq<ChunkID>, e: Mat, d: Mat, len: nat, sha: Bytes -> ChunkID) {
    && 0 < len && IsMat(d, |d|, len) && IsMat(e, |ids|, |d|)
    && forall i :: 0 <= i < |ids| ==> ids[i] == sha(ShardOf(e, d, len, i))
  }

  /** The repair plan talks about the shards of that stripe. */
  ghost predicate Matches(rep: StripeRepair, ids: seq<ChunkID>) {
    && 0 < rep.k && 0 < rep.m && rep.k + rep.m <= 256 && |ids| == rep.k + rep.m
    && (forall i :: 0 <= i < |rep.survivors| ==>
         rep.survivors[i].index < |ids| && rep.survivors[i].id == ids[rep.survivors[i].index])
    && (forall i, j :: 0 <= i < j < |rep.survivors| ==> rep.survivors[i].index != rep.survivors[j].index)
    && (forall i :: 0 <= i < |rep.dead| ==>
         rep.dead[i].index < |ids| && rep.dead[i].id == ids[rep.dead[i].index])
    && (forall i, j :: 0 <= i < j < |rep.dead| ==> rep.dead[i].index != rep.dead[j].index)
  }

  /** The plan is about the stripe of d, the hash has no collisions, and the K files to be read are the
      survivors' own. */
  ghost predicate Repairable(rep: StripeRepair, ids: seq<ChunkID>, e: Mat, d: Mat, len: nat,
                             sha: Bytes -> ChunkID, disk: Disk)
  {
    && Matches(rep, ids) && |d| == rep.k && IsEncoding(e, rep.k, rep.m) && IsSystematic(e, rep.k, rep.m)
    && IsCodeword(ids, e, d, len, sha) && Injective(sha) && SurvivorsHonest(rep, sha, disk)
  }

  /** The nodes that are read still have their shards. */
  ghost predicate SurvivorsThere(rep: StripeRepair, disk: Disk) {
    forall i :: 0 <= i < |rep.survivors| && i < rep.k ==> (rep.survivors[i].addr, rep.survivors[i].id) in disk
  }

  /** A repair for which a cluster that fails no request reports success. */
  ghost predicate Succeeds(rep: StripeRepair, ids: seq<ChunkID>, e: Mat, d: Mat, len: nat, sha: Bytes -> ChunkID,
                           disk: Disk, objects: Objects, k: string, si: nat)
  {
    && Repairable(rep, ids, e, d, len, sha, disk) && |rep.survivors| >= rep.k && SurvivorsThere(rep, disk)
    && AllRecorded(objects, k, si, rep, |rep.dead|)
  }

  ghost predicate SurvivorsHonest(rep: StripeRepair, sha: Bytes -> ChunkID, disk: Disk) {
    forall i :: 0 <= i < |rep.survivors| && i < rep.k ==>
      var p := (rep.survivors[i].addr, rep.survivors[i].id); p in disk ==> sha(disk[p]) == p.1
  }

  /** The indices of the first n survivors. */
  ghost function Indices(survivors: seq<Survivor>, n: nat): (s: set<nat>)
    requires n <= |survivors|
  {
    set i | 0 <= i < n :: survivors[i].index
  }

  lemma {:induction false} IndicesCount(survivors: seq<Survivor>, n: nat)
    requires n <= |survivors|
    requires forall i, j :: 0 <= i < j < |survivors| ==> survivors[i].index != survivors[j].index
    ensures |Indices(survivors, n)| == n
  {
    if n > 0 {
      IndicesCount(survivors, n - 1);
      assert Indices(survivors, n) == Indices(survivors, n - 1) + {survivors[n - 1].index};
    }
  }

  /** Bytes with a shard's hash are the shard. */
  lemma HashIsShard(ids: seq<ChunkID>, e: Mat, d: Mat, len: nat, sha: Bytes -> ChunkID, i: nat, body: Bytes)
    requires IsCodeword(ids, e, d, len, sha) && Injective(sha) && i < |ids|
    ensures sha(body) == ids[i] <==> body == ShardOf(e, d, len, i)
  {
  }

  /** The slots after reading the first n survivors. */
  ghost predicate Loaded(shards: seq<Shard>, rep: StripeRepair, e: Mat, d: Mat, len: nat, n: nat) {
    && n <= |rep.survivors| && |shards| == |e| && IsMat(e, |e|, |d|)
    && Erased(shards, e, d, len, Indices(rep.survivors, n))
  }

  lemma LoadNext(shards: seq<Shard>, rep: StripeRepair, e: Mat, d: Mat, len: nat, n: nat, body: Shard)
    requires n < |rep.survivors| && Loaded(shards, rep, e, d, len, n)
    requires var i := rep.survivors[n].index; i < |shards| && body == ShardOf(e, d, len, i)
    ensures Loaded(shards[rep.survivors[n].index := body], rep, e, d, len, n + 1)
  {
  }

  lemma NothingLoaded(shards: seq<Shard>, rep: StripeRepair, ids: seq<ChunkID>, e: Mat, d: Mat, len: nat,
                      sha: Bytes -> ChunkID, disk: Disk)
    requires Repairable(rep, ids, e, d, len, sha, disk) && |shards| == rep.k + rep.m
    requires forall i :: 0 <= i < |shards| ==> shards[i] == []
    ensures Loaded(shards, rep, e, d, len, 0)
  {
  }

  /** Reading the next survivor loads its shard. */
  lemma LoadRead(shards: seq<Shard>, rep: StripeRepair, ids: seq<ChunkID>, e: Mat, d: Mat, len: nat,
                 sha: Bytes -> ChunkID, disk: Disk, n: nat)
    requires Repairable(rep, ids, e, d, len, sha, disk) && n < |rep.survivors| && n < rep.k
    requires Loaded(shards, rep, e, d, len, n) && (rep.survivors[n].addr, rep.survivors[n].id) in disk
    ensures rep.survivors[n].index < |shards|
    ensures var s := rep.survivors[n]; Loaded(shards[s.index := disk[(s.addr, s.id)]], rep, e, d, len, n + 1)
  {
    var s := rep.survivors[n];
    HashIsShard(ids, e, d, len, sha, s.index, disk[(s.addr, s.id)]);
    LoadNext(shards, rep, e, d, len, n, disk[(s.addr, s.id)]);
  }

  lemma LoadedIsRecoverable(shards: seq<Shard>, rep: StripeRepair, ids: seq<ChunkID>, e: Mat, d: Mat, len: nat)
    requires Matches(rep, ids) && |d| == rep.k <= |rep.survivors| && |e| == |ids|
    requires Loaded(shards, rep, e, d, len, rep.k)
    ensures Recoverable(shards, e, rep.k, d, len, Indices(rep.survivors, rep.k))
  {
    IndicesCount(rep.survivors, rep.k);
  }

  // ---- what is left on disk and in the record ----

  function Target(d: DeadShard): (p: (Addr, ChunkID)) { (d.newAddr, d.id) }

  /** One of the first n dead shards rewrites this file even if it exists. */
  ghost predicate Forced(rep: StripeRepair, n: nat, p: (Addr, ChunkID)) {
    exists i :: 0 <= i < n <= |rep.dead| && rep.dead[i].force && Target(rep.dead[i]) == p
  }

  /** There was no such file, or it was right, or one of the first n dead shards forces it. */
  ghost predicate Fresh(rep: StripeRepair, n: nat, sha: Bytes -> ChunkID, was: Disk, p: (Addr, ChunkID)) {
    p !in was || sha(was[p]) == p.1 || Forced(rep, n, p)
  }

  /** How many dead shards may have been written once n are on record: the next one may have been stored
      although its reply or its record update failed. */
  function Tried(rep: StripeRepair, n: nat): (t: nat) { if n < |rep.dead| then n + 1 else n }

  /** With n dead shards done: their files are there, forced ones are right, and a wrong file that no put
      so far forced is as it was, since the node skips it. */
  ghost predicate Written(rep: StripeRepair, n: nat, sha: Bytes -> ChunkID, was: Disk, now: Disk) {
    && n <= |rep.dead| && Grew(sha, was, now)
    && FilesThere(rep, n, now)
    && (forall j :: 0 <= j < n && rep.dead[j].force ==> sha(now[Target(rep.dead[j])]) == rep.dead[j].id)
    && (forall p <- was :: sha(was[p]) != p.1 && !Forced(rep, Tried(rep, n), p) ==> now[p] == was[p])
  }

  /** A put that may have failed: an existing file is skipped unless the write is forced. */
  ghost predicate MayStore(was: Disk, now: Disk, d: DeadShard, body: Bytes) {
    (now == was || now == was[Target(d) := body]) && (!d.force && Target(d) in was ==> now == was)
  }

  /** A file with the wrong bytes for its name that no put of the repair forces. */
  ghost predicate StaleAt(rep: StripeRepair, sha: Bytes -> ChunkID, disk: Disk, p: (Addr, ChunkID)) {
    p in disk && sha(disk[p]) != p.1 && !Forced(rep, |rep.dead|, p)
  }

  /** An acknowledged put. */
  ghost predicate Stores(was: Disk, now: Disk, d: DeadShard, body: Bytes) {
    MayStore(was, now, d, body) && Target(d) in now && (d.force || Target(d) !in was ==> now[Target(d)] == body)
  }

  /** The put of the next dead shard was acknowledged. */
  lemma WrittenNext(rep: StripeRepair, n: nat, sha: Bytes -> ChunkID, was: Disk, now: Disk, next: Disk, body: Bytes)
    requires n < |rep.dead| && Written(rep, n, sha, was, now) && sha(body) == rep.dead[n].id
    requires Grew(sha, was, next) && Stores(now, next, rep.dead[n], body)
    ensures Written(rep, n + 1, sha, was, next)
  {
    forall p | p in was && sha(was[p]) != p.1 && !Forced(rep, Tried(rep, n + 1), p) ensures next[p] == was[p] {
      assert !Forced(rep, Tried(rep, n), p);
      assert rep.dead[n].force ==> Target(rep.dead[n]) != p;
    }
  }

  /** The put of the next dead shard failed, or the record update after it did. */
  lemma WrittenSame(rep: StripeRepair, n: nat, sha: Bytes -> ChunkID, was: Disk, now: Disk, next: Disk, body: Bytes)
    requires n < |rep.dead| && Written(rep, n, sha, was, now) && (next == now || sha(body) == rep.dead[n].id)
    requires Grew(sha, was, next) && MayStore(now, next, rep.dead[n], body)
    ensures Written(rep, n, sha, was, next)
  {
    forall p | p in was && sha(was[p]) != p.1 && !Forced(rep, n + 1, p) ensures next[p] == was[p] {
      assert rep.dead[n].force ==> Target(rep.dead[n]) != p;
    }
  }

  lemma PutNext(rep: StripeRepair, n: nat, sha: Bytes -> ChunkID, was: Disk, now: Disk, next: Disk, body: Bytes,
                ok: bool)
    requires n < |rep.dead| && Written(rep, n, sha, was, now) && (next == now || sha(body) == rep.dead[n].id)
    requires Grew(sha, now, next) && MayStore(now, next, rep.dead[n], body)
    requires ok ==> sha(body) == rep.dead[n].id && Stores(now, next, rep.dead[n], body)
    ensures Written(rep, if ok then n + 1 else n, sha, was, next)
  {
    GrewMore(sha, was, now, next);
    if ok { WrittenNext(rep, n, sha, was, now, next, body); } else { WrittenSame(rep, n, sha, was, now, next, body); }
  }

  /** The file of a dead shard that has been moved is right if it was written, rewritten or right before,
      and otherwise wrong unless the shard being moved next forced the same file. */
  lemma RightFiles(rep: StripeRepair, n: nat, sha: Bytes -> ChunkID, was: Disk, now: Disk, j: nat)
    requires Written(rep, n, sha, was, now) && j < n
    ensures var p := Target(rep.dead[j]);
      && p in now && (Fresh(rep, n, sha, was, p) ==> sha(now[p]) == p.1)
      && (sha(now[p]) == p.1 ==> Fresh(rep, Tried(rep, n), sha, was, p))
  {
  }

  /** The record after the first n dead shards have been moved. */
  function Recorded(objects: Objects, k: string, si: nat, rep: StripeRepair, n: nat): (r: Objects)
    requires n <= |rep.dead|
  {
    if n == 0 then objects
    else
      var before, d := Recorded(objects, k, si, rep, n - 1), rep.dead[n - 1];
      if HasShard(before, k, si, d.index) then before[k := WithShardReplicas(before[k], si, d.index, [d.newAddr])]
      else before
  }

  /** The first n dead shards are in the record. */
  ghost predicate AllRecorded(objects: Objects, k: string, si: nat, rep: StripeRepair, n: nat) {
    n <= |rep.dead| && forall j :: 0 <= j < n ==> HasShard(objects, k, si, rep.dead[j].index)
  }

  /** The record is exactly that of the first n dead shards moved. */
  ghost predicate MovedSoFar(rep: StripeRepair, n: nat, k: string, si: nat, was: Objects, now: Objects) {
    n <= |rep.dead| && AllRecorded(was, k, si, rep, n) && now == Recorded(was, k, si, rep, n)
  }

  /** Moving shards does not change which shards there are. */
  lemma {:induction false} ShardsStay(objects: Objects, k: string, si: nat, rep: StripeRepair, n: nat, i: nat)
    requires n <= |rep.dead|
    ensures HasShard(Recorded(objects, k, si, rep, n), k, si, i) <==> HasShard(objects, k, si, i)
  {
    if n > 0 {
      ShardsStay(objects, k, si, rep, n - 1, i);
      ShardsStay(objects, k, si, rep, n - 1, rep.dead[n - 1].index);
    }
  }

  lemma RecordedNext(was: Objects, k: string, si: nat, rep: StripeRepair, n: nat)
    requires n < |rep.dead| && HasShard(was, k, si, rep.dead[n].index)
    ensures var d := rep.dead[n];
      ShardChanged(Recorded(was, k, si, rep, n), Recorded(was, k, si, rep, n + 1), k, si, d.index, [d.newAddr])
  {
    ShardsStay(was, k, si, rep, n, rep.dead[n].index);
  }

  lemma MovedNext(rep: StripeRepair, n: nat, k: string, si: nat, was: Objects, now: Objects, next: Objects)
    requires n < |rep.dead| && MovedSoFar(rep, n, k, si, was, now)
    requires HasShard(was, k, si, rep.dead[n].index)
    requires ShardChanged(now, next, k, si, rep.dead[n].index, [rep.dead[n].newAddr])
    ensures MovedSoFar(rep, n + 1, k, si, was, next)
  {
  }

  /** The first n dead shards have files at their new addresses. */
  ghost predicate FilesThere(rep: StripeRepair, n: nat, disk: Disk) {
    n <= |rep.dead| && forall j :: 0 <= j < n ==> Target(rep.dead[j]) in disk
  }

  /** The plan's ids are those of the recorded stripe. */
  ghost predicate MatchesRecord(rep: StripeRepair, objects: Objects, k: string, si: nat) {
    forall j :: 0 <= j < |rep.dead| && HasShard(objects, k, si, rep.dead[j].index) ==>
      objects[k].stripes[si].shards[rep.dead[j].index].id == rep.dead[j].id
  }

  /** Whatever part of the repair was done, the record claims only files that are there. */
  lemma {:induction false} RecordedHeld(objects: Objects, disk: Files, k: string, si: nat, rep: StripeRepair, n: nat)
    requires n <= |rep.dead| && AllHeld(objects, disk) && MatchesRecord(rep, objects, k, si)
    requires forall j :: 0 <= j < n ==> Target(rep.dead[j]) in disk
    ensures AllHeld(Recorded(objects, k, si, rep, n), disk) && SameContent(objects, Recorded(objects, k, si, rep, n))
  {
    SameSelf(objects);
    if n > 0 {
      RecordedHeld(objects, disk, k, si, rep, n - 1);
      var before, d := Recorded(objects, k, si, rep, n - 1), rep.dead[n - 1];
      if HasShard(before, k, si, d.index) {
        assert SameObject(objects[k], before[k]);
        assert SameIDs(objects[k].stripes[si].shards, before[k].stripes[si].shards);
        ShardUpdate(before, disk, k, si, d.index, [d.newAddr]);
        SameContentTransitive(objects, before, Recorded(objects, k, si, rep, n));
      }
    }
  }

  /** Every dead shard has been rebuilt. */
  ghost predicate DeadRebuilt(shards: seq<Shard>, rep: StripeRepair, e: Mat, d: Mat, len: nat) {
    && IsMat(d, |d|, len) && IsMat(e, |e|, |d|) && |shards| == |e| && 0 < len
    && forall j :: 0 <= j < |rep.dead| ==>
         rep.dead[j].index < |e| && shards[rep.dead[j].index] == ShardOf(e, d, len, rep.dead[j].index)
  }

  /** What is about to be written is not empty and has the right hashes. */
  ghost predicate Ready(rep: StripeRepair, shards: seq<Shard>, sha: Bytes -> ChunkID) {
    forall j :: 0 <= j < |rep.dead| ==>
      var d := rep.dead[j]; d.index < |shards| && shards[d.index] != [] && sha(shards[d.index]) == d.id
  }

  lemma RebuiltIsReady(rep: StripeRepair, ids: seq<ChunkID>, e: Mat, d: Mat, len: nat, sha: Bytes -> ChunkID,
                       shards: seq<Shard>)
    requires DeadRebuilt(shards, rep, e, d, len) && Matches(rep, ids) && IsCodeword(ids, e, d, len, sha)
    ensures Ready(rep, shards, sha)
  {
  }

  lemma DeadRebuiltFrom(shards: seq<Shard>, rep: StripeRepair, e: Mat, d: Mat, len: nat, k: nat, m: nat)
    requires IsEncoding(e, k, m) && IsMat(d, k, len) && |shards| == k + m && 0 < len && shards[..k] == d
    requires (exists j :: 0 <= j < |rep.dead| && rep.dead[j].index >= k) ==>
      forall i :: k <= i < k + m ==> shards[i] == ShardOf(e, d, len, i)
    requires forall j :: 0 <= j < |rep.dead| ==> rep.dead[j].index < k + m
    ensures DeadRebuilt(shards, rep, e, d, len)
  {
    forall j | 0 <= j < |rep.dead| ensures shards[rep.dead[j].index] == ShardOf(e, d, len, rep.dead[j].index) {
      var i := rep.dead[j].index;
      if i < k {
        DataShards(e, k, m, d, len, i);
        assert shards[i] == shards[..k][i];
      }
    }
  }
}

/** What the repair does to the record of a stripe. */
module RepairRecord {
  import opened Nodes
  import opened Metadata
  import opened Store
  import opened ClaimSpec
  import opened ClaimProofs
  import opened RepairSpec

  /** The records differ only in where the first n dead shards are: each at its new address alone. */
  ghost predicate PointsAtNew(was: Objects, now: Objects, k: string, si: nat, rep: StripeRepair, n: nat) {
    && OtherStripesSame(was, now, k, si) && (n > 0 ==> HasStripe(was, k, si))
    && (HasStripe(was, k, si) ==> ShardsPointAtNew(ShardsOf(was, k, si), ShardsOf(now, k, si), rep, n))
  }

  /** Of the shards of one stripe, each of the first n dead ones has its new address as its only replica, and
      the others are as they were. */
  ghost predicate ShardsPointAtNew(was: seq<ChunkRef>, now: seq<ChunkRef>, rep: StripeRepair, n: nat) {
    && n <= |rep.dead| && |was| == |now|
    && (forall j :: 0 <= j < n ==> var d := rep.dead[j]; d.index < |now| && now[d.index].replicas == [d.newAddr])
    && (forall i :: 0 <= i < |was| ==> now[i] == was[i].(replicas := now[i].replicas))
    && (forall i :: 0 <= i < |was| && now[i] != was[i] ==> IsDead(rep, n, i))
  }

  ghost predicate IsDead(rep: StripeRepair, n: nat, i: nat) {
    exists j :: 0 <= j < n <= |rep.dead| && rep.dead[j].index == i
  }

  ghost predicate DifferentShards(rep: StripeRepair, n: nat) {
    n <= |rep.dead| && forall i, j :: 0 <= i < j < n ==> rep.dead[i].index != rep.dead[j].index
  }

  /** Two sets of records that agree but for the shards of one stripe. */
  ghost predicate OtherStripesSame(was: Objects, now: Objects, k: string, si: nat) {
    && was.Keys == now.Keys && (forall q <- was :: q != k ==> now[q] == was[q])
    && (k in was ==>
          && now[k] == was[k].(stripes := now[k].stripes) && |now[k].stripes| == |was[k].stripes|
          && forall t :: 0 <= t < |was[k].stripes| && t != si ==> now[k].stripes[t] == was[k].stripes[t])
    && (HasStripe(was, k, si) ==>
          && now[k].stripes[si] == was[k].stripes[si].(shards := ShardsOf(now, k, si))
          && |ShardsOf(now, k, si)| == |ShardsOf(was, k, si)|)
  }

  lemma PointsNext(was: Objects, now: Objects, next: Objects, k: string, si: nat, rep: StripeRepair, n: nat)
    requires n < |rep.dead| && PointsAtNew(was, now, k, si, rep, n) && DifferentShards(rep, n + 1)
    requires HasShard(was, k, si, rep.dead[n].index)
    requires ShardChanged(now, next, k, si, rep.dead[n].index, [rep.dead[n].newAddr])
    ensures PointsAtNew(was, next, k, si, rep, n + 1)
  {
    OthersNext(was, now, next, k, si, rep.dead[n].index, [rep.dead[n].newAddr]);
    ShardsPointNext(ShardsOf(was, k, si), ShardsOf(now, k, si), ShardsOf(next, k, si), rep, n);
  }

  lemma OthersNext(was: Objects, now: Objects, next: Objects, k: string, si: nat, i: nat, replicas: seq<Addr>)
    requires OtherStripesSame(was, now, k, si) && ShardChanged(now, next, k, si, i, replicas)
    ensures OtherStripesSame(was, next, k, si)
    ensures ShardsOf(next, k, si) == ShardsOf(now, k, si)[i := ShardsOf(now, k, si)[i].(replicas := replicas)]
  {
  }

  lemma ShardsPointNext(was: seq<ChunkRef>, now: seq<ChunkRef>, next: seq<ChunkRef>, rep: StripeRepair, n: nat)
    requires n < |rep.dead| && ShardsPointAtNew(was, now, rep, n) && DifferentShards(rep, n + 1)
    requires var d := rep.dead[n]; d.index < |now| && next == now[d.index := now[d.index].(replicas := [d.newAddr])]
    ensures ShardsPointAtNew(was, next, rep, n + 1)
  {
    forall i | 0 <= i < |was| && next[i] != was[i] ensures IsDead(rep, n + 1, i) {
      if i != rep.dead[n].index { assert IsDead(rep, n, i); }
    }
  }
}

module Repair {
  import opened GF
  import opened Linear
  import opened Encodings
  import opened Vandermonde
  import opened ReedSolomon
  import opened Nodes
  import opened Metadata
  import opened Store
  import opened ClaimSpec
  import opened ClaimProofs
  import opened RepairSpec
  import opened RepairRecord

  datatype RepairResult =
    | Repaired | BadEncoder | TooFewSurvivors | ReadFailed | NotReconstructed | NotEncoded
    | NilShard | PutRefused | PutFailed | MetaFailed

  method SetSlot(shards: array<Shard>, i: nat, body: Shard)
    requires i < shards.Length
    modifies shards
    ensures shards[..] == old(shards[..])[i := body]
  {
    shards[i] := body;
  }

  method ReadShard(nodes: Cluster, s: Survivor) returns (r: Fetched)
    ensures r.Got? ==> (s.addr, s.id) in nodes.disk && r.body == nodes.disk[(s.addr, s.id)]
    ensures nodes.Up() && (s.addr, s.id) in nodes.disk ==> r.Got?
  {
    r := nodes.Read(s.id, [s.addr]);
  }

  /** Read one survivor into its slot. */
  method FetchSurvivor(nodes: Cluster, rep: StripeRepair, shards: array<Shard>, i: nat,
                       ghost ids: seq<ChunkID>, ghost e: Mat, ghost d: Mat, ghost len: nat)
    returns (ok: bool)
    requires i < |rep.survivors| && i < rep.k && rep.survivors[i].index < shards.Length
    modifies shards
    ensures ok && Repairable(rep, ids, e, d, len, nodes.sha, nodes.disk) ==>
      Loaded(old(shards[..]), rep, e, d, len, i) ==> Loaded(shards[..], rep, e, d, len, i + 1)
    ensures nodes.Up() && (rep.survivors[i].addr, rep.survivors[i].id) in nodes.disk ==> ok
  {
    var s := rep.survivors[i];
    var r := ReadShard(nodes, s);
    if r.Failed? {
      return false;
    }
    if Repairable(rep, ids, e, d, len, nodes.sha, nodes.disk) && Loaded(shards[..], rep, e, d, len, i) {
      LoadRead(shards[..], rep, ids, e, d, len, nodes.sha, nodes.disk, i);
    }
    SetSlot(shards, s.index, r.body);
    ok := true;
  }

  /** Read the first K survivors into their slots. */
  method FetchSurvivors(nodes: Cluster, rep: StripeRepair, k: nat, n: nat,
                        ghost ids: seq<ChunkID>, ghost e: Mat, ghost d: Mat, ghost len: nat)
    returns (ok: bool, shards: array<Shard>)
    requires k == rep.k && k <= |rep.survivors| && n == rep.k + rep.m
    requires forall i :: 0 <= i < k ==> rep.survivors[i].index < n
    ensures fresh(shards) && shards.Length == n
    ensures ok && Repairable(rep, ids, e, d, len, nodes.sha, nodes.disk) ==> Loaded(shards[..], rep, e, d, len, k)
    ensures nodes.Up() && SurvivorsThere(rep, nodes.disk) ==> ok
  {
    shards := new Shard[n](_ => []);
    assert forall i :: 0 <= i < n ==> shards[..][i] == [];
    if Repairable(rep, ids, e, d, len, nodes.sha, nodes.disk) {
      NothingLoaded(shards[..], rep, ids, e, d, len, nodes.sha, nodes.disk);
    }
    ok := FetchInto(nodes, rep, shards, k, ids, e, d, len);
  }

  method FetchInto(nodes: Cluster, rep: StripeRepair, shards: array<Shard>, k: nat,
                   ghost ids: seq<ChunkID>, ghost e: Mat, ghost d: Mat, ghost len: nat)
    returns (ok: bool)
    requires k == rep.k && k <= |rep.survivors| && forall i :: 0 <= i < k ==> rep.survivors[i].index < shards.Length
    requires Repairable(rep, ids, e, d, len, nodes.sha, nodes.disk) ==> Loaded(shards[..], rep, e, d, len, 0)
    modifies shards
    ensures ok && Repairable(rep, ids, e, d, len, nodes.sha, nodes.disk) ==> Loaded(shards[..], rep, e, d, len, k)
    ensures nodes.Up() && SurvivorsThere(rep, nodes.disk) ==> ok
  {
    ghost var fine := Repairable(rep, ids, e, d, len, nodes.sha, nodes.disk);
    for i := 0 to k
      invariant fine ==> Loaded(shards[..], rep, e, d, len, i)
    {
      ok := FetchSurvivor(nodes, rep, shards, i, ids, e, d, len);
      if !ok {
        return;
      }
    }
    ok := true;
  }

  method NeedsParity(dead: seq<DeadShard>, k: nat) returns (need: bool)
    ensures need <==> exists j :: 0 <= j < |dead| && dead[j].index >= k
  {
    for i := 0 to |dead|
      invariant forall j :: 0 <= j < i ==> dead[j].index < k
    {
      if dead[i].index >= k {
        return true;
      }
    }
    return false;
  }

  /** Recompute all M parity shards from the data slots. */
  method FillParity(e: Encoder, shards: array<Shard>, ghost d: Mat, ghost len: nat) returns (ok: bool)
    requires e.Valid() && shards.Length == e.k + e.m
    modifies shards
    ensures shards[..e.k] == old(shards[..e.k])
    ensures old(shards[..e.k]) == d && IsMat(d, e.k, len) && 0 < len ==>
      ok && forall i :: e.k <= i < e.k + e.m ==> shards[i] == ShardOf(e.E(), d, len, i)
  {
    var data := shards[..e.k];
    var r := Encode(e, data);
    if !r.Encoded? {
      return false;
    }
    for i := 0 to e.m
      invariant shards[..e.k] == data
      invariant forall j :: 0 <= j < i ==> shards[e.k + j] == r.parity[j]
    {
      shards[e.k + i] := r.parity[i];
    }
    forall i | e.k <= i < e.k + e.m ensures shards[i] == r.parity[i - e.k] {
      assert shards[e.k + (i - e.k)] == r.parity[i - e.k];
    }
    ok := true;
  }

  /** Rebuild the data slots, and the parity slots if a dead shard is parity. */
  method RebuildSlots(e: Encoder, rep: StripeRepair, shards: array<Shard>,
                      ghost d: Mat, ghost len: nat, ghost present: set<nat>)
    returns (r: RepairResult)
    requires e.Valid() && shards.Length == e.k + e.m
    requires forall j :: 0 <= j < |rep.dead| ==> rep.dead[j].index < e.k + e.m
    modifies shards
    ensures Recoverable(old(shards[..]), e.E(), e.k, d, len, present) ==>
      r.Repaired? && DeadRebuilt(shards[..], rep, e.E(), d, len)
    ensures r.Repaired? || r.NotReconstructed? || r.NotEncoded?
  {
    var ok := Recover(e, shards, d, len, present);
    if !ok {
      return NotReconstructed;
    }
    var need := NeedsParity(rep.dead, e.k);
    if need {
      ok := FillParity(e, shards, d, len);
      if !ok {
        return NotEncoded;
      }
    }
    if Recoverable(old(shards[..]), e.E(), e.k, d, len, present) {
      DeadRebuiltFrom(shards[..], rep, e.E(), d, len, e.k, e.m);
    }
    return Repaired;
  }

  /** PUT each rebuilt shard to its new address, then record the address; moved counts the shards done. */
  method StoreDead(nodes: Cluster, store: MetaStore, key: string, si: nat, rep: StripeRepair, shards: seq<Shard>)
    returns (r: RepairResult, moved: nat)
    requires forall j :: 0 <= j < |rep.dead| ==> rep.dead[j].index < |shards|
    modifies nodes`disk, store`objects
    ensures MovedSoFar(rep, moved, key, si, old(store.objects), store.objects) && (r.Repaired? ==> moved == |rep.dead|)
    ensures Written(rep, moved, nodes.sha, old(nodes.disk), nodes.disk)
    ensures !r.TooFewSurvivors? && !r.ReadFailed?
    ensures r.PutFailed? ==> !nodes.Up()
    ensures r.MetaFailed? ==> !store.up || !AllRecorded(old(store.objects), key, si, rep, |rep.dead|)
    ensures Ready(rep, shards, nodes.sha) ==> r.Repaired? || r.PutFailed? || r.MetaFailed?
  {
    moved := 0;
    while moved < |rep.dead|
      invariant MovedSoFar(rep, moved, key, si, old(store.objects), store.objects)
      invariant Written(rep, moved, nodes.sha, old(nodes.disk), nodes.disk)
    {
      ghost var disk, objects := nodes.disk, store.objects;
      ShardsStay(old(store.objects), key, si, rep, moved, rep.dead[moved].index);
      r := StoreOne(nodes, store, key, si, rep.dead[moved], shards[rep.dead[moved].index]);
      var body := shards[rep.dead[moved].index];
      PutNext(rep, moved, nodes.sha, old(nodes.disk), disk, nodes.disk, body, r.Repaired?);
      if !r.Repaired? {
        return;
      }
      MovedNext(rep, moved, key, si, old(store.objects), objects, store.objects);
      moved := moved + 1;
    }
    r := Repaired;
  }

  /** One dead shard: PUT, then UpdateShardReplicas. */
  method StoreOne(nodes: Cluster, store: MetaStore, key: string, si: nat, dead: DeadShard, body: Bytes)
    returns (r: RepairResult)
    modifies nodes`disk, store`objects
    ensures Grew(nodes.sha, old(nodes.disk), nodes.disk)
    ensures !r.Repaired? ==> store.objects == old(store.objects)
    ensures r.Repaired? ==> HasShard(old(store.objects), key, si, dead.index)
    ensures r.Repaired? ==> ShardChanged(old(store.objects), store.objects, key, si, dead.index, [dead.newAddr])
    ensures MayStore(old(nodes.disk), nodes.disk, dead, body)
    ensures nodes.disk == old(nodes.disk) || nodes.sha(body) == dead.id
    ensures r.Repaired? ==> nodes.sha(body) == dead.id && Stores(old(nodes.disk), nodes.disk, dead, body)
    ensures r.NilShard? ==> body == []
    ensures r.PutRefused? ==> nodes.sha(body) != dead.id
    ensures r.PutFailed? ==> !nodes.Up()
    ensures r.MetaFailed? ==> !store.up || !HasShard(old(store.objects), key, si, dead.index)
    ensures r.Repaired? || r.NilShard? || r.PutRefused? || r.PutFailed? || r.MetaFailed?
  {
    if |body| == 0 {
      return NilShard;
    }
    var put := nodes.Put(dead.newAddr, dead.id, body, dead.force);
    if !put.Acked? {
      return if put.Mismatch? then PutRefused else PutFailed;
    }
    var ok := store.UpdateShardReplicas(key, si, dead.index, [dead.newAddr]);
    r := if ok then Repaired else MetaFailed;
  }

  /** Fetch K survivors and rebuild what the dead shards need. */
  method Prepare(nodes: Cluster, rep: StripeRepair,
                 ghost ids: seq<ChunkID>, ghost e: Mat, ghost d: Mat, ghost len: nat)
    returns (r: RepairResult, shards: array<Shard>)
    requires forall i :: 0 <= i < |rep.survivors| ==> rep.survivors[i].index < rep.k + rep.m
    requires forall j :: 0 <= j < |rep.dead| ==> rep.dead[j].index < rep.k + rep.m
    ensures r.Repaired? ==> shards.Length == rep.k + rep.m
    ensures r.TooFewSurvivors? ==> |rep.survivors| < rep.k
    ensures Repairable(rep, ids, e, d, len, nodes.sha, nodes.disk) ==>
      r.TooFewSurvivors? || r.ReadFailed? || (r.Repaired? && DeadRebuilt(shards[..], rep, e, d, len))
    ensures nodes.Up() && SurvivorsThere(rep, nodes.disk) ==> !r.ReadFailed?
    ensures !r.PutFailed? && !r.MetaFailed?
  {
    shards := new Shard[0](_ => []);
    var enc := BuildEncoder(rep.k, rep.m);
    if enc.BadParameters? {
      return BadEncoder, shards;
    }
    if |rep.survivors| < rep.k {
      return TooFewSurvivors, shards;
    }
    var ok;
    ok, shards := FetchSurvivors(nodes, rep, rep.k, rep.k + rep.m, ids, e, d, len);
    if !ok {
      return ReadFailed, shards;
    }
    if Repairable(rep, ids, e, d, len, nodes.sha, nodes.disk) {
      SystematicUnique(enc.encoder.E(), e, rep.k, rep.m);
      LoadedIsRecoverable(shards[..], rep, ids, e, d, len);
    }
    r := RebuildSlots(enc.encoder, rep, shards, d, len, Indices(rep.survivors, rep.k));
  }

  /** repairStripe: the record is exactly that of the shards moved, and Written says what is on disk; success
      means all are moved; each failure has its own cause. */
  method RepairStripe(nodes: Cluster, store: MetaStore, key: string, si: nat, rep: StripeRepair,
                      ghost ids: seq<ChunkID>, ghost e: Mat, ghost d: Mat, ghost len: nat)
    returns (r: RepairResult, moved: nat)
    requires forall i :: 0 <= i < |rep.survivors| ==> rep.survivors[i].index < rep.k + rep.m
    requires forall j :: 0 <= j < |rep.dead| ==> rep.dead[j].index < rep.k + rep.m
    modifies nodes`disk, store`objects
    ensures MovedSoFar(rep, moved, key, si, old(store.objects), store.objects) && (r.Repaired? ==> moved == |rep.dead|)
    ensures Written(rep, moved, nodes.sha, old(nodes.disk), nodes.disk)
    ensures Repairable(rep, ids, e, d, len, nodes.sha, old(nodes.disk)) ==>
      r.Repaired? || r.TooFewSurvivors? || r.ReadFailed? || r.PutFailed? || r.MetaFailed?
    ensures r.TooFewSurvivors? ==> |rep.survivors| < rep.k
    ensures r.ReadFailed? ==> !nodes.Up() || !SurvivorsThere(rep, old(nodes.disk))
    ensures r.PutFailed? ==> !nodes.Up()
    ensures r.MetaFailed? ==> !store.up || !AllRecorded(old(store.objects), key, si, rep, |rep.dead|)
  {
    var shards;
    moved := 0;
    r, shards := Prepare(nodes, rep, ids, e, d, len);
    if r.Repaired? {
      if Repairable(rep, ids, e, d, len, nodes.sha, nodes.disk) {
        RebuiltIsReady(rep, ids, e, d, len, nodes.sha, shards[..]);
      }
      r, moved := StoreDead(nodes, store, key, si, rep, shards[..]);
    }
  }

  /** Moving the first n dead shards points their records at the new addresses and changes nothing else. */
  lemma {:induction false} RecordPointsAtNew(was: Objects, k: string, si: nat, rep: StripeRepair, n: nat)
    requires AllRecorded(was, k, si, rep, n) && DifferentShards(rep, n)
    ensures PointsAtNew(was, Recorded(was, k, si, rep, n), k, si, rep, n)
  {
    if n > 0 {
      RecordPointsAtNew(was, k, si, rep, n - 1);
      RecordedNext(was, k, si, rep, n - 1);
      PointsNext(was, Recorded(was, k, si, rep, n - 1), Recorded(was, k, si, rep, n), k, si, rep, n - 1);
    }
  }

  /** What repairStripe leaves, complete or part-way: the record of a moved shard names its new address
      alone, a file is there, and it is the original shard, data or parity, if there was no file before, or
      it was right already, or a write forced it; after success it is the shard only then. Nothing else in
      the records changes. */
  lemma NewAddressHoldsShard(rep: StripeRepair, ids: seq<ChunkID>, e: Mat, d: Mat, len: nat,
                             sha: Bytes -> ChunkID, was: Disk, now: Disk, k: string, si: nat,
                             objects: Objects, objects': Objects, n: nat, j: nat)
    requires Matches(rep, ids) && IsCodeword(ids, e, d, len, sha) && Injective(sha)
    requires Written(rep, n, sha, was, now) && MovedSoFar(rep, n, k, si, objects, objects') && j < n
    ensures PointsAtNew(objects, objects', k, si, rep, n)
    ensures ShardAt(objects', k, si, rep.dead[j].index, rep.dead[j].newAddr)
    ensures var p := Target(rep.dead[j]); var shard := ShardOf(e, d, len, rep.dead[j].index);
      && p in now
      && (p !in was || was[p] == shard || Forced(rep, n, p) ==> now[p] == shard)
      && (now[p] == shard ==> p !in was || was[p] == shard || Forced(rep, Tried(rep, n), p))
      && (n == |rep.dead| ==> (now[p] == shard <==> p !in was || was[p] == shard || Forced(rep, n, p)))
  {
    var p, i := Target(rep.dead[j]), rep.dead[j].index;
    RecordPointsAtNew(objects, k, si, rep, n);
    RightFiles(rep, n, sha, was, now, j);
    HashIsShard(ids, e, d, len, sha, i, now[p]);
    if p in was { HashIsShard(ids, e, d, len, sha, i, was[p]); }
  }

  /** Where repairStripe fails: on a healthy cluster a plan that does not force, with a wrong file under the
      shard's name at its new address, is reported repaired, the wrong bytes stay, and the record points at
      them. */
  method RepairLeavesStale(nodes: Cluster, store: MetaStore, key: string, si: nat, rep: StripeRepair,
                           ghost ids: seq<ChunkID>, ghost e: Mat, ghost d: Mat, ghost len: nat, ghost j: nat)
    returns (r: RepairResult)
    requires Succeeds(rep, ids, e, d, len, nodes.sha, nodes.disk, store.objects, key, si)
    requires nodes.Up() && store.up
    requires j < |rep.dead| && StaleAt(rep, nodes.sha, nodes.disk, Target(rep.dead[j]))
    modifies nodes`disk, store`objects
    ensures r.Repaired? && ShardAt(store.objects, key, si, rep.dead[j].index, rep.dead[j].newAddr)
    ensures PointsAtNew(old(store.objects), store.objects, key, si, rep, |rep.dead|)
    ensures var p := Target(rep.dead[j]);
      p in nodes.disk && nodes.disk[p] == old(nodes.disk)[p] && nodes.sha(nodes.disk[p]) != p.1
  {
    var moved;
    r, moved := RepairStripe(nodes, store, key, si, rep, ids, e, d, len);
    RecordPointsAtNew(old(store.objects), key, si, rep, moved);
  }

  /** The bytes as characters. */
  function Spelled(b: Bytes): (id: ChunkID) { seq(|b|, i requires 0 <= i < |b| => (b[i] as int) as char) }

  /** There are hashes without collisions. */
  lemma SpelledInjective()
    ensures Injective(Spelled)
  {
    forall a, b | Spelled(a) == Spelled(b) ensures a == b {
      assert |a| == |Spelled(a)| == |b|;
      forall i | 0 <= i < |a| ensures a[i] == b[i] {
        assert Spelled(a)[i] == Spelled(b)[i];
        ByteIntInjective(a[i], b[i]);
      }
    }
  }

  // One data and one parity shard: node a holds the data shard, the parity shard's node is gone, and on its
  // new node b an empty file has the parity shard's name.

  function StaleDisk(ids: seq<ChunkID>, data: Bytes, a: Addr, b: Addr): (disk: Disk)
    requires |ids| == 2
  {
    map[(a, ids[0]) := data, (b, ids[1]) := []]
  }

  function StalePlan(ids: seq<ChunkID>, a: Addr, b: Addr): (rep: StripeRepair)
    requires |ids| == 2
  {
    StripeRepair(1, 1, [Survivor(0, ids[0], a)], [DeadShard(1, ids[1], b, false)])
  }

  /** The record of that stripe. */
  method StaleRecord(ids: seq<ChunkID>, size: nat, key: string, a: Addr, gone: Addr) returns (store: MetaStore)
    requires |ids| == 2
    ensures fresh(store) && store.up && HasShard(store.objects, key, 0, 1)
    ensures ShardsOf(store.objects, key, 0)[1].id == ids[1]
  {
    store := new MetaStore(true);
    var shards := [ChunkRef(ids[0], size, [a]), ChunkRef(ids[1], size, [gone])];
    var o := ObjectMeta("", key, size, "", "", [], EC(1, 1), [Stripe("", shards, size)], 1, 0, "");
    store.objects := map[key := o];
  }

  lemma StaleCodeword(sha: Bytes -> ChunkID, e: Mat, data: Bytes, ids: seq<ChunkID>)
    requires IsEncoding(e, 1, 1) && data != [] && ids == [sha(data), sha(ShardOf(e, [data], |data|, 1))]
    ensures IsCodeword(ids, e, [data], |data|, sha)
  {
    DataShards(e, 1, 1, [data], |data|, 0);
    forall i | 0 <= i < |ids| ensures ids[i] == sha(ShardOf(e, [data], |data|, i)) {
      if i == 0 { assert ShardOf(e, [data], |data|, 0) == data; }
    }
  }

  /** The plan fits the stripe, its survivor is there and right, and the file at b is stale. */
  lemma StalePlanMatches(sha: Bytes -> ChunkID, data: Bytes, ids: seq<ChunkID>, a: Addr, b: Addr)
    requires |ids| == 2 && a != b && ids[0] == sha(data) && ids[1] != sha([])
    ensures var rep, disk := StalePlan(ids, a, b), StaleDisk(ids, data, a, b);
      && Matches(rep, ids) && SurvivorsThere(rep, disk) && SurvivorsHonest(rep, sha, disk)
      && StaleAt(rep, sha, disk, Target(rep.dead[0]))
  {
  }

  lemma StaleSucceeds(sha: Bytes -> ChunkID, e: Mat, data: Bytes, ids: seq<ChunkID>, a: Addr, b: Addr,
                      objects: Objects, key: string)
    requires Injective(sha) && IsEncoding(e, 1, 1) && IsSystematic(e, 1, 1) && a != b
    requires |ids| == 2 && ids[0] == sha(data) && ids[1] != sha([]) && IsCodeword(ids, e, [data], |data|, sha)
    requires HasShard(objects, key, 0, 1)
    ensures var rep, disk := StalePlan(ids, a, b), StaleDisk(ids, data, a, b);
      && Succeeds(rep, ids, e, [data], |data|, sha, disk, objects, key, 0)
      && StaleAt(rep, sha, disk, Target(rep.dead[0]))
  {
    StalePlanMatches(sha, data, ids, a, b);
  }

  /** The ids of the two shards. */
  method StaleIDs(sha: Bytes -> ChunkID, data: Bytes) returns (ids: seq<ChunkID>, ghost e: Mat)
    requires Injective(sha) && data != []
    ensures IsEncoding(e, 1, 1) && IsSystematic(e, 1, 1) && IsCodeword(ids, e, [data], |data|, sha)
    ensures |ids| == 2 && ids[0] == sha(data) && ids[1] != sha([])
  {
    var enc := BuildEncoder(1, 1);
    var out := Encode(enc.encoder, [data]);
    ids, e := [sha(data), sha(out.parity[0])], enc.encoder.E();
    StaleCodeword(sha, e, data, ids);
  }

  method StaleStart(sha: Bytes -> ChunkID, data: Bytes, key: string, a: Addr, b: Addr, gone: Addr)
    returns (nodes: Cluster, store: MetaStore, rep: StripeRepair, ghost ids: seq<ChunkID>, ghost e: Mat)
    requires Injective(sha) && data != [] && a != b
    ensures fresh(nodes) && fresh(store) && nodes.Up() && store.up && nodes.sha == sha
    ensures Succeeds(rep, ids, e, [data], |data|, sha, nodes.disk, store.objects, key, 0)
    ensures |rep.dead| == 1 && rep.dead[0].index == 1 && rep.dead[0].newAddr == b
    ensures var p := Target(rep.dead[0]);
      StaleAt(rep, sha, nodes.disk, p) && nodes.disk[p] == [] && ShardsOf(store.objects, key, 0)[1].id == p.1
  {
    var names;
    names, e := StaleIDs(sha, data);
    ids, rep := names, StalePlan(names, a, b);
    nodes := new Cluster(sha, StaleDisk(names, data, a, b), {});
    store := StaleRecord(names, |data|, key, a, gone);
    StaleSucceeds(sha, e, data, names, a, b, store.objects, key);
  }

  /** Such an input, for every payload, every hash without collisions and any nodes, and what repairStripe
      makes of it: success, with the record of the parity shard pointing at an empty file. */
  method StaleFileSurvives(sha: Bytes -> ChunkID, data: Bytes, key: string, a: Addr, b: Addr, gone: Addr)
    returns (nodes: Cluster, store: MetaStore, id: ChunkID, r: RepairResult)
    requires Injective(sha) && data != [] && a != b
    ensures r.Repaired? && nodes.Up() && store.up && nodes.sha == sha
    ensures ShardAt(store.objects, key, 0, 1, b) && ShardsOf(store.objects, key, 0)[1].id == id
    ensures (b, id) in nodes.disk && nodes.disk[(b, id)] == [] && sha([]) != id
  {
    var rep;
    ghost var ids, e;
    nodes, store, rep, ids, e := StaleStart(sha, data, key, a, b, gone);
    r := RepairLeavesStale(nodes, store, key, 0, rep, ids, e, [data], |data|, 0);
    id := rep.dead[0].id;
  }
}
