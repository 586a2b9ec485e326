/** Garbage collection: internal/gc/gc.go. */
module GarbageCollection {
  import opened Nodes
  import opened Metadata
  import opened ClaimSpec
  import opened References

  datatype ChunkInfo = ChunkInfo(id: ChunkID, mtime: int)

  datatype Sweep = Sweep(addr: Addr, id: ChunkID)

  type Claimed = map<ChunkID, set<Addr>>

  predicate IsClaimed(m: Claimed, addr: Addr, id: ChunkID) { id in m && addr in m[id] }

  /** The map holds the claimed pairs of the references walked so far. */
  ghost predicate ClaimedAre(m: Claimed, refs: seq<Ref>) { forall a, id :: IsClaimed(m, a, id) <==> Ref(a, id) in refs }

  /** add: one reference with all its replicas. */
  method AddClaims(m: Claimed, c: ChunkRef, ghost refs: seq<Ref>) returns (r: Claimed)
    requires ClaimedAre(m, refs)
    ensures ClaimedAre(r, refs + RefsOfChunk(c))
  {
    var s := if c.id in m then m[c.id] else {};
    ghost var had := s;
    for i := 0 to |c.replicas|
      invariant s == had + set j | 0 <= j < i :: c.replicas[j]
    {
      s := s + {c.replicas[i]};
    }
    r := m[c.id := s];
    forall a, id ensures IsClaimed(r, a, id) <==> Ref(a, id) in refs + RefsOfChunk(c) {
      assert IsClaimed(m, a, id) <==> Ref(a, id) in refs;
      RefOfChunk(c, a, id);
    }
  }

  method AddAll(m: Claimed, cs: seq<ChunkRef>, ghost refs: seq<Ref>) returns (r: Claimed)
    requires ClaimedAre(m, refs)
    ensures ClaimedAre(r, refs + RefsOfChunks(cs))
  {
    r := m;
    assert refs + RefsOfChunks(cs[..0]) == refs;
    for i := 0 to |cs|
      invariant ClaimedAre(r, refs + RefsOfChunks(cs[..i]))
    {
      assert cs[..i + 1][..i] == cs[..i];
      r := AddClaims(r, cs[i], refs + RefsOfChunks(cs[..i]));
      assert refs + RefsOfChunks(cs[..i]) + RefsOfChunk(cs[i]) == refs + RefsOfChunks(cs[..i + 1]);
    }
    assert cs[..|cs|] == cs;
  }

  method AddStripes(m: Claimed, ss: seq<Stripe>, ghost refs: seq<Ref>) returns (r: Claimed)
    requires ClaimedAre(m, refs)
    ensures ClaimedAre(r, refs + RefsOfStripes(ss))
  {
    r := m;
    assert refs + RefsOfStripes(ss[..0]) == refs;
    for i := 0 to |ss|
      invariant ClaimedAre(r, refs + RefsOfStripes(ss[..i]))
    {
      assert ss[..i + 1][..i] == ss[..i];
      r := AddAll(r, ss[i].shards, refs + RefsOfStripes(ss[..i]));
      assert refs + RefsOfStripes(ss[..i]) + RefsOfChunks(ss[i].shards) == refs + RefsOfStripes(ss[..i + 1]);
    }
    assert ss[..|ss|] == ss;
  }

  /** buildClaimedSet: exactly the pairs some record references. */
  method BuildClaimedSet(objs: seq<ObjectMeta>) returns (m: Claimed)
    ensures ClaimedAre(m, Refs(objs))
    ensures forall a, id :: IsClaimed(m, a, id) <==> Mentions(objs, a, id)
  {
    m := map[];
    for i := 0 to |objs|
      invariant ClaimedAre(m, Refs(objs[..i]))
    {
      assert objs[..i + 1][..i] == objs[..i];
      m := AddAll(m, objs[i].chunks, Refs(objs[..i]));
      m := AddStripes(m, objs[i].stripes, Refs(objs[..i]) + RefsOfChunks(objs[i].chunks));
    }
    assert objs[..|objs|] == objs;
    forall a, id ensures IsClaimed(m, a, id) <==> Mentions(objs, a, id) { RefsMean(objs, a, id); }
  }

  /** A listed chunk file is swept exactly when no record claims it and it is old enough. */
  ghost predicate SweptFrom(sweeps: seq<Sweep>, objs: seq<ObjectMeta>, dns: seq<Addr>,
                            listing: Addr -> seq<ChunkInfo>, cutoff: int)
  {
    forall s :: s in sweeps <==> s.addr in dns && !Mentions(objs, s.addr, s.id) && OldFile(listing, s, cutoff)
  }

  ghost predicate OldFile(listing: Addr -> seq<ChunkInfo>, s: Sweep, cutoff: int) {
    exists c <- listing(s.addr) :: c.id == s.id && c.mtime <= cutoff
  }

  /** The sweeps of one node. */
  method SweepNode(claimed: Claimed, addr: Addr, chunks: seq<ChunkInfo>, cutoff: int)
    returns (out: seq<Sweep>)
    ensures forall s :: s in out <==>
      s.addr == addr && !IsClaimed(claimed, addr, s.id) && exists c <- chunks :: c.id == s.id && c.mtime <= cutoff
  {
    out := [];
    for i := 0 to |chunks|
      invariant forall s :: s in out <==>
        && s.addr == addr && !IsClaimed(claimed, addr, s.id)
        && exists c <- chunks[..i] :: c.id == s.id && c.mtime <= cutoff
    {
      var c := chunks[i];
      assert chunks[..i + 1] == chunks[..i] + [c];
      if IsClaimed(claimed, addr, c.id) { continue; }
      if c.mtime > cutoff { continue; }
      out := out + [Sweep(addr, c.id)];
    }
    assert chunks[..|chunks|] == chunks;
  }

  /** ComputePlan: one failing listing abandons the whole plan. */
  method ComputePlan(objs: seq<ObjectMeta>, dns: seq<Addr>, listing: Addr -> seq<ChunkInfo>, listed: Addr -> bool,
                     cutoff: int)
    returns (ok: bool, sweeps: seq<Sweep>)
    ensures ok <==> forall a :: a in dns ==> listed(a)
    ensures ok ==> SweptFrom(sweeps, objs, dns, listing, cutoff)
  {
    var claimed := BuildClaimedSet(objs);
    sweeps := [];
    for i := 0 to |dns|
      invariant forall a :: a in dns[..i] ==> listed(a)
      invariant SweptFrom(sweeps, objs, dns[..i], listing, cutoff)
    {
      assert dns[..i + 1] == dns[..i] + [dns[i]];
      if !listed(dns[i]) { return false, []; }
      var more := SweepNode(claimed, dns[i], listing(dns[i]), cutoff);
      sweeps := sweeps + more;
    }
    assert dns[..|dns|] == dns;
    ok := true;
  }

  /** What is left is as it was. */
  ghost predicate Kept(was: Disk, now: Disk) { forall p <- now :: p in was && now[p] == was[p] }

  /** Run: any delete may fail; nothing but swept files goes away. */
  method RunSweeps(nodes: Cluster, sweeps: seq<Sweep>)
    modifies nodes`disk
    ensures Kept(old(nodes.disk), nodes.disk)
    ensures forall p :: p in old(nodes.disk) && p !in nodes.disk ==> Sweep(p.0, p.1) in sweeps
    ensures nodes.Up() ==> forall s :: s in sweeps ==> (s.addr, s.id) !in nodes.disk
  {
    for i := 0 to |sweeps|
      invariant Kept(old(nodes.disk), nodes.disk)
      invariant forall p :: p in old(nodes.disk) && p !in nodes.disk ==> Sweep(p.0, p.1) in sweeps
      invariant nodes.Up() ==> forall s :: s in sweeps[..i] ==> (s.addr, s.id) !in nodes.disk
    {
      var _ := nodes.Delete(sweeps[i].addr, sweeps[i].id);
    }
  }

  /** If only unreferenced files went away, every claim still holds. */
  lemma SweepKeepsClaims(objects: Objects, objs: seq<ObjectMeta>, disk: Files, disk': Files)
    requires AllHeld(objects, disk) && forall k :: k in objects ==> objects[k] in objs
    requires forall p :: p in disk && p !in disk' ==> !Mentions(objs, p.0, p.1)
    ensures AllHeld(objects, disk')
  {
    forall k | k in objects ensures ObjectHeld(objects[k], disk') {
      var n :| 0 <= n < |objs| && objs[n] == objects[k];
      SweepKeepsObject(objs, n, disk, disk');
    }
  }

  lemma SweepKeepsObject(objs: seq<ObjectMeta>, n: nat, disk: Files, disk': Files)
    requires n < |objs| && ObjectHeld(objs[n], disk)
    requires forall p :: p in disk && p !in disk' ==> !Mentions(objs, p.0, p.1)
    ensures ObjectHeld(objs[n], disk')
  {
    var o := objs[n];
    forall i, a | 0 <= i < |o.chunks| && a in o.chunks[i].replicas ensures (a, o.chunks[i].id) in disk' {
      assert ChunkHeld(o.chunks[i], disk);
      assert Refers(o.chunks[i], a, o.chunks[i].id) && ObjectMentions(o, a, o.chunks[i].id);
    }
    forall s | 0 <= s < |o.stripes| ensures ChunksHeld(o.stripes[s].shards, disk') {
      var cs := o.stripes[s].shards;
      assert ChunksHeld(cs, disk);
      forall i, a | 0 <= i < |cs| && a in cs[i].replicas ensures (a, cs[i].id) in disk' {
        assert ChunkHeld(cs[i], disk);
        assert Refers(cs[i], a, cs[i].id) && ChunksMention(o.stripes[s].shards, a, cs[i].id);
        assert ObjectMentions(o, a, cs[i].id);
      }
    }
  }
}
