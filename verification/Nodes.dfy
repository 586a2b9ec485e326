/** The data nodes as the coordinator sees them: content-addressed chunk files behind a network
    that may fail any request (internal/dn/dn.go, internal/coordinator/coordinator.go). */
module Nodes {
  import opened GF

  type Bytes = seq<byte>
  type Addr = string
  type ChunkID = string

  datatype Fetched = Got(body: Bytes) | Failed

  datatype PutOutcome = Acked | Mismatch | Unreachable

  /** SHA-256 as an uninterpreted function without collisions. */
  ghost predicate Injective(sha: Bytes -> ChunkID) {
    forall a, b :: sha(a) == sha(b) ==> a == b
  }

  /** The chunk files: (node address, chunk id) to bytes. */
  type Disk = map<(Addr, ChunkID), Bytes>

  /** No file is lost, and a file is as it was or holds what its name promises. */
  ghost predicate Grew(sha: Bytes -> ChunkID, was: Disk, now: Disk) {
    was.Keys <= now.Keys && forall p <- now :: (p in was && now[p] == was[p]) || sha(now[p]) == p.1
  }

  lemma GrewMore(sha: Bytes -> ChunkID, a: Disk, b: Disk, c: Disk)
    requires Grew(sha, a, b) && Grew(sha, b, c)
    ensures Grew(sha, a, c)
  {
  }

  class Cluster {
    const sha: Bytes -> ChunkID
    var disk: Disk
    /** Requests to these addresses may fail; all others reach their node and are answered. */
    var down: set<Addr>

    constructor (sha: Bytes -> ChunkID, disk: Disk, down: set<Addr>)
      ensures this.sha == sha && this.disk == disk && this.down == down
    {
      this.sha, this.disk, this.down := sha, disk, down;
    }

    predicate Up()
      reads this
    {
      down == {}
    }

    /** PutChunkTo and PutChunkToForce: the node refuses a body that does not match its id, skips an
        existing file unless forced, and the reply may get lost after the write. */
    method Put(addr: Addr, id: ChunkID, body: Bytes, force: bool) returns (r: PutOutcome)
      modifies this`disk
      ensures Grew(sha, old(disk), disk)
      ensures r.Mismatch? <==> sha(body) != id
      ensures disk == old(disk) || (sha(body) == id && disk == old(disk)[(addr, id) := body])
      ensures !force && (addr, id) in old(disk) ==> disk == old(disk)
      ensures r.Acked? ==> (addr, id) in disk
      ensures addr !in down && sha(body) == id ==> r.Acked?
      ensures r.Acked? && (force || (addr, id) !in old(disk)) ==> disk[(addr, id)] == body
    {
      if sha(body) != id {
        return Mismatch;
      }
      var reached: bool := *;
      if !reached && addr in down {
        return Unreachable;
      }
      if force || (addr, id) !in disk {
        disk := disk[(addr, id) := body];
      }
      var acked: bool := *;
      return if acked || addr !in down then Acked else Unreachable;
    }

    /** DeleteChunkFrom: the file goes away, unless the request gets lost. */
    method Delete(addr: Addr, id: ChunkID) returns (ok: bool)
      modifies this`disk
      ensures disk == old(disk) || disk == old(disk) - {(addr, id)}
      ensures ok ==> (addr, id) !in disk
      ensures addr !in down ==> ok
    {
      var reached: bool, answered: bool := *, *;
      if !reached && addr in down {
        return false;
      }
      disk := disk - {(addr, id)};
      ok := answered || addr !in down;
    }

    /** ReadChunk: the candidates in order, the first that answers wins. */
    method Read(id: ChunkID, candidates: seq<Addr>) returns (r: Fetched)
      ensures r.Got? ==> exists a <- candidates :: (a, id) in disk && disk[(a, id)] == r.body
      ensures (exists a <- candidates :: a !in down && (a, id) in disk) ==> r.Got?
    {
      for i := 0 to |candidates|
        invariant forall j :: 0 <= j < i ==> candidates[j] in down || (candidates[j], id) !in disk
      {
        var reached: bool := *;
        if (reached || candidates[i] !in down) && (candidates[i], id) in disk {
          return Got(disk[(candidates[i], id)]);
        }
      }
      return Failed;
    }
  }
}
