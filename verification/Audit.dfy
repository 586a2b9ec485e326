/** The Merkle audit: internal/coord/anti_entropy.go on the coordinator, internal/dn/merkle.go on
    the node. Chunk ids fall into 256 buckets by their first two hex digits; bucket hashes and a root
    hash over them let the coordinator fetch only the buckets that differ. The reference is the
    multiset difference of what is expected and what is on disk. */
module AuditSpec {
  import opened Lists
  import opened Order
  import opened Nodes
  import opened Metadata

  type Hash = string -> string

  predicate IsHex(c: char) { '0' <= c <= '9' || 'a' <= c <= 'f' }

  /** validHex64 and validChunkID. */
  predicate ValidID(id: string) { |id| == 64 && forall i :: 0 <= i < |id| ==> IsHex(id[i]) }

  function HexValue(c: char): (v: nat)
    ensures v < 16
  {
    if '0' <= c <= '9' then c as nat - '0' as nat else if 'a' <= c <= 'f' then c as nat - 'a' as nat + 10 else 0
  }

  function HexNibble(n: nat): (c: char)
    requires n < 16
  {
    if n < 10 then ('0' as nat + n) as char else ('a' as nat + n - 10) as char
  }

  /** ParseInt(id[:2], 16). */
  function BucketOf(id: string): (b: nat)
    ensures b < 256
  {
    if |id| < 2 then 0 else HexValue(id[0]) * 16 + HexValue(id[1])
  }

  function InBucket(ids: seq<string>, b: nat): (r: seq<string>) {
    if ids == [] then []
    else
      var n := |ids| - 1;
      if BucketOf(ids[n]) == b then InBucket(ids[..n], b) + [ids[n]] else InBucket(ids[..n], b)
  }

  /** What sort.Strings leaves in bucket b. */
  function Bucket(ids: seq<string>, b: nat): (r: seq<string>) { Sort(Less, InBucket(ids, b)) }

  /** The bytes hashed for one bucket: every id followed by a newline. */
  function Lines(ids: seq<string>): (t: string) {
    if ids == [] then "" else Lines(ids[..|ids| - 1]) + ids[|ids| - 1] + "\n"
  }

  function DigestOf(sha: Hash, ids: seq<string>, b: nat): (h: string) { sha(Lines(Bucket(ids, b))) }

  function Joined(digests: seq<string>): (t: string) {
    if digests == [] then "" else Joined(digests[..|digests| - 1]) + digests[|digests| - 1]
  }

  function DigestList(sha: Hash, ids: seq<string>): (t: seq<string>) {
    seq(256, b requires 0 <= b < 256 => DigestOf(sha, ids, b))
  }

  /** The root hashes the bucket digests in order. */
  function Root(sha: Hash, ids: seq<string>): (t: string) { sha(Joined(DigestList(sha, ids))) }

  /** Digests have one length, and the texts the two sides hash do not collide. */
  ghost predicate CollisionFree(sha: Hash, a: seq<string>, b: seq<string>) {
    && (forall t :: |sha(t)| == 32)
    && (forall i :: 0 <= i < 256 && DigestOf(sha, a, i) == DigestOf(sha, b, i) ==>
         Lines(Bucket(a, i)) == Lines(Bucket(b, i)))
    && (Root(sha, a) == Root(sha, b) ==> Joined(DigestList(sha, a)) == Joined(DigestList(sha, b)))
  }

  ghost predicate AllValid(ids: seq<string>) { forall i :: 0 <= i < |ids| ==> ValidID(ids[i]) }

  ghost predicate Ascending(s: seq<string>) { forall i, j :: 0 <= i < j < |s| ==> AtMost(s[i], s[j]) }

  /** The ids the records place on one node, with repetitions. */
  function Expected(refs: seq<Ref>, dn: Addr): (r: seq<string>) {
    if refs == [] then []
    else
      var n := |refs| - 1;
      var rest := Expected(refs[..n], dn);
      if refs[n].addr == dn && dn != "" && ValidID(refs[n].id) then rest + [refs[n].id] else rest
  }

  /** A file on the node's disk: chunks/<dir>/<base>. */
  datatype File = File(dir: string, base: string)

  predicate IsChunkFile(f: File) { |f.dir| == 2 && |f.base| == 62 && ValidID(f.dir + f.base) }

  /** The chunk ids on disk. */
  function OnDisk(files: seq<File>): (r: seq<string>) {
    if files == [] then []
    else
      var n := |files| - 1;
      if IsChunkFile(files[n]) then OnDisk(files[..n]) + [files[n].dir + files[n].base] else OnDisk(files[..n])
  }

  /** x occurs in the list as often as in expected minus actual, if its bucket could be fetched. */
  ghost predicate IsDifference(list: seq<string>, expected: seq<string>, actual: seq<string>, fetched: nat -> bool,
                               upto: nat)
  {
    forall x :: multiset(list)[x] ==
      if BucketOf(x) < upto && fetched(BucketOf(x)) then (multiset(expected) - multiset(actual))[x] else 0
  }

  /** The hashes of the first buckets, each sorted. */
  ghost predicate HashesOf(sha: Hash, buckets: seq<seq<string>>, hashes: seq<string>) {
    |hashes| <= |buckets| && forall b :: 0 <= b < |hashes| ==> hashes[b] == sha(Lines(Sort(Less, buckets[b])))
  }

  datatype DNAudit = DNAudit(reachable: bool, rootMatch: bool, missing: seq<string>, extra: seq<string>)

  datatype Merkle = Merkle(root: string, hashes: seq<string>)

  function Lookup(m: map<nat, seq<string>>, b: nat): (r: seq<string>) { if b in m then m[b] else [] }

  function LookupDN(m: map<Addr, map<nat, seq<string>>>, dn: Addr): (r: map<nat, seq<string>>) {
    if dn in m then m[dn] else map[]
  }

  /** The nested map lists, per node and bucket, the ids of the references walked so far. */
  ghost predicate Collects(m: map<Addr, map<nat, seq<string>>>, refs: seq<Ref>) {
    forall dn, b :: Lookup(LookupDN(m, dn), b) == InBucket(Expected(refs, dn), b)
  }

  /** The coordinator's buckets for a node, sorted. */
  ghost predicate IsBuckets(m: map<nat, seq<string>>, ids: seq<string>) {
    forall b :: 0 <= b < 256 ==> Lookup(m, b) == Bucket(ids, b)
  }
}

/** Sorting and differences of string lists that may repeat an element. */
module Multisets {
  import opened Lists
  import opened Order
  import opened AuditSpec

  lemma {:induction false} InsertAscending(x: string, s: seq<string>)
    requires Ascending(s)
    ensures Ascending(Insert(Less, x, s))
  {
    if s != [] {
      if Less(x, s[0]) {
        forall j | 0 <= j < |s| ensures Less(x, s[j]) { LessAtMost(x, s[0], s[j]); }
      } else {
        LessTotal(x, s[0]);
        InsertAscending(x, s[1..]);
        var r := Insert(Less, x, s[1..]);
        forall y | y in r ensures AtMost(s[0], y) {
          SameMembers(r, s[1..] + [x], y);
          if y != x { var j :| 0 <= j < |s[1..]| && s[1..][j] == y; assert s[j + 1] == y; }
        }
      }
    }
  }

  lemma {:induction false} SortAscending(s: seq<string>)
    ensures Ascending(Sort(Less, s))
  {
    if s != [] {
      SortAscending(s[1..]);
      InsertAscending(s[0], Sort(Less, s[1..]));
    }
  }

  lemma SameHead(a: seq<string>, b: seq<string>)
    requires Ascending(a) && Ascending(b) && a != [] && b != [] && multiset(a) == multiset(b)
    ensures a[0] == b[0] && multiset(a[1..]) == multiset(b[1..])
  {
    SameMembers(a, b, a[0]);
    SameMembers(a, b, b[0]);
    var i :| 0 <= i < |b| && b[i] == a[0];
    var j :| 0 <= j < |a| && a[j] == b[0];
    LessAsymmetric(a[0], b[0]);
    TailMultiset(a);
    TailMultiset(b);
  }

  lemma TailMultiset(a: seq<string>)
    requires a != []
    ensures multiset(a) == multiset{a[0]} + multiset(a[1..]) && multiset(a[1..]) == multiset(a) - multiset{a[0]}
  {
    assert a == [a[0]] + a[1..];
  }

  /** An ascending list is determined by its multiset. */
  lemma {:induction false} AscendingUnique(a: seq<string>, b: seq<string>)
    requires Ascending(a) && Ascending(b) && multiset(a) == multiset(b)
    ensures a == b
  {
    assert |multiset(a)| == |a| && |multiset(b)| == |b|;
    if a != [] {
      SameHead(a, b);
      AscendingUnique(a[1..], b[1..]);
      assert a == [a[0]] + a[1..] && b == [b[0]] + b[1..];
    }
  }

  /** A string below the head of an ascending list is not in it. */
  lemma NotBelowHead(x: string, s: seq<string>)
    requires Ascending(s) && s != [] && Less(x, s[0])
    ensures x !in s
  {
    LessIrreflexive(x);
    forall j | 0 <= j < |s| ensures x != s[j] { LessAtMost(x, s[0], s[j]); }
  }

  /** What the merge walk finds only in a. */
  function OnlyIn(a: seq<string>, b: seq<string>): (r: seq<string>)
    decreases |a| + |b|
  {
    if a == [] then []
    else if b == [] then a
    else if Less(a[0], b[0]) then [a[0]] + OnlyIn(a[1..], b)
    else if Less(b[0], a[0]) then OnlyIn(a, b[1..])
    else OnlyIn(a[1..], b[1..])
  }

  lemma DifferenceSteps(a: multiset<string>, b: multiset<string>, x: string)
    ensures b[x] == 0 ==> (multiset{x} + a) - b == multiset{x} + (a - b)
    ensures a[x] == 0 ==> a - (multiset{x} + b) == a - b
    ensures (multiset{x} + a) - (multiset{x} + b) == a - b
  {
  }

  /** On ascending lists that is the multiset difference. */
  lemma {:induction false} OnlyInIsDifference(a: seq<string>, b: seq<string>)
    requires Ascending(a) && Ascending(b)
    ensures multiset(OnlyIn(a, b)) == multiset(a) - multiset(b)
    decreases |a| + |b|, 1
  {
    if a != [] && b != [] {
      if Less(a[0], b[0]) {
        DifferenceLess(a, b);
      } else if Less(b[0], a[0]) {
        DifferenceMore(a, b);
      } else {
        LessTotal(a[0], b[0]);
        OnlyInIsDifference(a[1..], b[1..]);
        DifferenceSteps(multiset(a[1..]), multiset(b[1..]), a[0]);
        TailMultiset(a);
        TailMultiset(b);
      }
    }
  }

  lemma {:induction false} DifferenceLess(a: seq<string>, b: seq<string>)
    requires Ascending(a) && Ascending(b) && a != [] && b != [] && Less(a[0], b[0])
    ensures multiset(OnlyIn(a, b)) == multiset(a) - multiset(b)
    decreases |a| + |b|, 0
  {
    NotBelowHead(a[0], b);
    OnlyInIsDifference(a[1..], b);
    DifferenceSteps(multiset(a[1..]), multiset(b), a[0]);
    TailMultiset(a);
  }

  lemma {:induction false} DifferenceMore(a: seq<string>, b: seq<string>)
    requires Ascending(a) && Ascending(b) && a != [] && b != [] && Less(b[0], a[0])
    ensures multiset(OnlyIn(a, b)) == multiset(a) - multiset(b)
    decreases |a| + |b|, 0
  {
    NotBelowHead(b[0], a);
    LessAsymmetric(a[0], b[0]);
    OnlyInIsDifference(a, b[1..]);
    DifferenceSteps(multiset(a), multiset(b[1..]), b[0]);
    TailMultiset(b);
  }

  /** symmetricDiff: the merge walk computes both differences. */
  method SymmetricDiff(a: seq<string>, b: seq<string>) returns (onlyA: seq<string>, onlyB: seq<string>)
    requires Ascending(a) && Ascending(b)
    ensures multiset(onlyA) == multiset(a) - multiset(b)
    ensures multiset(onlyB) == multiset(b) - multiset(a)
  {
    OnlyInIsDifference(a, b);
    OnlyInIsDifference(b, a);
    onlyA, onlyB := Merge(a, b);
  }

  /** What the walk has put out when i elements of a and j of b are behind it. */
  ghost predicate Walked(a: seq<string>, b: seq<string>, i: nat, j: nat, out: seq<string>) {
    i <= |a| && j <= |b| && OnlyIn(a, b) == out + OnlyIn(a[i..], b[j..])
  }

  lemma WalkedNext(a: seq<string>, b: seq<string>, i: nat, j: nat, out: seq<string>)
    requires i < |a| && j < |b| && Walked(a, b, i, j, out)
    ensures
      if Less(a[i], b[j]) then Walked(a, b, i + 1, j, out + [a[i]])
      else if Less(b[j], a[i]) then Walked(a, b, i, j + 1, out)
      else Walked(a, b, i + 1, j + 1, out)
  {
    assert out + ([a[i]] + OnlyIn(a[i + 1..], b[j..])) == out + [a[i]] + OnlyIn(a[i + 1..], b[j..]);
  }

  lemma WalkedAll(a: seq<string>, b: seq<string>, i: nat, j: nat, out: seq<string>)
    requires Walked(a, b, i, j, out) && (i == |a| || j == |b|)
    ensures OnlyIn(a, b) == out + a[i..]
  {
  }

  method Merge(a: seq<string>, b: seq<string>) returns (onlyA: seq<string>, onlyB: seq<string>)
    ensures onlyA == OnlyIn(a, b) && onlyB == OnlyIn(b, a)
  {
    onlyA, onlyB := [], [];
    var i, j := 0, 0;
    assert a[0..] == a && b[0..] == b;
    while i < |a| && j < |b|
      invariant Walked(a, b, i, j, onlyA) && Walked(b, a, j, i, onlyB)
    {
      WalkedNext(a, b, i, j, onlyA);
      WalkedNext(b, a, j, i, onlyB);
      LessAsymmetric(a[i], b[j]);
      if Less(a[i], b[j]) {
        onlyA := onlyA + [a[i]];
        i := i + 1;
      } else if Less(b[j], a[i]) {
        onlyB := onlyB + [b[j]];
        j := j + 1;
      } else {
        i, j := i + 1, j + 1;
      }
    }
    WalkedAll(a, b, i, j, onlyA);
    WalkedAll(b, a, j, i, onlyB);
    onlyA := onlyA + a[i..];
    onlyB := onlyB + b[j..];
  }
}

/** The hash tree decides equality. */
module MerkleProofs {
  import opened Lists
  import opened Order
  import opened Nodes
  import opened Metadata
  import opened AuditSpec
  import opened Multisets

  lemma {:induction false} BucketCount(ids: seq<string>, b: nat, x: string)
    ensures multiset(InBucket(ids, b))[x] == if BucketOf(x) == b then multiset(ids)[x] else 0
  {
    if ids != [] {
      var n := |ids| - 1;
      assert ids == ids[..n] + [ids[n]];
      BucketCount(ids[..n], b, x);
    }
  }

  /** The ids agree as multisets exactly when all 256 sorted buckets agree. */
  lemma BucketsDecide(a: seq<string>, c: seq<string>)
    ensures multiset(a) == multiset(c) <==> forall b :: 0 <= b < 256 ==> Bucket(a, b) == Bucket(c, b)
  {
    if multiset(a) == multiset(c) {
      forall b | 0 <= b < 256 ensures Bucket(a, b) == Bucket(c, b) { SameBucket(a, c, b); }
    }
    if forall b :: 0 <= b < 256 ==> Bucket(a, b) == Bucket(c, b) {
      forall x ensures multiset(a)[x] == multiset(c)[x] {
        var b := BucketOf(x);
        assert multiset(Bucket(a, b)) == multiset(Bucket(c, b));
        BucketCount(a, b, x);
        BucketCount(c, b, x);
      }
    }
  }

  lemma SameBucket(a: seq<string>, c: seq<string>, b: nat)
    requires multiset(a) == multiset(c)
    ensures Bucket(a, b) == Bucket(c, b)
  {
    forall x ensures multiset(InBucket(a, b))[x] == multiset(InBucket(c, b))[x] {
      BucketCount(a, b, x);
      BucketCount(c, b, x);
    }
    SortAscending(InBucket(a, b));
    SortAscending(InBucket(c, b));
    AscendingUnique(Bucket(a, b), Bucket(c, b));
  }

  lemma BucketValid(ids: seq<string>, b: nat)
    requires AllValid(ids)
    ensures AllValid(Bucket(ids, b))
  {
    var r := Bucket(ids, b);
    forall i | 0 <= i < |r| ensures ValidID(r[i]) {
      assert multiset(r)[r[i]] > 0;
      BucketCount(ids, b, r[i]);
      assert r[i] in multiset(ids);
      var j :| 0 <= j < |ids| && ids[j] == r[i];
    }
  }

  lemma {:induction false} LinesLength(ids: seq<string>)
    requires AllValid(ids)
    ensures |Lines(ids)| == 65 * |ids|
  {
    if ids != [] { LinesLength(ids[..|ids| - 1]); }
  }

  /** Ids of one length: the newline-joined text determines the list. */
  lemma {:induction false} LinesInjective(a: seq<string>, b: seq<string>)
    requires AllValid(a) && AllValid(b) && Lines(a) == Lines(b)
    ensures a == b
  {
    LinesLength(a);
    LinesLength(b);
    if a != [] {
      var n := |a| - 1;
      LinesLength(a[..n]);
      LinesLength(b[..n]);
      var la, lb := Lines(a[..n]), Lines(b[..n]);
      assert Lines(a)[..|la|] == la && Lines(b)[..|la|] == lb;
      assert Lines(a)[|la|..|la| + 64] == a[n] && Lines(b)[|la|..|la| + 64] == b[n];
      LinesInjective(a[..n], b[..n]);
      assert a == a[..n] + [a[n]] && b == b[..n] + [b[n]];
    }
  }

  lemma {:induction false} JoinedLength(ds: seq<string>)
    requires forall i :: 0 <= i < |ds| ==> |ds[i]| == 32
    ensures |Joined(ds)| == 32 * |ds|
  {
    if ds != [] { JoinedLength(ds[..|ds| - 1]); }
  }

  /** Digests of one length: the concatenation determines each of them. */
  lemma {:induction false} JoinedInjective(a: seq<string>, c: seq<string>)
    requires |a| == |c| && Joined(a) == Joined(c)
    requires forall i :: 0 <= i < |a| ==> |a[i]| == 32 && |c[i]| == 32
    ensures a == c
  {
    if a != [] {
      var n := |a| - 1;
      JoinedLength(a[..n]);
      JoinedLength(c[..n]);
      assert Joined(a)[..32 * n] == Joined(a[..n]) && Joined(c)[..32 * n] == Joined(c[..n]);
      assert Joined(a)[32 * n..] == a[n] && Joined(c)[32 * n..] == c[n];
      JoinedInjective(a[..n], c[..n]);
      assert a == a[..n] + [a[n]] && c == c[..n] + [c[n]];
    }
  }

  /** One bucket's hashes agree exactly when its sorted ids agree. */
  lemma HashDecides(sha: Hash, a: seq<string>, c: seq<string>, b: nat)
    requires AllValid(a) && AllValid(c) && CollisionFree(sha, a, c) && b < 256
    ensures DigestOf(sha, a, b) == DigestOf(sha, c, b) <==> Bucket(a, b) == Bucket(c, b)
  {
    BucketValid(a, b);
    BucketValid(c, b);
    if DigestOf(sha, a, b) == DigestOf(sha, c, b) { LinesInjective(Bucket(a, b), Bucket(c, b)); }
  }

  /** The roots agree exactly when the two sides hold the same ids equally often. */
  lemma RootDecides(sha: Hash, a: seq<string>, c: seq<string>)
    requires AllValid(a) && AllValid(c) && CollisionFree(sha, a, c)
    ensures Root(sha, a) == Root(sha, c) <==> multiset(a) == multiset(c)
  {
    BucketsDecide(a, c);
    var da, dc := DigestList(sha, a), DigestList(sha, c);
    if multiset(a) == multiset(c) { assert da == dc; }
    if Root(sha, a) == Root(sha, c) {
      JoinedInjective(da, dc);
      forall b | 0 <= b < 256 ensures Bucket(a, b) == Bucket(c, b) {
        assert da[b] == dc[b];
        HashDecides(sha, a, c, b);
      }
    }
  }

  /** Compared with a list without repetitions, multisets say what sets say, and find repetitions. */
  lemma AgainstDistinct(a: seq<string>, c: seq<string>)
    requires NoRepeats(c)
    ensures multiset(a) == multiset(c) <==> NoRepeats(a) && forall x :: x in a <==> x in c
    ensures forall x :: x in multiset(c) - multiset(a) <==> x in c && x !in a
    ensures NoRepeats(a) ==> forall x :: x in multiset(a) - multiset(c) <==> x in a && x !in c
  {
    forall x ensures multiset(c)[x] == if x in c then 1 else 0 { CountOnce(c, x); }
    forall x ensures x in a <==> multiset(a)[x] > 0 {}
    if NoRepeats(a) {
      forall x ensures multiset(a)[x] == if x in a then 1 else 0 { CountOnce(a, x); }
    } else {
      var i, j :| 0 <= i < j < |a| && a[i] == a[j];
      CountTwice(a, i, j);
    }
  }

  // ---- the difference, bucket by bucket ----

  /** Comparing one more bucket adds that bucket's part of the difference. */
  lemma AddBucket(list: seq<string>, found: seq<string>, a: seq<string>, c: seq<string>, fetched: nat -> bool, b: nat)
    requires IsDifference(list, a, c, fetched, b)
    requires multiset(found) == if fetched(b) then multiset(Bucket(a, b)) - multiset(Bucket(c, b)) else multiset{}
    ensures IsDifference(list + found, a, c, fetched, b + 1)
  {
    forall x ensures multiset(list + found)[x] ==
        if BucketOf(x) < b + 1 && fetched(BucketOf(x)) then (multiset(a) - multiset(c))[x] else 0 {
      BucketCount(a, b, x);
      BucketCount(c, b, x);
      assert multiset(list + found)[x] == multiset(list)[x] + multiset(found)[x];
    }
  }
}

module Audit {
  import opened Lists
  import opened Order
  import opened Nodes
  import opened Metadata
  import opened References
  import opened AuditSpec
  import opened Multisets
  import opened MerkleProofs

  // ---- the node: internal/dn/merkle.go ----

  /** The running hash over one bucket; also bucketHash on the coordinator. */
  method BucketHash(sha: Hash, ids: seq<string>) returns (h: string)
    ensures h == sha(Lines(ids))
  {
    var text := "";
    for i := 0 to |ids|
      invariant text == Lines(ids[..i])
    {
      assert ids[..i + 1][..i] == ids[..i];
      text := text + ids[i] + "\n";
    }
    assert ids[..|ids|] == ids;
    h := sha(text);
  }

  /** The directory walk: chunk files by bucket. */
  method WalkChunks(files: seq<File>) returns (buckets: seq<seq<string>>)
    ensures |buckets| == 256 && forall b :: 0 <= b < 256 ==> buckets[b] == InBucket(OnDisk(files), b)
  {
    buckets := seq(256, _ => []);
    for i := 0 to |files|
      invariant |buckets| == 256 && forall b :: 0 <= b < 256 ==> buckets[b] == InBucket(OnDisk(files[..i]), b)
    {
      var f := files[i];
      assert files[..i + 1][..i] == files[..i];
      if |f.dir| == 2 && |f.base| == 62 && ValidID(f.dir + f.base) {
        var id := f.dir + f.base;
        OneMore(OnDisk(files[..i]), id);
        buckets := buckets[BucketOf(id) := buckets[BucketOf(id)] + [id]];
      }
    }
    assert files[..|files|] == files;
  }

  lemma OneMore(ids: seq<string>, id: string)
    ensures forall b :: InBucket(ids + [id], b) ==
                        if BucketOf(id) == b then InBucket(ids, b) + [id] else InBucket(ids, b)
  {
  }

  lemma JoinOne(ds: seq<string>, h: string)
    ensures Joined(ds + [h]) == Joined(ds) + h
  {
  }

  lemma HashesMore(sha: Hash, buckets: seq<seq<string>>, hashes: seq<string>, h: string)
    requires HashesOf(sha, buckets, hashes) && |hashes| < |buckets| && h == sha(Lines(Sort(Less, buckets[|hashes|])))
    ensures HashesOf(sha, buckets, hashes + [h])
  {
  }

  /** The hash of every sorted bucket, and the text the root is taken of. */
  method HashBuckets(sha: Hash, buckets: seq<seq<string>>) returns (hashes: seq<string>, text: string)
    ensures |hashes| == |buckets| && text == Joined(hashes) && HashesOf(sha, buckets, hashes)
  {
    hashes, text := [], "";
    for i := 0 to |buckets|
      invariant |hashes| == i && text == Joined(hashes)
      invariant HashesOf(sha, buckets, hashes)
    {
      var h := BucketHash(sha, Sort(Less, buckets[i]));
      JoinOne(hashes, h);
      HashesMore(sha, buckets, hashes, h);
      hashes, text := hashes + [h], text + h;
    }
  }

  /** computeMerkle: the bucket digests and the root over them. */
  method ComputeMerkle(sha: Hash, files: seq<File>) returns (m: Merkle)
    ensures m.hashes == DigestList(sha, OnDisk(files)) && m.root == Root(sha, OnDisk(files))
  {
    var buckets := WalkChunks(files);
    var hashes, text := HashBuckets(sha, buckets);
    assert hashes == DigestList(sha, OnDisk(files));
    m := Merkle(sha(text), hashes);
  }

  /** A chunk file is in the directory of its bucket. */
  lemma DirectoryIsBucket(f: File, idx: nat)
    requires idx < 256 && IsChunkFile(f)
    ensures BucketOf(f.dir + f.base) == idx <==> f.dir == [HexNibble(idx / 16), HexNibble(idx % 16)]
  {
  }

  /** listBucket: the sorted chunk ids of one directory. */
  method ListBucket(files: seq<File>, idx: nat) returns (ids: seq<string>)
    requires idx < 256
    ensures ids == Bucket(OnDisk(files), idx)
  {
    var prefix := [HexNibble(idx / 16), HexNibble(idx % 16)];
    ids := [];
    for i := 0 to |files|
      invariant ids == InBucket(OnDisk(files[..i]), idx)
    {
      var f := files[i];
      assert files[..i + 1][..i] == files[..i];
      if IsChunkFile(f) {
        OneMore(OnDisk(files[..i]), f.dir + f.base);
        DirectoryIsBucket(f, idx);
      }
      if f.dir == prefix && |f.base| == 62 && ValidID(prefix + f.base) {
        ids := ids + [prefix + f.base];
      }
    }
    assert files[..|files|] == files;
    ids := Sort(Less, ids);
  }

  // ---- the coordinator: internal/coord/anti_entropy.go ----

  /** add: one reference into the nested map. */
  method AddRef(m: map<Addr, map<nat, seq<string>>>, dn: Addr, id: ChunkID, ghost refs: seq<Ref>)
    returns (r: map<Addr, map<nat, seq<string>>>)
    requires Collects(m, refs)
    ensures Collects(r, refs + [Ref(dn, id)])
  {
    ExpectedMore(refs, dn, id);
    if dn == "" || !ValidID(id) {
      return m;
    }
    var had := LookupDN(m, dn);
    var b := BucketOf(id);
    r := m[dn := had[b := Lookup(had, b) + [id]]];
    forall q, i ensures Lookup(LookupDN(r, q), i) == InBucket(Expected(refs + [Ref(dn, id)], q), i) {
      assert Lookup(LookupDN(m, q), i) == InBucket(Expected(refs, q), i);
      OneMore(Expected(refs, dn), id);
    }
  }

  lemma ExpectedMore(refs: seq<Ref>, dn: Addr, id: ChunkID)
    ensures forall q :: Expected(refs + [Ref(dn, id)], q) ==
                        if q == dn && dn != "" && ValidID(id) then Expected(refs, q) + [id] else Expected(refs, q)
  {
  }

  method AddChunks(m: map<Addr, map<nat, seq<string>>>, cs: seq<ChunkRef>, ghost refs: seq<Ref>)
    returns (r: map<Addr, map<nat, seq<string>>>)
    requires Collects(m, refs)
    ensures Collects(r, refs + RefsOfChunks(cs))
  {
    r := m;
    assert refs + RefsOfChunks(cs[..0]) == refs;
    for i := 0 to |cs|
      invariant Collects(r, refs + RefsOfChunks(cs[..i]))
    {
      ghost var sofar := refs + RefsOfChunks(cs[..i]);
      assert cs[..i + 1][..i] == cs[..i];
      var c := cs[i];
      ghost var new' := RefsOfChunk(c);
      assert sofar + new'[..0] == sofar;
      for j := 0 to |c.replicas|
        invariant Collects(r, sofar + new'[..j])
      {
        assert new'[..j + 1] == new'[..j] + [Ref(c.replicas[j], c.id)];
        assert sofar + new'[..j + 1] == (sofar + new'[..j]) + [Ref(c.replicas[j], c.id)];
        r := AddRef(r, c.replicas[j], c.id, sofar + new'[..j]);
      }
      assert new'[..|new'|] == new';
      assert sofar + new' == refs + RefsOfChunks(cs[..i + 1]);
    }
    assert cs[..|cs|] == cs;
  }

  method AddStripes(m: map<Addr, map<nat, seq<string>>>, ss: seq<Stripe>, ghost refs: seq<Ref>)
    returns (r: map<Addr, map<nat, seq<string>>>)
    requires Collects(m, refs)
    ensures Collects(r, refs + RefsOfStripes(ss))
  {
    r := m;
    assert refs + RefsOfStripes(ss[..0]) == refs;
    for i := 0 to |ss|
      invariant Collects(r, refs + RefsOfStripes(ss[..i]))
    {
      assert ss[..i + 1][..i] == ss[..i];
      ghost var sofar := refs + RefsOfStripes(ss[..i]);
      r := AddChunks(r, ss[i].shards, sofar);
      assert sofar + RefsOfChunks(ss[i].shards) == refs + RefsOfStripes(ss[..i + 1]);
    }
    assert ss[..|ss|] == ss;
  }

  /** expectedChunksByDN: per node and bucket, the sorted ids the records place there. */
  method ExpectedChunksByDN(objs: seq<ObjectMeta>) returns (out: map<Addr, map<nat, seq<string>>>)
    ensures forall dn :: IsBuckets(LookupDN(out, dn), Expected(Refs(objs), dn))
  {
    var m: map<Addr, map<nat, seq<string>>> := map[];
    assert forall dn :: Expected([], dn) == [];
    for i := 0 to |objs|
      invariant Collects(m, Refs(objs[..i]))
    {
      assert objs[..i + 1][..i] == objs[..i];
      m := AddChunks(m, objs[i].chunks, Refs(objs[..i]));
      m := AddStripes(m, objs[i].stripes, Refs(objs[..i]) + RefsOfChunks(objs[i].chunks));
    }
    assert objs[..|objs|] == objs;
    out := map dn | dn in m :: map b | b in m[dn] :: Sort(Less, m[dn][b]);
    assert Sort(Less, []) == [];
    forall dn ensures IsBuckets(LookupDN(out, dn), Expected(Refs(objs), dn)) {
      forall b | 0 <= b < 256 ensures Lookup(LookupDN(out, dn), b) == Bucket(Expected(Refs(objs), dn), b) {
        assert Lookup(LookupDN(m, dn), b) == InBucket(Expected(Refs(objs), dn), b);
      }
    }
  }

  /** computeExpectedRoot. */
  method ComputeExpectedRoot(sha: Hash, m: map<nat, seq<string>>, ghost ids: seq<string>) returns (root: string)
    requires IsBuckets(m, ids)
    ensures root == Root(sha, ids)
  {
    var text := "";
    ghost var ds := DigestList(sha, ids);
    for i := 0 to 256
      invariant text == Joined(ds[..i])
    {
      var h := BucketHash(sha, Lookup(m, i));
      assert ds[..i + 1][..i] == ds[..i] && h == ds[i];
      text := text + h;
    }
    assert ds[..256] == ds;
    root := sha(text);
  }

  /** One differing bucket: fetch it and take the symmetric difference. */
  method CompareBucket(sha: Hash, exp: seq<string>, hash: string, files: seq<File>, b: nat, fetched: bool,
                       ghost ids: seq<string>)
    returns (miss: seq<string>, extra: seq<string>)
    requires b < 256 && exp == Bucket(ids, b) && hash == DigestOf(sha, OnDisk(files), b)
    requires AllValid(ids) && CollisionFree(sha, ids, OnDisk(files))
    ensures multiset(miss) ==
            if fetched then multiset(Bucket(ids, b)) - multiset(Bucket(OnDisk(files), b)) else multiset{}
    ensures multiset(extra) ==
            if fetched then multiset(Bucket(OnDisk(files), b)) - multiset(Bucket(ids, b)) else multiset{}
  {
    miss, extra := [], [];
    DiskValid(files);
    HashDecides(sha, ids, OnDisk(files), b);
    var h := BucketHash(sha, exp);
    if h == hash || !fetched {
      return;
    }
    var actual := ListBucket(files, b);
    SortAscending(InBucket(ids, b));
    SortAscending(InBucket(OnDisk(files), b));
    miss, extra := SymmetricDiff(exp, actual);
  }

  lemma {:induction false} DiskValid(files: seq<File>)
    ensures AllValid(OnDisk(files))
  {
    if files != [] { DiskValid(files[..|files| - 1]); }
  }

  lemma {:induction false} ExpectedValid(refs: seq<Ref>, dn: Addr)
    ensures AllValid(Expected(refs, dn))
  {
    if refs != [] { ExpectedValid(refs[..|refs| - 1], dn); }
  }

  /** auditOneDN: the root decides equality, and the pruned walk finds the whole difference. */
  method AuditOneDN(sha: Hash, m: map<nat, seq<string>>, files: seq<File>, reachable: bool, fetched: nat -> bool,
                    ghost ids: seq<string>) returns (r: DNAudit)
    requires IsBuckets(m, ids) && AllValid(ids) && CollisionFree(sha, ids, OnDisk(files))
    ensures r.reachable == reachable
    ensures reachable ==> (r.rootMatch <==> multiset(ids) == multiset(OnDisk(files)))
    ensures reachable ==> IsDifference(r.missing, ids, OnDisk(files), fetched, 256) && Ascending(r.missing)
    ensures reachable ==> IsDifference(r.extra, OnDisk(files), ids, fetched, 256) && Ascending(r.extra)
  {
    if !reachable {
      return DNAudit(false, false, [], []);
    }
    ghost var disk := OnDisk(files);
    var merkle := ComputeMerkle(sha, files);
    var root := ComputeExpectedRoot(sha, m, ids);
    DiskValid(files);
    RootDecides(sha, ids, disk);
    if root == merkle.root {
      return DNAudit(true, true, [], []);
    }
    var missing: seq<string>, extra: seq<string> := [], [];
    for b := 0 to 256
      invariant IsDifference(missing, ids, disk, fetched, b)
      invariant IsDifference(extra, disk, ids, fetched, b)
    {
      var mi, ex := CompareBucket(sha, Lookup(m, b), merkle.hashes[b], files, b, fetched(b), ids);
      AddBucket(missing, mi, ids, disk, fetched, b);
      AddBucket(extra, ex, disk, ids, fetched, b);
      missing, extra := missing + mi, extra + ex;
    }
    SortAscending(missing);
    SortAscending(extra);
    r := DNAudit(true, false, Sort(Less, missing), Sort(Less, extra));
  }

  /** Some record puts this chunk on the node. */
  ghost predicate Claims(objs: seq<ObjectMeta>, dn: Addr, x: string) {
    dn != "" && ValidID(x) && Mentions(objs, dn, x)
  }

  ghost predicate HasFile(files: seq<File>, x: string) {
    exists f <- files :: |f.dir| == 2 && f.dir + f.base == x && ValidID(x)
  }

  lemma {:induction false} ExpectedMembers(refs: seq<Ref>, dn: Addr, x: string)
    ensures x in Expected(refs, dn) <==> dn != "" && ValidID(x) && Ref(dn, x) in refs
  {
    if refs != [] {
      var n := |refs| - 1;
      assert refs == refs[..n] + [refs[n]];
      ExpectedMembers(refs[..n], dn, x);
    }
  }

  lemma {:induction false} OnDiskMembers(files: seq<File>, x: string)
    ensures x in OnDisk(files) <==> HasFile(files, x)
  {
    if files != [] {
      var n := |files| - 1;
      assert files == files[..n] + [files[n]];
      OnDiskMembers(files[..n], x);
    }
  }

  /** What is expected and what is on disk, in terms of records and files. */
  lemma BothMean(objs: seq<ObjectMeta>, dn: Addr, files: seq<File>)
    ensures forall x :: x in Expected(Refs(objs), dn) <==> Claims(objs, dn, x)
    ensures forall x :: x in OnDisk(files) <==> HasFile(files, x)
  {
    forall x ensures x in Expected(Refs(objs), dn) <==> Claims(objs, dn, x) {
      ExpectedMembers(Refs(objs), dn, x);
      RefsMean(objs, dn, x);
    }
    forall x ensures x in OnDisk(files) <==> HasFile(files, x) { OnDiskMembers(files, x); }
  }

  /** runAntiEntropy for one node whose fetches all succeed: the root matches exactly when the records
      and the disk agree and no (node, chunk) pair is referenced twice; when none is, the reported
      lists are the set differences. */
  method AuditNode(sha: Hash, objs: seq<ObjectMeta>, dn: Addr, files: seq<File>) returns (r: DNAudit)
    requires CollisionFree(sha, Expected(Refs(objs), dn), OnDisk(files)) && NoRepeats(files)
    ensures var e, d := Expected(Refs(objs), dn), OnDisk(files);
      && (r.rootMatch <==> NoRepeats(e) && forall x :: x in e <==> x in d)
      && (NoRepeats(e) ==> forall x :: x in r.missing <==> x in e && x !in d)
      && (forall x :: x in r.missing <==> multiset(e)[x] > multiset(d)[x])
      && (forall x :: x in r.extra <==> x in d && x !in e)
    ensures NoRepeats(Expected(Refs(objs), dn)) ==>
      && (r.rootMatch <==> forall x :: Claims(objs, dn, x) <==> HasFile(files, x))
      && (forall x :: x in r.missing <==> Claims(objs, dn, x) && !HasFile(files, x))
    ensures forall x :: x in r.extra <==> HasFile(files, x) && !Claims(objs, dn, x)
  {
    ghost var e, d := Expected(Refs(objs), dn), OnDisk(files);
    var out := ExpectedChunksByDN(objs);
    ExpectedValid(Refs(objs), dn);
    r := AuditOneDN(sha, LookupDN(out, dn), files, true, _ => true, e);
    DiskDistinct(files);
    AgainstDistinct(e, d);
    DifferenceMembers(r.missing, e, d, _ => true);
    DifferenceMembers(r.extra, d, e, _ => true);
    BothMean(objs, dn, files);
  }

  lemma DifferenceMembers(list: seq<string>, a: seq<string>, c: seq<string>, fetched: nat -> bool)
    requires IsDifference(list, a, c, fetched, 256) && forall b :: fetched(b)
    ensures forall x :: x in list <==> x in multiset(a) - multiset(c)
  {
  }

  /** Different files hold different chunks. */
  lemma {:induction false} DiskDistinct(files: seq<File>)
    requires NoRepeats(files)
    ensures NoRepeats(OnDisk(files))
  {
    if files != [] {
      var n := |files| - 1;
      DiskDistinct(files[..n]);
      if IsChunkFile(files[n]) { NotYet(files[..n], files[n]); }
    }
  }

  lemma {:induction false} NotYet(files: seq<File>, f: File)
    requires f !in files && IsChunkFile(f)
    ensures f.dir + f.base !in OnDisk(files)
  {
    if files != [] {
      var n := |files| - 1;
      NotYet(files[..n], f);
      var g := files[n];
      assert g in files;
      if IsChunkFile(g) {
        assert g.dir == (g.dir + g.base)[..2] && g.base == (g.dir + g.base)[2..];
        assert f.dir == (f.dir + f.base)[..2] && f.base == (f.dir + f.base)[2..];
      }
    }
  }
}
