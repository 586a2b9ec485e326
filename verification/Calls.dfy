/** What the calls of internal/store/store.go leave in the tables, in terms of their arguments. */
module CallSpec {
  import opened Nodes
  import opened Metadata
  import opened StoreSpec

  /** Two maps that agree on every key but one. */
  ghost predicate SameBut<T(!new)>(a: map<string, T>, b: map<string, T>, k: string) {
    forall x :: x != k ==> (x in a <==> x in b) && (x in a && x in b ==> a[x] == b[x])
  }

  /** The time given, or now if none was. */
  predicate Dated(given: nat, now: nat, t: nat) { if given == 0 then t == now else t == given }

  /** The version follows the one that was there; a new record keeps its own; neither is ever 0. */
  predicate Numbered(was: map<string, ObjectMeta>, k: string, given: Version, v: Version) {
    && v != 0
    && (k in was && was[k].version != -1 && was[k].version != 0x7fff_ffff_ffff_ffff ==> v == was[k].version + 1)
    && (k in was && was[k].version == -1 ==> v == 1)
    && (k in was && was[k].version == 0x7fff_ffff_ffff_ffff ==> v == -0x8000_0000_0000_0000)
    && (k !in was && given != 0 ==> v == given) && (k !in was && given == 0 ==> v == 1)
  }

  // ---- completing an upload ----

  /** The parts that a completion lists. */
  function Listed(up: Upload, parts: seq<CompletePart>): (ps: seq<Part>)
    requires forall i :: 0 <= i < |parts| ==> parts[i].number in up.parts
  {
    seq(|parts|, i requires 0 <= i < |parts| => up.parts[parts[i].number])
  }

  function Sum(xs: seq<int>): (n: int) { if xs == [] then 0 else xs[0] + Sum(xs[1..]) }

  function Flat<T>(xs: seq<seq<T>>): (r: seq<T>) { if xs == [] then [] else xs[0] + Flat(xs[1..]) }

  function Sizes(ps: seq<Part>): (r: seq<int>) { seq(|ps|, i requires 0 <= i < |ps| => ps[i].size) }

  function Etags(ps: seq<Part>): (r: seq<string>) { seq(|ps|, i requires 0 <= i < |ps| => ps[i].etag) }

  function Chunks(ps: seq<Part>): (r: seq<seq<ChunkRef>>) { seq(|ps|, i requires 0 <= i < |ps| => ps[i].chunks) }

  /** Ascending numbers from 1 to 10000 of uploaded parts, with their etags where the request names any. */
  ghost predicate PartsFit(up: Upload, parts: seq<CompletePart>) {
    && (forall i :: 0 <= i < |parts| ==> 1 <= parts[i].number <= 10000 && parts[i].number in up.parts)
    && (forall i :: 0 <= i < |parts| ==> parts[i].etag == "" || parts[i].etag == up.parts[parts[i].number].etag)
    && (forall i, j :: 0 <= i < j < |parts| ==> parts[i].number < parts[j].number)
  }

  /** Sizes, etags and chunks of the listed parts, in order. */
  predicate AddsUp(a: Assembly, ps: seq<Part>) {
    a.size == Sum(Sizes(ps)) && a.etags == Flat(Etags(ps)) && a.chunks == Flat(Chunks(ps))
  }

  /** What the digits of a decimal numeral add up to. */
  function Numeral(s: string): (n: int) {
    if s == "" then 0 else 10 * Numeral(s[..|s| - 1]) + (s[|s| - 1] as int - '0' as int)
  }

  ghost predicate IsNumeral(s: string, n: nat) {
    && s != "" && (forall i :: 0 <= i < |s| ==> '0' <= s[i] <= '9') && (|s| > 1 ==> s[0] != '0')
    && Numeral(s) == n
  }

  /** The record of a completed upload: the listed parts in order. */
  ghost predicate IsCompletion(sha: string -> string, bucket: string, key: string, up: Upload, ps: seq<Part>,
                               now: nat, o: ObjectMeta)
  {
    && o.bucket == bucket && o.key == key && o.contentType == up.contentType && o.createdAt == now
    && o.size == Sum(Sizes(ps)) && o.chunks == Flat(Chunks(ps)) && o.ec == NoEC && o.stripes == [] && o.tier == ""
    && (exists count :: IsNumeral(count, |ps|) && o.etag == "\"" + sha(Flat(Etags(ps))) + "-" + count + "\"")
  }

  // ---- the calls ----

  /** The call is not refused. */
  ghost predicate Accepts(db: Db, c: Call) {
    match c
    case DoPutObject(_) => true
    case DoDeleteObject(bucket, key) => bucket + "/" + key in db.objects
    case DoCreateBucket(name, isIP) => ValidBucketName(name, isIP) && name !in db.buckets
    case DoDeleteBucket(name) => name in db.buckets && forall k <- db.objects :: !(name + "/" <= k)
    case DoCreateUpload(bucket, key, _, _) => bucket != "" && key != "" && bucket in db.buckets
    case DoPutPart(bucket, key, uploadID, part) =>
      && 1 <= part.number <= 10000 && part.etag != "" && part.chunks != []
      && bucket + "/" + key + "/" + uploadID in db.uploads
    case DoComplete(bucket, key, uploadID, parts) =>
      var k := bucket + "/" + key + "/" + uploadID;
      parts != [] && k in db.uploads && PartsFit(db.uploads[k], parts)
    case DoAbort(bucket, key, uploadID) => bucket + "/" + key + "/" + uploadID in db.uploads
    case DoAddDN(addr) => addr != ""
    case DoRemoveDN(addr) => addr != ""
  }

  /** What the call does to the objects. */
  ghost predicate ObjectsAfter(sha: string -> string, db: Db, c: Call, now: Instant, t: Db) {
    match c
    case DoPutObject(obj) =>
      var k := obj.bucket + "/" + obj.key;
      && k in t.objects && SameBut(db.objects, t.objects, k)
      && var o := t.objects[k];
         && o.(version := obj.version, createdAt := obj.createdAt) == obj
         && Numbered(db.objects, k, obj.version, o.version) && Dated(obj.createdAt, now, o.createdAt)
    case DoDeleteObject(bucket, key) =>
      bucket + "/" + key !in t.objects && SameBut(db.objects, t.objects, bucket + "/" + key)
    case DoComplete(bucket, key, uploadID, parts) =>
      var k, u := bucket + "/" + key, bucket + "/" + key + "/" + uploadID;
      && k in t.objects && SameBut(db.objects, t.objects, k)
      && u in db.uploads && PartsFit(db.uploads[u], parts)
      && IsCompletion(sha, bucket, key, db.uploads[u], Listed(db.uploads[u], parts), now, t.objects[k])
      && Numbered(db.objects, k, 0, t.objects[k].version)
    case _ => t.objects == db.objects
  }

  /** What it does to the pending uploads. */
  ghost predicate UploadsAfter(db: Db, c: Call, now: Instant, t: Db) {
    match c
    case DoCreateUpload(bucket, key, contentType, uploadID) =>
      var u := bucket + "/" + key + "/" + uploadID;
      && u in t.uploads && SameBut(db.uploads, t.uploads, u)
      && t.uploads[u] == Upload(bucket, key, uploadID, contentType, now, map[])
    case DoPutPart(bucket, key, uploadID, part) =>
      var u := bucket + "/" + key + "/" + uploadID;
      && u in db.uploads && u in t.uploads && SameBut(db.uploads, t.uploads, u)
      && PartReplaced(db.uploads[u], t.uploads[u], part, now)
    case DoComplete(bucket, key, uploadID, _) => UploadGone(db, t, bucket + "/" + key + "/" + uploadID)
    case DoAbort(bucket, key, uploadID) => UploadGone(db, t, bucket + "/" + key + "/" + uploadID)
    case _ => t.uploads == db.uploads
  }

  ghost predicate UploadGone(db: Db, t: Db, u: string) { u !in t.uploads && SameBut(db.uploads, t.uploads, u) }

  /** The upload has the part under its number, and is otherwise as it was. */
  ghost predicate PartReplaced(up: Upload, after: Upload, part: Part, now: nat) {
    && after.(parts := up.parts) == up && after.parts.Keys == up.parts.Keys + {part.number}
    && (forall n <- up.parts :: n != part.number ==> after.parts[n] == up.parts[n])
    && var p := after.parts[part.number];
       p.(createdAt := part.createdAt) == part && Dated(part.createdAt, now, p.createdAt)
  }

  /** What it does to the buckets and the nodes. */
  ghost predicate RestAfter(db: Db, c: Call, now: Instant, t: Db) {
    && (match c
        case DoCreateBucket(name, _) =>
          name in t.buckets && SameBut(db.buckets, t.buckets, name) && t.buckets[name] == Bucket(name, now)
        case DoDeleteBucket(name) => name !in t.buckets && SameBut(db.buckets, t.buckets, name)
        case _ => t.buckets == db.buckets)
    && forall a :: a in t.dns <==> if c == DoAddDN(a) then true else a in db.dns && c != DoRemoveDN(a)
  }

  ghost predicate Effect(sha: string -> string, db: Db, c: Call, now: Instant, t: Db) {
    ObjectsAfter(sha, db, c, now, t) && UploadsAfter(db, c, now, t) && RestAfter(db, c, now, t)
  }

  // ---- replay of one entry ----

  /** The entry can be applied. */
  ghost predicate Replayable(db: Db, e: Entry) {
    match e
    case DeleteObject(bucket, key) => bucket + "/" + key in db.objects
    case CreateBucket(meta) => meta.name != ""
    case DeleteBucket(name) => name in db.buckets && forall k <- db.objects :: !(name + "/" <= k)
    case CreateUpload(up) => up.bucket != "" && up.key != "" && up.uploadID != ""
    case PutPart(bucket, key, uploadID, _) => bucket + "/" + key + "/" + uploadID in db.uploads
    case AddDN(addr) => addr != ""
    case RemoveDN(addr) => addr != ""
    case _ => true
  }

  /** What it does to the objects. */
  ghost predicate ObjectsReplayed(db: Db, e: Entry, now: Instant, t: Db) {
    match e
    case PutObject(obj) =>
      var k := obj.bucket + "/" + obj.key;
      && k in t.objects && SameBut(db.objects, t.objects, k)
      && var o := t.objects[k];
         && o.(version := obj.version, createdAt := obj.createdAt) == obj
         && Numbered(db.objects, k, obj.version, o.version) && Dated(obj.createdAt, now, o.createdAt)
    case DeleteObject(bucket, key) =>
      bucket + "/" + key !in t.objects && SameBut(db.objects, t.objects, bucket + "/" + key)
    case CompleteUpload(_, _, _, obj) =>
      var k := obj.bucket + "/" + obj.key;
      k in t.objects && t.objects[k] == obj && SameBut(db.objects, t.objects, k)
    case _ => t.objects == db.objects
  }

  /** What it does to the pending uploads. */
  ghost predicate UploadsReplayed(db: Db, e: Entry, now: Instant, t: Db) {
    match e
    case CreateUpload(up) =>
      var u := up.bucket + "/" + up.key + "/" + up.uploadID;
      && u in t.uploads && SameBut(db.uploads, t.uploads, u)
      && t.uploads[u].(createdAt := up.createdAt) == up && Dated(up.createdAt, now, t.uploads[u].createdAt)
    case PutPart(bucket, key, uploadID, part) =>
      var u := bucket + "/" + key + "/" + uploadID;
      && u in db.uploads && u in t.uploads && SameBut(db.uploads, t.uploads, u)
      && t.uploads[u].(parts := db.uploads[u].parts) == db.uploads[u]
      && t.uploads[u].parts == db.uploads[u].parts[part.number := part]
    case CompleteUpload(bucket, key, uploadID, _) => UploadGone(db, t, bucket + "/" + key + "/" + uploadID)
    case AbortUpload(bucket, key, uploadID) => UploadGone(db, t, bucket + "/" + key + "/" + uploadID)
    case _ => t.uploads == db.uploads
  }

  /** What it does to the buckets and the nodes. */
  ghost predicate RestReplayed(db: Db, e: Entry, now: Instant, t: Db) {
    && (match e
        case CreateBucket(meta) =>
          && meta.name in t.buckets && SameBut(db.buckets, t.buckets, meta.name)
          && t.buckets[meta.name].name == meta.name
          && Dated(meta.createdAt, now, t.buckets[meta.name].createdAt)
        case DeleteBucket(name) => name !in t.buckets && SameBut(db.buckets, t.buckets, name)
        case _ => t.buckets == db.buckets)
    && forall a :: a in t.dns <==> if e == AddDN(a) then true else a in db.dns && e != RemoveDN(a)
  }

  // ---- where a part of an upload came from ----

  predicate PutsPart(c: Call, u: string, n: int) {
    c.DoPutPart? && UploadKey(c.bucket, c.key, c.uploadID) == u && c.part.number == n
  }

  predicate EndsUpload(c: Call, u: string) {
    || ((c.DoComplete? || c.DoAbort?) && UploadKey(c.bucket, c.key, c.uploadID) == u)
    || (c.DoCreateUpload? && UploadKey(c.bucket, c.key, c.uploadID) == u)
  }

  /** p is the part that call m put under its number, and no later call put it again or ended the upload. */
  ghost predicate LastPut(calls: seq<Call>, u: string, p: Part, m: nat) {
    && m < |calls| && PutsPart(calls[m], u, p.number) && p.(createdAt := calls[m].part.createdAt) == calls[m].part
    && forall j :: m < j < |calls| ==> !PutsPart(calls[j], u, p.number) && !EndsUpload(calls[j], u)
  }

  ghost predicate WasPut(calls: seq<Call>, u: string, p: Part) { exists m :: LastPut(calls, u, p, m) }
}

module Calls {
  import opened Nodes
  import opened Metadata
  import opened StoreSpec
  import opened CallSpec

  // ---- sums and lists, one element more ----

  lemma {:induction false} SumAppend(xs: seq<int>, x: int)
    ensures Sum(xs + [x]) == Sum(xs) + x
  {
    if xs != [] {
      assert (xs + [x])[1..] == xs[1..] + [x];
      SumAppend(xs[1..], x);
    }
  }

  lemma {:induction false} FlatAppend<T>(xs: seq<seq<T>>, x: seq<T>)
    ensures Flat(xs + [x]) == Flat(xs) + x
  {
    if xs == [] {
      assert [x][1..] == [];
    } else {
      assert (xs + [x])[1..] == xs[1..] + [x];
      FlatAppend(xs[1..], x);
    }
  }

  lemma ListedAppend(ps: seq<Part>, p: Part)
    ensures Sum(Sizes(ps + [p])) == Sum(Sizes(ps)) + p.size
    ensures Flat(Etags(ps + [p])) == Flat(Etags(ps)) + p.etag
    ensures Flat(Chunks(ps + [p])) == Flat(Chunks(ps)) + p.chunks
  {
    assert Sizes(ps + [p]) == Sizes(ps) + [p.size];
    assert Etags(ps + [p]) == Etags(ps) + [p.etag];
    assert Chunks(ps + [p]) == Chunks(ps) + [p.chunks];
    SumAppend(Sizes(ps), p.size);
    FlatAppend(Etags(ps), p.etag);
    FlatAppend(Chunks(ps), p.chunks);
  }

  /** Numerals denote their number, without leading zeros. */
  lemma {:induction false} DecimalIsNumeral(n: nat)
    ensures IsNumeral(Decimal(n), n) && (n > 0 ==> Decimal(n)[0] != '0')
  {
    if n >= 10 {
      DecimalIsNumeral(n / 10);
      var s, t := Decimal(n / 10), Decimal(n);
      assert t[..|t| - 1] == s;
    } else {
      assert Decimal(n)[..0] == "";
    }
  }

  // ---- completion ----

  lemma {:induction false} AssembleFits(up: Upload, parts: seq<CompletePart>, n: nat)
    requires n <= |parts|
    ensures Assemble(up, parts, n).Ok? <==> PartsFit(up, parts[..n])
  {
    if n > 0 {
      AssembleFits(up, parts, n - 1);
      assert parts[..n] == parts[..n - 1] + [parts[n - 1]];
      FitsNext(up, parts[..n - 1], parts[n - 1]);
    }
  }

  /** The loop over the requested parts succeeds exactly on parts that fit, and adds them up in order. */
  lemma {:induction false} AssembledExactly(up: Upload, parts: seq<CompletePart>, n: nat)
    requires n <= |parts|
    ensures Assemble(up, parts, n).Ok? <==> PartsFit(up, parts[..n])
    ensures Assemble(up, parts, n).Ok? ==> AddsUp(Assemble(up, parts, n).value, Listed(up, parts[..n]))
  {
    AssembleFits(up, parts, n);
    if n > 0 && Assemble(up, parts, n).Ok? {
      AssembledExactly(up, parts, n - 1);
      assert parts[..n] == parts[..n - 1] + [parts[n - 1]];
      AddsUpNext(up, parts[..n - 1], parts[n - 1], Assemble(up, parts, n - 1).value);
    }
  }

  lemma AddsUpNext(up: Upload, parts: seq<CompletePart>, want: CompletePart, a: Assembly)
    requires PartsFit(up, parts) && PartsFit(up, parts + [want]) && AddsUp(a, Listed(up, parts))
    requires want.number in up.parts
    ensures var p := up.parts[want.number];
      AddsUp(Assembly(a.chunks + p.chunks, a.size + p.size, a.etags + p.etag), Listed(up, parts + [want]))
  {
    var p := up.parts[want.number];
    assert Listed(up, parts + [want]) == Listed(up, parts) + [p];
    ListedAppend(Listed(up, parts), p);
  }

  lemma FitsNext(up: Upload, parts: seq<CompletePart>, want: CompletePart)
    ensures PartsFit(up, parts + [want]) <==>
      PartsFit(up, parts) && CheckPart(up, want, if parts == [] then 0 else parts[|parts| - 1].number).Ok?
  {
    var all := parts + [want];
    if PartsFit(up, all) {
      assert forall i :: 0 <= i < |parts| ==> parts[i] == all[i];
      assert all[|parts|] == want;
    }
  }

  lemma CompletionIs(sha: string -> string, db: Db, bucket: string, key: string, uploadID: string,
                     parts: seq<CompletePart>, now: Instant)
    requires var u := UploadKey(bucket, key, uploadID); u in db.uploads && Assemble(db.uploads[u], parts, |parts|).Ok?
    ensures var up := db.uploads[UploadKey(bucket, key, uploadID)];
      && PartsFit(up, parts)
      && var o := Completed(sha, bucket, key, up, Assemble(up, parts, |parts|).value, |parts|, now);
         IsCompletion(sha, bucket, key, up, Listed(up, parts), now, o)
  {
    var up := db.uploads[UploadKey(bucket, key, uploadID)];
    assert parts[..|parts|] == parts;
    AssembledExactly(up, parts, |parts|);
    DecimalIsNumeral(|parts|);
  }

  // ---- every call ----

  lemma VersionIs(db: Db, obj: ObjectMeta)
    ensures Numbered(db.objects, KeyOf(obj), obj.version, NextVersion(db, obj))
  {
  }

  lemma UploadKeyIs(bucket: string, key: string, uploadID: string)
    ensures UploadKey(bucket, key, uploadID) == bucket + "/" + key + "/" + uploadID
    ensures ObjKey(bucket, key) == bucket + "/" + key
  {
  }

  lemma ObjectsEffect(sha: string -> string, db: Db, c: Call, now: Instant)
    requires Commit(sha, db, c, now).Ok?
    ensures ObjectsAfter(sha, db, c, now, Commit(sha, db, c, now).value.db)
  {
    match c
    case DoPutObject(obj) => VersionIs(db, obj);
    case DoComplete(bucket, key, uploadID, parts) =>
      CompletionIs(sha, db, bucket, key, uploadID, parts, now);
      var up := db.uploads[UploadKey(bucket, key, uploadID)];
      VersionIs(db, Completed(sha, bucket, key, up, Assemble(up, parts, |parts|).value, |parts|, now));
    case _ =>
  }

  lemma UploadsEffect(sha: string -> string, db: Db, c: Call, now: Instant)
    requires Commit(sha, db, c, now).Ok?
    ensures UploadsAfter(db, c, now, Commit(sha, db, c, now).value.db)
  {
  }

  lemma RestEffect(sha: string -> string, db: Db, c: Call, now: Instant)
    requires Commit(sha, db, c, now).Ok?
    ensures RestAfter(db, c, now, Commit(sha, db, c, now).value.db)
  {
  }

  /** Every call: it is accepted exactly under its conditions, and then leaves in the tables what its
      arguments say and nothing else. */
  lemma CallEffect(sha: string -> string, db: Db, c: Call, now: Instant)
    ensures Commit(sha, db, c, now).Ok? <==> Accepts(db, c)
    ensures Commit(sha, db, c, now).Ok? ==> Effect(sha, db, c, now, Commit(sha, db, c, now).value.db)
  {
    if c.DoComplete? && UploadKey(c.bucket, c.key, c.uploadID) in db.uploads {
      assert c.parts[..|c.parts|] == c.parts;
      AssembledExactly(db.uploads[UploadKey(c.bucket, c.key, c.uploadID)], c.parts, |c.parts|);
    }
    if Commit(sha, db, c, now).Ok? {
      ObjectsEffect(sha, db, c, now);
      UploadsEffect(sha, db, c, now);
      RestEffect(sha, db, c, now);
    }
  }

  /** Every entry, on any tables: it is applied exactly when it can be, and then leaves in them what it says
      and nothing else. */
  lemma EntryEffect(db: Db, e: Entry, now: Instant)
    ensures Apply(db, e, now).Ok? <==> Replayable(db, e)
    ensures Apply(db, e, now).Ok? ==> ObjectsReplayed(db, e, now, Apply(db, e, now).value)
    ensures Apply(db, e, now).Ok? ==> UploadsReplayed(db, e, now, Apply(db, e, now).value)
    ensures Apply(db, e, now).Ok? ==> RestReplayed(db, e, now, Apply(db, e, now).value)
  {
    if e.PutObject? { VersionIs(db, e.obj); }
  }

  // ---- over runs ----

  /** The tables after the first n calls. */
  ghost predicate IsAt(sha: string -> string, db: Db, calls: seq<Call>, clock: nat -> Instant, n: nat, t: Db) {
    n <= |calls| && var r := Run(sha, db, calls[..n], clock); r.Ok? && r.value.db == t
  }

  /** Every call of a successful run has its effect. */
  lemma {:induction false} RunEffects(sha: string -> string, db: Db, calls: seq<Call>, clock: nat -> Instant, n: nat)
    returns (before: Db, after: Db)
    requires Run(sha, db, calls, clock).Ok? && n < |calls|
    ensures IsAt(sha, db, calls, clock, n, before) && IsAt(sha, db, calls, clock, n + 1, after)
    ensures Accepts(before, calls[n]) && Effect(sha, before, calls[n], clock(n), after)
    decreases |calls|
  {
    var m := |calls| - 1;
    if n == m {
      assert calls[..n + 1] == calls;
      before, after := Run(sha, db, calls[..n], clock).value.db, Run(sha, db, calls, clock).value.db;
      CallEffect(sha, before, calls[n], clock(n));
    } else {
      before, after := RunEffects(sha, db, calls[..m], clock, n);
      assert calls[..m][..n] == calls[..n] && calls[..m][..n + 1] == calls[..n + 1];
    }
  }

  /** One more call: the part was there and is not touched, or the call put it. */
  lemma PartStep(sha: string -> string, db: Db, c: Call, now: Instant, t: Db, u: string, n: int)
    requires Effect(sha, db, c, now, t) && u in t.uploads && n in t.uploads[u].parts
    ensures PutsPart(c, u, n) ==>
      var p := t.uploads[u].parts[n]; p.number == n && p.(createdAt := c.part.createdAt) == c.part
    ensures !PutsPart(c, u, n) ==> !EndsUpload(c, u) && u in db.uploads && n in db.uploads[u].parts
    ensures !PutsPart(c, u, n) ==> t.uploads[u].parts[n] == db.uploads[u].parts[n]
  {
    if c.DoCreateUpload? || c.DoPutPart? || c.DoComplete? || c.DoAbort? {
      UploadKeyIs(c.bucket, c.key, c.uploadID);
    }
  }

  lemma PutStays(calls: seq<Call>, u: string, p: Part, m: nat)
    requires calls != [] && LastPut(calls[..|calls| - 1], u, p, m)
    requires !PutsPart(calls[|calls| - 1], u, p.number) && !EndsUpload(calls[|calls| - 1], u)
    ensures LastPut(calls, u, p, m)
  {
    forall j | m < j < |calls| ensures !PutsPart(calls[j], u, p.number) && !EndsUpload(calls[j], u) {
      if j < |calls| - 1 { assert calls[..|calls| - 1][j] == calls[j]; }
    }
  }

  /** A pending upload has under each number the part that was put there last since it was created. */
  lemma {:induction false} PartsWerePut(sha: string -> string, db: Db, calls: seq<Call>, clock: nat -> Instant,
                                        u: string, n: int)
    returns (m: nat)
    requires Run(sha, db, calls, clock).Ok? && u !in db.uploads
    requires var t := Run(sha, db, calls, clock).value.db; u in t.uploads && n in t.uploads[u].parts
    ensures var p := Run(sha, db, calls, clock).value.db.uploads[u].parts[n];
      p.number == n && LastPut(calls, u, p, m)
    decreases |calls|
  {
    var k := |calls| - 1;
    var before, after := RunEffects(sha, db, calls, clock, k);
    assert calls[..k + 1] == calls;
    PartStep(sha, before, calls[k], clock(k), after, u, n);
    if PutsPart(calls[k], u, n) {
      m := k;
    } else {
      m := PartsWerePut(sha, db, calls[..k], clock, u, n);
      PutStays(calls, u, after.uploads[u].parts[n], m);
    }
  }

  /** A whole multipart upload, whatever other calls come in between: the completed object has under its key
      exactly the parts listed, each as it was put last, with their sizes, chunks and etags in order, and
      the upload is gone. */
  lemma CompletedFromParts(sha: string -> string, db: Db, calls: seq<Call>, clock: nat -> Instant,
                           bucket: string, key: string, uploadID: string, parts: seq<CompletePart>)
    returns (up: Upload, ps: seq<Part>)
    requires Run(sha, db, calls, clock).Ok? && calls != []
    requires calls[|calls| - 1] == DoComplete(bucket, key, uploadID, parts)
    requires bucket + "/" + key + "/" + uploadID !in db.uploads
    ensures var t, k, u := Run(sha, db, calls, clock).value.db, bucket + "/" + key, bucket + "/" + key + "/" + uploadID;
      && k in t.objects && u !in t.uploads
      && IsCompletion(sha, bucket, key, up, ps, clock(|calls| - 1), t.objects[k])
      && |ps| == |parts| && forall i :: 0 <= i < |ps| ==>
           ps[i].number == parts[i].number && WasPut(calls[..|calls| - 1], u, ps[i])
  {
    var n, u := |calls| - 1, bucket + "/" + key + "/" + uploadID;
    var before, after := RunEffects(sha, db, calls, clock, n);
    assert calls[..n + 1] == calls;
    up := before.uploads[u];
    ps := Listed(up, parts);
    forall i | 0 <= i < |ps|
      ensures ps[i].number == parts[i].number && WasPut(calls[..n], u, ps[i])
    {
      var m := PartsWerePut(sha, db, calls[..n], clock, u, parts[i].number);
    }
  }

  // ---- buckets ----

  /** Buckets with valid names have different object keys, and only their own begin with the name and "/". */
  lemma KeysApart(a: string, x: string, b: string, y: string)
    requires ValidBucketName(a, false) && ValidBucketName(b, false)
    ensures ObjKey(a, x) == ObjKey(b, y) ==> a == b && x == y
    ensures a + "/" <= ObjKey(b, y) <==> a == b
  {
    var k := ObjKey(b, y);
    assert k[..|b|] == b && k[|b|] == '/' && k[|b| + 1..] == y;
    assert a == b ==> k[..|a| + 1] == a + "/";
    if a + "/" <= k {
      assert k[|a|] == (a + "/")[|a|] == '/';
      assert k[..|a|] == (a + "/")[..|a|] == a;
    }
    assert ObjKey(a, x)[|a| + 1..] == x && a + "/" <= ObjKey(a, x);
  }

  /** Every record is stored under its own key, in a bucket with a valid name. */
  ghost predicate KeysRight(db: Db) {
    forall k <- db.objects :: k == KeyOf(db.objects[k]) && ValidBucketName(db.objects[k].bucket, false)
  }

  /** A bucket is deleted exactly when no object is in it. */
  lemma DeleteBucketExactly(sha: string -> string, db: Db, name: string, now: Instant)
    requires KeysRight(db) && ValidBucketName(name, false) && name in db.buckets
    ensures Commit(sha, db, DoDeleteBucket(name), now).Ok? <==> forall k <- db.objects :: db.objects[k].bucket != name
  {
    forall k | k in db.objects ensures name + "/" <= k <==> db.objects[k].bucket == name {
      KeysApart(name, "", db.objects[k].bucket, db.objects[k].key);
    }
    CallEffect(sha, db, DoDeleteBucket(name), now);
  }
}
