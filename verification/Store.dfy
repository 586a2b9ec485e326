/** The metadata store of internal/store/store.go and the replay of its log by ApplyEntry in
    internal/store/wal.go. Every transaction is one function on the tables; a logged call and the
    replay of its entry both go through it. */
module StoreSpec {
  import opened Nodes
  import opened Metadata

  /** time.Now: never the zero time. */
  type Instant = n: nat | n > 0 witness 1

  datatype Bucket = Bucket(name: string, createdAt: nat)

  datatype Part = Part(number: int, etag: string, size: int, chunks: seq<ChunkRef>, createdAt: nat)

  datatype Upload = Upload(bucket: string, key: string, uploadID: string, contentType: string,
                           createdAt: nat, parts: map<int, Part>)

  datatype CompletePart = CompletePart(number: int, etag: string)

  datatype Db = Db(objects: map<string, ObjectMeta>, buckets: map<string, Bucket>,
                   uploads: map<string, Upload>, dns: set<Addr>)

  datatype Entry =
    | PutObject(obj: ObjectMeta)
    | DeleteObject(bucket: string, key: string)
    | CreateBucket(meta: Bucket)
    | DeleteBucket(name: string)
    | CreateUpload(up: Upload)
    | PutPart(bucket: string, key: string, uploadID: string, part: Part)
    | CompleteUpload(bucket: string, key: string, uploadID: string, obj: ObjectMeta)
    | AbortUpload(bucket: string, key: string, uploadID: string)
    | AddDN(addr: Addr)
    | RemoveDN(addr: Addr)

  datatype Error =
    | NotFound | AlreadyExists | BucketNotEmpty | InvalidPart | InvalidPartOrder | InvalidArgument
    | TxFailed | LogFailed

  datatype Result<T> = Ok(value: T) | Err(error: Error)

  function ObjKey(bucket: string, key: string): (k: string) { bucket + "/" + key }

  function KeyOf(o: ObjectMeta): (k: string) { ObjKey(o.bucket, o.key) }

  function UploadKey(bucket: string, key: string, uploadID: string): (k: string) {
    bucket + "/" + key + "/" + uploadID
  }

  /** v + 1 in an int64. */
  function Bump(v: Version): (r: Version) { if v == 0x7fff_ffff_ffff_ffff then -0x8000_0000_0000_0000 else v + 1 }

  /** The version after v: 0 is skipped. */
  function Next(v: Version): (r: Version) { if Bump(v) == 0 then 1 else Bump(v) }

  /** The version a record gets when it is stored: its predecessor's next one, and never 0. */
  function NextVersion(db: Db, obj: ObjectMeta): (v: Version) {
    if KeyOf(obj) in db.objects then Next(db.objects[KeyOf(obj)].version)
    else if obj.version == 0 then 1
    else obj.version
  }

  function Stamped(createdAt: nat, now: Instant): (t: nat) { if createdAt == 0 then now else createdAt }

  /** The record that is stored for obj. */
  function Stored(db: Db, obj: ObjectMeta, now: Instant): (o: ObjectMeta) {
    obj.(version := NextVersion(db, obj), createdAt := Stamped(obj.createdAt, now))
  }

  // ---- the transactions ----

  function WithObject(db: Db, obj: ObjectMeta): (d: Db) { db.(objects := db.objects[KeyOf(obj) := obj]) }

  function RemoveObject(db: Db, k: string): (r: Result<Db>) {
    if k !in db.objects then Err(NotFound) else Ok(db.(objects := db.objects - {k}))
  }

  function WithBucket(db: Db, meta: Bucket): (d: Db) { db.(buckets := db.buckets[meta.name := meta]) }

  predicate HasObjects(db: Db, bucket: string) { exists k <- db.objects.Keys :: bucket + "/" <= k }

  function RemoveBucket(db: Db, name: string): (r: Result<Db>) {
    if name !in db.buckets then Err(NotFound)
    else if HasObjects(db, name) then Err(BucketNotEmpty)
    else Ok(db.(buckets := db.buckets - {name}))
  }

  function KeyOfUpload(up: Upload): (k: string) { UploadKey(up.bucket, up.key, up.uploadID) }

  function WithUpload(db: Db, up: Upload): (d: Db) { db.(uploads := db.uploads[KeyOfUpload(up) := up]) }

  function SavePart(db: Db, k: string, p: Part): (r: Result<Db>) {
    if k !in db.uploads then Err(NotFound)
    else
      var up := db.uploads[k];
      Ok(db.(uploads := db.uploads[k := up.(parts := up.parts[p.number := p])]))
  }

  /** The object is stored and the upload removed in one transaction. */
  function FinishUpload(db: Db, k: string, obj: ObjectMeta): (d: Db) {
    WithObject(db, obj).(uploads := db.uploads - {k})
  }

  function RemoveUpload(db: Db, k: string): (r: Result<Db>) {
    if k !in db.uploads then Err(NotFound) else Ok(db.(uploads := db.uploads - {k}))
  }

  function AddNode(db: Db, addr: Addr): (r: Result<Db>) {
    if addr == "" then Err(InvalidArgument) else Ok(db.(dns := db.dns + {addr}))
  }

  function RemoveNode(db: Db, addr: Addr): (r: Result<Db>) {
    if addr == "" then Err(InvalidArgument) else Ok(db.(dns := db.dns - {addr}))
  }

  // ---- what calls are checked for ----

  /** ValidateBucketName; isIP is net.ParseIP's verdict. */
  predicate ValidBucketName(name: string, isIP: bool) {
    && 3 <= |name| <= 63 && !isIP
    && name[0] != '.' && name[0] != '-' && name[|name| - 1] != '.' && name[|name| - 1] != '-'
    && (forall i :: 0 <= i < |name| ==>
         'a' <= name[i] <= 'z' || '0' <= name[i] <= '9' || name[i] == '-' || name[i] == '.')
    && (forall i :: 0 < i < |name| && name[i] == '.' ==> name[i - 1] != '.')
  }

  predicate ValidPart(n: int) { 1 <= n <= 10000 }

  function Decimal(n: nat): (s: string) {
    if n < 10 then [('0' as int + n) as char] else Decimal(n / 10) + [('0' as int + n % 10) as char]
  }

  /** What the requested parts add up to. */
  datatype Assembly = Assembly(chunks: seq<ChunkRef>, size: int, etags: string)

  /** The check of one requested part against the pending upload. */
  function CheckPart(up: Upload, want: CompletePart, prev: int): (r: Result<Part>)
    ensures r.Err? ==> r.error.InvalidPart? || r.error.InvalidPartOrder?
  {
    if !ValidPart(want.number) then Err(InvalidPart)
    else if want.number <= prev then Err(InvalidPartOrder)
    else if want.number !in up.parts then Err(InvalidPart)
    else if want.etag != "" && want.etag != up.parts[want.number].etag then Err(InvalidPart)
    else Ok(up.parts[want.number])
  }

  /** The first n requested parts: strictly ascending numbers, all uploaded. */
  function Assemble(up: Upload, parts: seq<CompletePart>, n: nat): (r: Result<Assembly>)
    requires n <= |parts|
    ensures r.Err? ==> r.error.InvalidPart? || r.error.InvalidPartOrder?
  {
    if n == 0 then Ok(Assembly([], 0, ""))
    else
      var before := Assemble(up, parts, n - 1);
      if before.Err? then before
      else
        var p := CheckPart(up, parts[n - 1], if n == 1 then 0 else parts[n - 2].number);
        if p.Err? then Err(p.error)
        else Ok(Assembly(before.value.chunks + p.value.chunks, before.value.size + p.value.size,
                         before.value.etags + p.value.etag))
  }

  /** The object a completed upload becomes, before it gets its version. */
  function Completed(sha: string -> string, bucket: string, key: string, up: Upload, a: Assembly, n: nat,
                     now: Instant): (o: ObjectMeta)
  {
    ObjectMeta(bucket, key, a.size, up.contentType, "\"" + sha(a.etags) + "-" + Decimal(n) + "\"",
               a.chunks, NoEC, [], 0, now, "")
  }

  // ---- the logged mutations ----

  datatype Call =
    | DoPutObject(obj: ObjectMeta)
    | DoDeleteObject(bucket: string, key: string)
    | DoCreateBucket(name: string, isIP: bool)
    | DoDeleteBucket(name: string)
    | DoCreateUpload(bucket: string, key: string, contentType: string, uploadID: string)
    | DoPutPart(bucket: string, key: string, uploadID: string, part: Part)
    | DoComplete(bucket: string, key: string, uploadID: string, parts: seq<CompletePart>)
    | DoAbort(bucket: string, key: string, uploadID: string)
    | DoAddDN(addr: Addr)
    | DoRemoveDN(addr: Addr)

  /** A fresh upload id is a hex string that is not in use. */
  predicate Drawn(db: Db, c: Call) {
    c.DoCreateUpload? ==> c.uploadID != "" && UploadKey(c.bucket, c.key, c.uploadID) !in db.uploads
  }

  datatype Committed = Committed(db: Db, entry: Entry)

  function Logged(r: Result<Db>, e: Entry): (c: Result<Committed>) {
    if r.Err? then Err(r.error) else Ok(Committed(r.value, e))
  }

  /** A call's transaction and the entry that is logged for it. */
  function Commit(sha: string -> string, db: Db, c: Call, now: Instant): (r: Result<Committed>) {
    match c
    case DoPutObject(obj) =>
      var o := Stored(db, obj, now);
      Logged(Ok(WithObject(db, o)), PutObject(o))
    case DoDeleteObject(bucket, key) => Logged(RemoveObject(db, ObjKey(bucket, key)), DeleteObject(bucket, key))
    case DoCreateBucket(name, isIP) =>
      if !ValidBucketName(name, isIP) then Err(InvalidArgument)
      else if name in db.buckets then Err(AlreadyExists)
      else Logged(Ok(WithBucket(db, Bucket(name, now))), CreateBucket(Bucket(name, now)))
    case DoDeleteBucket(name) => Logged(RemoveBucket(db, name), DeleteBucket(name))
    case DoCreateUpload(bucket, key, contentType, uploadID) =>
      if bucket == "" || key == "" then Err(InvalidArgument)
      else if bucket !in db.buckets then Err(NotFound)
      else
        var up := Upload(bucket, key, uploadID, contentType, now, map[]);
        Logged(Ok(WithUpload(db, up)), CreateUpload(up))
    case DoPutPart(bucket, key, uploadID, part) =>
      if !ValidPart(part.number) || part.etag == "" || |part.chunks| == 0 then Err(InvalidPart)
      else
        var p := part.(createdAt := Stamped(part.createdAt, now));
        Logged(SavePart(db, UploadKey(bucket, key, uploadID), p), PutPart(bucket, key, uploadID, p))
    case DoComplete(bucket, key, uploadID, parts) =>
      var k := UploadKey(bucket, key, uploadID);
      if |parts| == 0 then Err(InvalidPart)
      else if k !in db.uploads then Err(NotFound)
      else
        var a := Assemble(db.uploads[k], parts, |parts|);
        if a.Err? then Err(a.error)
        else
          var o := Stored(db, Completed(sha, bucket, key, db.uploads[k], a.value, |parts|, now), now);
          Logged(Ok(FinishUpload(db, k, o)), CompleteUpload(bucket, key, uploadID, o))
    case DoAbort(bucket, key, uploadID) =>
      Logged(RemoveUpload(db, UploadKey(bucket, key, uploadID)), AbortUpload(bucket, key, uploadID))
    case DoAddDN(addr) => Logged(AddNode(db, addr), AddDN(addr))
    case DoRemoveDN(addr) => Logged(RemoveNode(db, addr), RemoveDN(addr))
  }

  /** ApplyEntry: the replay form of each mutation. */
  function Apply(db: Db, e: Entry, now: Instant): (r: Result<Db>) {
    match e
    case PutObject(obj) => Ok(WithObject(db, Stored(db, obj, now)))
    case DeleteObject(bucket, key) => RemoveObject(db, ObjKey(bucket, key))
    case CreateBucket(meta) =>
      if meta.name == "" then Err(InvalidArgument)
      else Ok(WithBucket(db, meta.(createdAt := Stamped(meta.createdAt, now))))
    case DeleteBucket(name) => RemoveBucket(db, name)
    case CreateUpload(up) =>
      if up.bucket == "" || up.key == "" || up.uploadID == "" then Err(InvalidArgument)
      else Ok(WithUpload(db, up.(createdAt := Stamped(up.createdAt, now))))
    case PutPart(bucket, key, uploadID, part) => SavePart(db, UploadKey(bucket, key, uploadID), part)
    case CompleteUpload(bucket, key, uploadID, obj) => Ok(FinishUpload(db, UploadKey(bucket, key, uploadID), obj))
    case AbortUpload(bucket, key, uploadID) =>
      var r := RemoveUpload(db, UploadKey(bucket, key, uploadID));
      if r == Err(NotFound) then Ok(db) else r
    case AddDN(addr) => AddNode(db, addr)
    case RemoveDN(addr) => RemoveNode(db, addr)
  }

  /** ApplyAll: in order, stopping at the first error; times(i) is the clock at entry i. */
  function ApplyAll(db: Db, es: seq<Entry>, times: nat -> Instant): (r: Result<Db>) {
    if es == [] then Ok(db)
    else
      var before := ApplyAll(db, es[..|es| - 1], times);
      if before.Err? then before else Apply(before.value, es[|es| - 1], times(|es| - 1))
  }

  datatype History = History(db: Db, log: seq<Entry>)

  /** The calls one after another, the i-th at time clock(i), until one is refused. An upload id in
      use is never passed on: another one is drawn. */
  function Run(sha: string -> string, db: Db, calls: seq<Call>, clock: nat -> Instant): (r: Result<History>) {
    if calls == [] then Ok(History(db, []))
    else
      var n := |calls| - 1;
      var before := Run(sha, db, calls[..n], clock);
      if before.Err? then before
      else if !Drawn(before.value.db, calls[n]) then Err(AlreadyExists)
      else
        var c := Commit(sha, before.value.db, calls[n], clock(n));
        if c.Err? then Err(c.error) else Ok(History(c.value.db, before.value.log + [c.value.entry]))
  }
}

/** What a log does to tables it did not start from. */
module ReplaySpec {
  import opened Nodes
  import opened Metadata
  import opened StoreSpec

  predicate PutsObject(e: Entry, k: string) { e.PutObject? && KeyOf(e.obj) == k }

  /** After the entry the object is what the entry says, or gone, whatever it was before. */
  predicate ResetsObject(e: Entry, k: string) {
    (e.CompleteUpload? && KeyOf(e.obj) == k) || (e.DeleteObject? && ObjKey(e.bucket, e.key) == k)
  }

  predicate TouchesBucket(e: Entry, b: string) {
    (e.CreateBucket? && e.meta.name == b) || (e.DeleteBucket? && e.name == b)
  }

  predicate ResetsUpload(e: Entry, u: string) {
    || (e.CreateUpload? && KeyOfUpload(e.up) == u)
    || ((e.CompleteUpload? || e.AbortUpload?) && UploadKey(e.bucket, e.key, e.uploadID) == u)
  }

  predicate AddsPart(e: Entry, u: string) { e.PutPart? && UploadKey(e.bucket, e.key, e.uploadID) == u }

  predicate TouchesNode(e: Entry, a: Addr) { (e.AddDN? || e.RemoveDN?) && e.addr == a }

  predicate ObjectReset(es: seq<Entry>, k: string) { exists e <- es :: ResetsObject(e, k) }

  predicate ObjectTouched(es: seq<Entry>, k: string) { ObjectReset(es, k) || Puts(es, k) > 0 }

  predicate BucketTouched(es: seq<Entry>, b: string) { exists e <- es :: TouchesBucket(e, b) }

  predicate UploadReset(es: seq<Entry>, u: string) { exists e <- es :: ResetsUpload(e, u) }

  predicate NodeTouched(es: seq<Entry>, a: Addr) { exists e <- es :: TouchesNode(e, a) }

  /** How many put_object entries the key has. */
  function Puts(es: seq<Entry>, k: string): (n: nat) {
    if es == [] then 0
    else Puts(es[..|es| - 1], k) + if PutsObject(es[|es| - 1], k) then 1 else 0
  }

  /** The parts the entries add to an upload, the last one of each number. */
  function Parts(es: seq<Entry>, u: string): (m: map<int, Part>) {
    if es == [] then map[]
    else
      var e, before := es[|es| - 1], Parts(es[..|es| - 1], u);
      if AddsPart(e, u) then before[e.part.number := e.part] else before
  }

  /** The n-th version after v. */
  function Later(v: Version, n: nat): (r: Version) { if n == 0 then v else Next(Later(v, n - 1)) }

  /** The number of versions: every int64 but 0. */
  const VERSIONS: nat := 0xffff_ffff_ffff_ffff

  /** Entry e, after the entries es, can be replayed on tables that were d before es. */
  ghost predicate Applicable(es: seq<Entry>, e: Entry, d: Db) {
    match e
    case DeleteObject(bucket, key) => ObjectTouched(es, ObjKey(bucket, key)) || ObjKey(bucket, key) in d.objects
    case DeleteBucket(name) =>
      && (BucketTouched(es, name) || name in d.buckets)
      && (forall k <- d.objects :: name + "/" <= k ==> ObjectTouched(es, k))
    case PutPart(bucket, key, uploadID, _) =>
      UploadReset(es, UploadKey(bucket, key, uploadID)) || UploadKey(bucket, key, uploadID) in d.uploads
    case _ => true
  }

  ghost predicate AllApplicable(es: seq<Entry>, d: Db) {
    forall n :: 0 <= n < |es| ==> Applicable(es[..n], es[n], d)
  }

  // ---- the tables after replay, key by key: s ran from its own start, r from d ----

  ghost predicate SameAt<T(!new)>(a: map<string, T>, b: map<string, T>, k: string) {
    (k in a <==> k in b) && (k in a ==> a[k] == b[k])
  }

  ghost predicate ObjectRel(s: Db, r: Db, d: Db, es: seq<Entry>, k: string) {
    if !ObjectTouched(es, k) then SameAt(r.objects, d.objects, k)
    else if k in d.objects && !ObjectReset(es, k) then
      && k in s.objects && k in r.objects && s.objects[k].version != 0
      && r.objects[k] == s.objects[k].(version := Later(d.objects[k].version, Puts(es, k)))
    else SameAt(r.objects, s.objects, k)
  }

  ghost predicate BucketRel(s: Db, r: Db, d: Db, es: seq<Entry>, b: string) {
    if BucketTouched(es, b) then SameAt(r.buckets, s.buckets, b) else SameAt(r.buckets, d.buckets, b)
  }

  function Overlay(up: Upload, parts: map<int, Part>): (r: Upload) { up.(parts := up.parts + parts) }

  ghost predicate UploadRel(s: Db, r: Db, d: Db, es: seq<Entry>, u: string) {
    if UploadReset(es, u) then SameAt(r.uploads, s.uploads, u)
    else
      && (u in r.uploads <==> u in d.uploads)
      && (u in r.uploads ==> r.uploads[u] == Overlay(d.uploads[u], Parts(es, u)))
  }

  ghost predicate NodeRel(s: Db, r: Db, d: Db, es: seq<Entry>, a: Addr) {
    a in r.dns <==> if NodeTouched(es, a) then a in s.dns else a in d.dns
  }

  ghost predicate Rel(s: Db, r: Db, d: Db, es: seq<Entry>) {
    && (forall k :: ObjectRel(s, r, d, es, k)) && (forall b :: BucketRel(s, r, d, es, b))
    && (forall u :: UploadRel(s, r, d, es, u)) && (forall a :: NodeRel(s, r, d, es, a))
  }

  /** e is the entry of a successful call that took s to t. */
  ghost predicate IsCommit(s: Db, e: Entry, t: Db) {
    && (forall now: Instant :: Apply(s, e, now) == Ok(t))
    && (e.PutObject? ==> e.obj.createdAt != 0 && e.obj.version == NextVersion(s, e.obj) != 0)
  }
}

module Replay {
  import opened Nodes
  import opened Metadata
  import opened StoreSpec
  import opened ReplaySpec

  /** Replaying the entry of a successful call from the state the call saw gives the call's state. */
  lemma ReplayOne(sha: string -> string, db: Db, c: Call, now: Instant)
    requires Commit(sha, db, c, now).Ok? && Drawn(db, c)
    ensures IsCommit(db, Commit(sha, db, c, now).value.entry, Commit(sha, db, c, now).value.db)
  {
  }

  /** A run is its last call committed after the run of the calls before. */
  lemma LastCall(sha: string -> string, db: Db, calls: seq<Call>, clock: nat -> Instant)
    returns (mid: History, c: Committed)
    requires calls != [] && Run(sha, db, calls, clock).Ok?
    ensures var n := |calls| - 1;
      && Run(sha, db, calls[..n], clock) == Ok(mid)
      && Run(sha, db, calls, clock) == Ok(History(c.db, mid.log + [c.entry]))
    ensures IsCommit(mid.db, c.entry, c.db)
  {
    var n := |calls| - 1;
    mid := Run(sha, db, calls[..n], clock).value;
    c := Commit(sha, mid.db, calls[n], clock(n)).value;
    ReplayOne(sha, mid.db, calls[n], clock(n));
  }

  lemma ApplyOneMore(db: Db, es: seq<Entry>, e: Entry, times: nat -> Instant)
    ensures ApplyAll(db, es + [e], times) ==
      var before := ApplyAll(db, es, times); if before.Err? then before else Apply(before.value, e, times(|es|))
  {
    assert (es + [e])[..|es|] == es;
  }

  /** Replaying the log of a run from its starting state succeeds and reaches the run's final tables,
      whatever the clock says during replay. */
  lemma {:induction false} ReplayRun(sha: string -> string, db: Db, calls: seq<Call>, clock: nat -> Instant,
                                     times: nat -> Instant)
    requires Run(sha, db, calls, clock).Ok?
    ensures var h := Run(sha, db, calls, clock).value; |h.log| == |calls| && ApplyAll(db, h.log, times) == Ok(h.db)
    decreases |calls|
  {
    if calls != [] {
      ReplayRun(sha, db, calls[..|calls| - 1], clock, times);
      var mid, c := LastCall(sha, db, calls, clock);
      ApplyOneMore(db, mid.log, c.entry, times);
    }
  }

  // ---- replay on other tables ----

  lemma Extended(es: seq<Entry>, e: Entry)
    ensures forall k :: Puts(es + [e], k) == Puts(es, k) + if PutsObject(e, k) then 1 else 0
    ensures forall k :: ObjectReset(es + [e], k) <==> ObjectReset(es, k) || ResetsObject(e, k)
    ensures forall b :: BucketTouched(es + [e], b) <==> BucketTouched(es, b) || TouchesBucket(e, b)
    ensures forall u :: UploadReset(es + [e], u) <==> UploadReset(es, u) || ResetsUpload(e, u)
    ensures forall u :: Parts(es + [e], u) ==
                        if AddsPart(e, u) then Parts(es, u)[e.part.number := e.part] else Parts(es, u)
    ensures forall a :: NodeTouched(es + [e], a) <==> NodeTouched(es, a) || TouchesNode(e, a)
  {
    assert (es + [e])[..|es|] == es;
  }

  /** The entry can be replayed exactly when the tables d have what it needs and es did not provide. */
  lemma StepApplicable(s: Db, t: Db, r: Db, d: Db, es: seq<Entry>, e: Entry, now: Instant)
    requires Rel(s, r, d, es) && IsCommit(s, e, t)
    ensures Apply(r, e, now).Ok? <==> Applicable(es, e, d)
  {
    assert Apply(s, e, now) == Ok(t);
    if e.DeleteObject? {
      assert ObjectRel(s, r, d, es, ObjKey(e.bucket, e.key));
    } else if e.DeleteBucket? {
      assert BucketRel(s, r, d, es, e.name);
      BlockingObjects(s, r, d, es, e.name);
    } else if e.PutPart? {
      assert UploadRel(s, r, d, es, UploadKey(e.bucket, e.key, e.uploadID));
    }
  }

  /** A bucket that was empty in the run is empty in the replay unless d has an untouched object. */
  lemma BlockingObjects(s: Db, r: Db, d: Db, es: seq<Entry>, name: string)
    requires (forall k :: ObjectRel(s, r, d, es, k)) && !HasObjects(s, name)
    ensures HasObjects(r, name) <==> exists k <- d.objects :: name + "/" <= k && !ObjectTouched(es, k)
  {
    forall k | k in r.objects && name + "/" <= k ensures k in d.objects && !ObjectTouched(es, k) {
      assert ObjectRel(s, r, d, es, k);
    }
    forall k | k in d.objects && name + "/" <= k && !ObjectTouched(es, k) ensures k in r.objects {
      assert ObjectRel(s, r, d, es, k);
    }
  }

  lemma ObjectStep(s: Db, t: Db, r: Db, q: Db, d: Db, es: seq<Entry>, e: Entry, now: Instant, k: string)
    requires ObjectRel(s, r, d, es, k) && IsCommit(s, e, t) && Apply(r, e, now) == Ok(q)
    ensures ObjectRel(t, q, d, es + [e], k)
  {
    Extended(es, e);
    assert Apply(s, e, now) == Ok(t);
  }

  lemma BucketStep(s: Db, t: Db, r: Db, q: Db, d: Db, es: seq<Entry>, e: Entry, now: Instant, b: string)
    requires BucketRel(s, r, d, es, b) && IsCommit(s, e, t) && Apply(r, e, now) == Ok(q)
    ensures BucketRel(t, q, d, es + [e], b)
  {
    Extended(es, e);
    assert Apply(s, e, now) == Ok(t);
  }

  lemma UploadStep(s: Db, t: Db, r: Db, q: Db, d: Db, es: seq<Entry>, e: Entry, now: Instant, u: string)
    requires UploadRel(s, r, d, es, u) && IsCommit(s, e, t) && Apply(r, e, now) == Ok(q)
    ensures UploadRel(t, q, d, es + [e], u)
  {
    if e.PutPart? {
      PartStep(s, t, r, q, d, es, e, now, u);
    } else {
      Extended(es, e);
      assert Apply(s, e, now) == Ok(t);
    }
  }

  /** A part is saved in both, and lies over the upload that d had. */
  lemma PartStep(s: Db, t: Db, r: Db, q: Db, d: Db, es: seq<Entry>, e: Entry, now: Instant, u: string)
    requires UploadRel(s, r, d, es, u) && IsCommit(s, e, t) && Apply(r, e, now) == Ok(q) && e.PutPart?
    ensures UploadRel(t, q, d, es + [e], u)
  {
    Extended(es, e);
    assert Apply(s, e, now) == Ok(t);
    if AddsPart(e, u) && !UploadReset(es, u) {
      var p := d.uploads[u].parts;
      assert (p + Parts(es, u))[e.part.number := e.part] == p + Parts(es + [e], u);
    }
  }

  lemma NodeStep(s: Db, t: Db, r: Db, q: Db, d: Db, es: seq<Entry>, e: Entry, now: Instant, a: Addr)
    requires NodeRel(s, r, d, es, a) && IsCommit(s, e, t) && Apply(r, e, now) == Ok(q)
    ensures NodeRel(t, q, d, es + [e], a)
  {
    Extended(es, e);
    assert Apply(s, e, now) == Ok(t);
  }

  lemma StepRel(s: Db, t: Db, r: Db, q: Db, d: Db, es: seq<Entry>, e: Entry, now: Instant)
    requires Rel(s, r, d, es) && IsCommit(s, e, t) && Apply(r, e, now) == Ok(q)
    ensures Rel(t, q, d, es + [e])
  {
    forall k ensures ObjectRel(t, q, d, es + [e], k) { ObjectStep(s, t, r, q, d, es, e, now, k); }
    forall b ensures BucketRel(t, q, d, es + [e], b) { BucketStep(s, t, r, q, d, es, e, now, b); }
    forall u ensures UploadRel(t, q, d, es + [e], u) { UploadStep(s, t, r, q, d, es, e, now, u); }
    forall a ensures NodeRel(t, q, d, es + [e], a) { NodeStep(s, t, r, q, d, es, e, now, a); }
  }

  /** Replaying the log of a run on any tables d: it succeeds exactly when every entry is applicable,
      and then every key is what the run left, or what d had, or a later version of the run's record. */
  lemma {:induction false} ReplayOnto(sha: string -> string, db: Db, calls: seq<Call>, clock: nat -> Instant,
                                      d: Db, times: nat -> Instant)
    requires Run(sha, db, calls, clock).Ok?
    ensures var h := Run(sha, db, calls, clock).value; var r := ApplyAll(d, h.log, times);
      (r.Ok? <==> AllApplicable(h.log, d)) && (r.Ok? ==> Rel(h.db, r.value, d, h.log))
    decreases |calls|
  {
    if calls != [] {
      ReplayOnto(sha, db, calls[..|calls| - 1], clock, d, times);
      var mid, c := LastCall(sha, db, calls, clock);
      ApplyOneMore(d, mid.log, c.entry, times);
      AllButLast(mid.log, c.entry, d);
      var r := ApplyAll(d, mid.log, times);
      if r.Ok? {
        StepApplicable(mid.db, c.db, r.value, d, mid.log, c.entry, times(|mid.log|));
        var q := Apply(r.value, c.entry, times(|mid.log|));
        if q.Ok? { StepRel(mid.db, c.db, r.value, q.value, d, mid.log, c.entry, times(|mid.log|)); }
      }
    }
  }

  lemma AllButLast(es: seq<Entry>, e: Entry, d: Db)
    ensures AllApplicable(es + [e], d) <==> AllApplicable(es, d) && Applicable(es, e, d)
  {
    var all := es + [e];
    forall n | 0 <= n < |es| ensures all[..n] == es[..n] && all[n] == es[n] {}
    assert all[..|es|] == es && all[|es|] == e;
  }

  // ---- the versions ----

  /** The position of a version in the cycle 1, 2, ..., max, min, ..., -1. */
  function Position(v: Version): (p: nat)
    requires v != 0
    ensures p < VERSIONS
  {
    if v > 0 then v - 1 else v + VERSIONS
  }

  lemma NextPosition(v: Version)
    requires v != 0
    ensures Next(v) != 0 && Position(Next(v)) == (Position(v) + 1) % VERSIONS
  {
  }

  lemma {:induction false} LaterPosition(v: Version, n: nat)
    requires v != 0
    ensures Later(v, n) != 0 && Position(Later(v, n)) == (Position(v) + n) % VERSIONS
  {
    if n > 0 {
      LaterPosition(v, n - 1);
      NextPosition(Later(v, n - 1));
    }
  }

  /** Putting an object again and again comes back to its version only after all versions. */
  lemma VersionReturns(v: Version, n: nat)
    requires v != 0
    ensures Later(v, n) == v <==> n % VERSIONS == 0
  {
    LaterPosition(v, n);
  }

  // ---- replaying a log a second time ----

  /** An entry applied to tables that already reflect it changes nothing, except for put_object, which
      gives another version, and the two deletes, which no longer find what they delete. */
  lemma SecondReplayOfEntry(sha: string -> string, db: Db, c: Call, now: Instant, later: Instant)
    requires Commit(sha, db, c, now).Ok? && Drawn(db, c)
    ensures var k := Commit(sha, db, c, now).value;
      Apply(k.db, k.entry, later) == Ok(k.db) <==> !(c.DoPutObject? || c.DoDeleteObject? || c.DoDeleteBucket?)
  {
    var k := Commit(sha, db, c, now).value;
    match k.entry
    case PutObject(obj) =>
      assert Next(k.db.objects[KeyOf(obj)].version) != k.db.objects[KeyOf(obj)].version;
    case CreateBucket(meta) => Rewritten(k.db.buckets, meta.name);
    case CreateUpload(up) => Rewritten(k.db.uploads, KeyOfUpload(up));
    case PutPart(bucket, key, uploadID, part) =>
      var u := UploadKey(bucket, key, uploadID);
      Rewritten(k.db.uploads, u);
      assert k.db.uploads[u].parts[part.number := part] == k.db.uploads[u].parts;
    case CompleteUpload(bucket, key, uploadID, obj) =>
      Rewritten(k.db.objects, KeyOf(obj));
      assert k.db.uploads - {UploadKey(bucket, key, uploadID)} == k.db.uploads;
    case AddDN(addr) => assert k.db.dns + {addr} == k.db.dns;
    case RemoveDN(addr) => assert k.db.dns - {addr} == k.db.dns;
    case _ =>
  }

  lemma Rewritten<T>(m: map<string, T>, k: string)
    requires k in m
    ensures m[k := m[k]] == m
  {
  }

  /** Every put-only key has been put a multiple of all versions times. */
  ghost predicate PutsReturn(h: History) {
    forall k <- h.db.objects :: !ObjectReset(h.log, k) ==> Puts(h.log, k) % VERSIONS == 0
  }

  /** The recovery case, a snapshot that already contains the whole log: replay succeeds with the same
      tables exactly when every delete and part still finds its object, bucket or upload, and no key
      still there has only been put. */
  lemma SecondReplayOfLog(sha: string -> string, db: Db, calls: seq<Call>, clock: nat -> Instant,
                          times: nat -> Instant)
    requires Run(sha, db, calls, clock).Ok?
    ensures var h := Run(sha, db, calls, clock).value;
      ApplyAll(h.db, h.log, times) == Ok(h.db) <==> AllApplicable(h.log, h.db) && PutsReturn(h)
  {
    var h := Run(sha, db, calls, clock).value;
    ReplayRun(sha, db, calls, clock, times);
    ReplayOnto(sha, db, calls, clock, db, times);
    ReplayOnto(sha, db, calls, clock, h.db, times);
    if AllApplicable(h.log, h.db) {
      SameTables(db, h, ApplyAll(h.db, h.log, times).value);
    }
  }

  /** The replayed tables differ from the run's at most in the versions of put-only keys. */
  lemma SameTables(db: Db, h: History, r: Db)
    requires Rel(h.db, h.db, db, h.log) && Rel(h.db, r, h.db, h.log)
    ensures r == h.db <==> PutsReturn(h)
  {
    forall b ensures SameAt(r.buckets, h.db.buckets, b) { assert BucketRel(h.db, r, h.db, h.log, b); }
    forall u ensures SameAt(r.uploads, h.db.uploads, u) { SameUpload(db, h, r, u); }
    forall a ensures a in r.dns <==> a in h.db.dns { assert NodeRel(h.db, r, h.db, h.log, a); }
    SameMaps(r.buckets, h.db.buckets);
    SameMaps(r.uploads, h.db.uploads);
    forall k ensures SameAt(r.objects, h.db.objects, k) <==>
        (k in h.db.objects && !ObjectReset(h.log, k) ==> Puts(h.log, k) % VERSIONS == 0) {
      SameObjectAt(h, r, k);
    }
    if PutsReturn(h) { SameMaps(r.objects, h.db.objects); }
  }

  lemma SameMaps<T(!new)>(a: map<string, T>, b: map<string, T>)
    requires forall k :: SameAt(a, b, k)
    ensures a == b
  {
    forall k ensures k in a <==> k in b { assert SameAt(a, b, k); }
    forall k | k in a ensures a[k] == b[k] { assert SameAt(a, b, k); }
  }

  /** Parts that are there already are overwritten with themselves. */
  lemma SameUpload(db: Db, h: History, r: Db, u: string)
    requires UploadRel(h.db, h.db, db, h.log, u) && UploadRel(h.db, r, h.db, h.log, u)
    ensures SameAt(r.uploads, h.db.uploads, u)
  {
    if !UploadReset(h.log, u) && u in r.uploads {
      var p, q := db.uploads[u].parts, Parts(h.log, u);
      assert (p + q) + q == p + q;
    }
  }

  lemma SameObjectAt(h: History, r: Db, k: string)
    requires ObjectRel(h.db, r, h.db, h.log, k)
    ensures SameAt(r.objects, h.db.objects, k) <==>
      (k in h.db.objects && !ObjectReset(h.log, k) ==> Puts(h.log, k) % VERSIONS == 0)
  {
    if ObjectTouched(h.log, k) && k in h.db.objects && !ObjectReset(h.log, k) {
      VersionReturns(h.db.objects[k].version, Puts(h.log, k));
    }
  }

  // ---- one failing log of each kind ----

  lemma RunMore(sha: string -> string, db: Db, calls: seq<Call>, c: Call, clock: nat -> Instant) returns (h: History)
    requires Run(sha, db, calls, clock).Ok? && Drawn(Run(sha, db, calls, clock).value.db, c)
    requires Commit(sha, Run(sha, db, calls, clock).value.db, c, clock(|calls|)).Ok?
    ensures Run(sha, db, calls + [c], clock) == Ok(h)
    ensures var before := Run(sha, db, calls, clock).value; var k := Commit(sha, before.db, c, clock(|calls|)).value;
      h == History(k.db, before.log + [k.entry])
  {
    assert (calls + [c])[..|calls|] == calls;
    h := Run(sha, db, calls + [c], clock).value;
  }

  lemma RunFirst(sha: string -> string, db: Db, c: Call, clock: nat -> Instant) returns (h: History)
    requires Drawn(db, c) && Commit(sha, db, c, clock(0)).Ok?
    ensures Run(sha, db, [c], clock) == Ok(h)
    ensures var k := Commit(sha, db, c, clock(0)).value; h == History(k.db, [k.entry])
  {
    h := RunMore(sha, db, [], c, clock);
    assert [] + [c] == [c];
  }

  /** A log whose first entry cannot be replayed cannot be replayed. */
  lemma FirstFails(d: Db, es: seq<Entry>, times: nat -> Instant)
    requires es != [] && Apply(d, es[0], times(0)).Err?
    ensures ApplyAll(d, es, times) == Err(Apply(d, es[0], times(0)).error)
    decreases |es|
  {
    if |es| == 1 {
      assert es[..0] == [];
    } else {
      FirstFails(d, es[..|es| - 1], times);
    }
  }

  /** A put whose key is still there: replay succeeds, but the version changes. */
  lemma SecondPutChanges(sha: string -> string, db: Db, obj: ObjectMeta, clock: nat -> Instant, times: nat -> Instant)
    returns (h: History)
    ensures Run(sha, db, [DoPutObject(obj)], clock) == Ok(h)
    ensures ApplyAll(h.db, h.log, times).Ok? && ApplyAll(h.db, h.log, times) != Ok(h.db)
  {
    h := RunFirst(sha, db, DoPutObject(obj), clock);
    assert h.log[..0] == [];
    SecondReplayOfEntry(sha, db, DoPutObject(obj), clock(0), times(0));
  }

  /** A delete whose key is gone at the end: not found. */
  lemma SecondDeleteFails(sha: string -> string, db: Db, bucket: string, key: string, clock: nat -> Instant,
                          times: nat -> Instant) returns (h: History)
    requires ObjKey(bucket, key) in db.objects
    ensures Run(sha, db, [DoDeleteObject(bucket, key)], clock) == Ok(h) && ApplyAll(h.db, h.log, times) == Err(NotFound)
  {
    h := RunFirst(sha, db, DoDeleteObject(bucket, key), clock);
    FirstFails(h.db, h.log, times);
  }

  /** A bucket delete whose bucket is gone at the end: not found. */
  lemma SecondDeleteBucketFails(sha: string -> string, db: Db, name: string, clock: nat -> Instant,
                                times: nat -> Instant) returns (h: History)
    requires name in db.buckets && !HasObjects(db, name)
    ensures Run(sha, db, [DoDeleteBucket(name)], clock) == Ok(h) && ApplyAll(h.db, h.log, times) == Err(NotFound)
  {
    h := RunFirst(sha, db, DoDeleteBucket(name), clock);
    FirstFails(h.db, h.log, times);
  }

  /** A bucket deleted, created again and filled: the replayed delete finds the new object. */
  lemma SecondDeleteBucketBlocked(sha: string -> string, db: Db, name: string, obj: ObjectMeta, clock: nat -> Instant,
                                  times: nat -> Instant) returns (h: History)
    requires name in db.buckets && !HasObjects(db, name) && ValidBucketName(name, false) && obj.bucket == name
    ensures Run(sha, db, [DoDeleteBucket(name), DoCreateBucket(name, false), DoPutObject(obj)], clock) == Ok(h)
    ensures ApplyAll(h.db, h.log, times) == Err(BucketNotEmpty)
  {
    var h1 := RunFirst(sha, db, DoDeleteBucket(name), clock);
    var h2 := RunMore(sha, db, [DoDeleteBucket(name)], DoCreateBucket(name, false), clock);
    var calls := [DoDeleteBucket(name), DoCreateBucket(name, false)];
    h := RunMore(sha, db, calls, DoPutObject(obj), clock);
    assert calls + [DoPutObject(obj)] == [DoDeleteBucket(name), DoCreateBucket(name, false), DoPutObject(obj)];
    assert h.log[0] == DeleteBucket(name);
    assert KeyOf(obj) in h.db.objects && name + "/" <= KeyOf(obj);
    assert HasObjects(h.db, name);
    FirstFails(h.db, h.log, times);
  }

  /** A part of an upload that is gone at the end: not found. */
  lemma SecondPartFails(sha: string -> string, db: Db, bucket: string, key: string, uploadID: string, part: Part,
                        clock: nat -> Instant, times: nat -> Instant) returns (h: History)
    requires UploadKey(bucket, key, uploadID) in db.uploads
    requires ValidPart(part.number) && part.etag != "" && |part.chunks| > 0
    ensures Run(sha, db, [DoPutPart(bucket, key, uploadID, part), DoAbort(bucket, key, uploadID)], clock) == Ok(h)
    ensures ApplyAll(h.db, h.log, times) == Err(NotFound)
  {
    var first := DoPutPart(bucket, key, uploadID, part);
    var h1 := RunFirst(sha, db, first, clock);
    assert UploadKey(bucket, key, uploadID) in h1.db.uploads && h1.log[0].PutPart?;
    h := RunMore(sha, db, [first], DoAbort(bucket, key, uploadID), clock);
    FirstFails(h.db, h.log, times);
  }
}

module Store {
  import opened Nodes
  import opened Metadata
  import opened StoreSpec

  class MetaStore {
    var objects: map<string, ObjectMeta>
    var buckets: map<string, Bucket>
    var uploads: map<string, Upload>
    var dns: set<Addr>
    var log: seq<Entry>
    /** Every transaction commits and every append succeeds; otherwise any may fail. */
    const up: bool

    constructor (up: bool)
      ensures Tables() == Db(map[], map[], map[], {}) && log == [] && this.up == up
    {
      this.up := up;
      objects, buckets, uploads, dns, log := map[], map[], map[], {}, [];
    }

    function Tables(): (d: Db)
      reads this
    {
      Db(objects, buckets, uploads, dns)
    }

    /** A transaction: it does what spec says, or nothing because it was refused or failed. */
    ghost predicate Ran(spec: Result<Db>, was: Db, r: Result<()>)
      reads this
    {
      if r.Ok? then spec.Ok? && Tables() == spec.value
      else Tables() == was && ((r.error == TxFailed && !up) || (spec.Err? && r.error == spec.error))
    }

    /** A logged call: committed and logged; or committed while the log append or the push to peers
        failed; or refused or failed without a trace. */
    ghost predicate Outcome(spec: Result<Committed>, was: Db, log0: seq<Entry>, r: Result<()>)
      reads this
    {
      if r.Ok? then spec.Ok? && Tables() == spec.value.db && log == log0 + [spec.value.entry]
      else if r.error == LogFailed then
        !up && spec.Ok? && Tables() == spec.value.db && (log == log0 || log == log0 + [spec.value.entry])
      else
        && Tables() == was && log == log0
        && ((r.error == TxFailed && !up) || (spec.Err? && r.error == spec.error))
    }

    /** db.Update may fail before anything is written. */
    method Begin() returns (r: Result<()>)
      ensures r.Ok? || (r == Err(TxFailed) && !up)
    {
      var begun: bool := *;
      r := if begun || up then Ok(()) else Err(TxFailed);
    }

    /** appendWAL: the append or the hook may fail. */
    method AppendWAL(e: Entry) returns (r: Result<()>)
      modifies this`log
      ensures r.Ok? ==> log == old(log) + [e]
      ensures r.Err? ==> !up && r.error == LogFailed && (log == old(log) || log == old(log) + [e])
    {
      var appended: bool, pushed: bool := *, *;
      if appended || up { log := log + [e]; }
      r := if up || (appended && pushed) then Ok(()) else Err(LogFailed);
    }

    // ---- the transactions, shared by calls and replay ----

    /** The transaction of putObjectInternalFull. */
    method SaveObject(obj: ObjectMeta, now: Instant) returns (r: Result<()>, o: ObjectMeta)
      modifies this`objects
      ensures o == Stored(old(Tables()), obj, now) && Ran(Ok(WithObject(old(Tables()), o)), old(Tables()), r)
    {
      o := obj;
      var k := ObjKey(o.bucket, o.key);
      if k in objects { o := o.(version := Bump(objects[k].version)); }
      if o.version == 0 { o := o.(version := 1); }
      if o.createdAt == 0 { o := o.(createdAt := now); }
      r := Begin();
      if r.Ok? { objects := objects[k := o]; }
    }

    method DropObject(k: string) returns (r: Result<()>)
      modifies this`objects
      ensures Ran(RemoveObject(old(Tables()), k), old(Tables()), r)
    {
      r := Begin();
      if r.Err? { return; }
      if k !in objects { return Err(NotFound); }
      objects := objects - {k};
    }

    method SaveBucket(meta: Bucket) returns (r: Result<()>)
      modifies this`buckets
      ensures Ran(Ok(WithBucket(old(Tables()), meta)), old(Tables()), r)
    {
      r := Begin();
      if r.Ok? { buckets := buckets[meta.name := meta]; }
    }

    /** deleteBucketInternal: refused while a key has the bucket's prefix. */
    method DropBucket(name: string) returns (r: Result<()>)
      modifies this`buckets
      ensures Ran(RemoveBucket(old(Tables()), name), old(Tables()), r)
    {
      r := Begin();
      if r.Err? { return; }
      if name !in buckets { return Err(NotFound); }
      if exists k <- objects.Keys :: name + "/" <= k { return Err(BucketNotEmpty); }
      buckets := buckets - {name};
    }

    method SaveUpload(upload: Upload) returns (r: Result<()>)
      modifies this`uploads
      ensures Ran(Ok(WithUpload(old(Tables()), upload)), old(Tables()), r)
    {
      r := Begin();
      if r.Ok? { uploads := uploads[KeyOfUpload(upload) := upload]; }
    }

    /** putMultipartPartInternal. */
    method AddPart(k: string, p: Part) returns (r: Result<()>)
      modifies this`uploads
      ensures Ran(SavePart(old(Tables()), k, p), old(Tables()), r)
    {
      r := Begin();
      if r.Err? { return; }
      if k !in uploads { return Err(NotFound); }
      uploads := uploads[k := uploads[k].(parts := uploads[k].parts[p.number := p])];
    }

    /** The object is stored and the upload removed in one transaction. */
    method Finish(k: string, o: ObjectMeta) returns (r: Result<()>)
      modifies this`objects, this`uploads
      ensures Ran(Ok(FinishUpload(old(Tables()), k, o)), old(Tables()), r)
    {
      r := Begin();
      if r.Err? { return; }
      objects := objects[ObjKey(o.bucket, o.key) := o];
      uploads := uploads - {k};
    }

    /** abortMultipartUploadInternal. */
    method DropUpload(k: string) returns (r: Result<()>)
      modifies this`uploads
      ensures Ran(RemoveUpload(old(Tables()), k), old(Tables()), r)
    {
      r := Begin();
      if r.Err? { return; }
      if k !in uploads { return Err(NotFound); }
      uploads := uploads - {k};
    }

    /** addRuntimeDNInternal and removeRuntimeDNInternal. */
    method SetNode(addr: Addr, present: bool) returns (r: Result<()>)
      modifies this`dns
      ensures Ran(if present then AddNode(old(Tables()), addr) else RemoveNode(old(Tables()), addr), old(Tables()), r)
    {
      if addr == "" { return Err(InvalidArgument); }
      r := Begin();
      if r.Ok? { dns := if present then dns + {addr} else dns - {addr}; }
    }

    // ---- the calls ----

    /** The loop over the requested parts. */
    method AssembleParts(upload: Upload, parts: seq<CompletePart>) returns (r: Result<Assembly>)
      ensures r == Assemble(upload, parts, |parts|)
    {
      var prevPart := 0;
      var a := Assembly([], 0, "");
      for i := 0 to |parts|
        invariant prevPart == if i == 0 then 0 else parts[i - 1].number
        invariant Assemble(upload, parts, i) == Ok(a)
      {
        var p := CheckPart(upload, parts[i], prevPart);
        if p.Err? {
          FailsForGood(upload, parts, i + 1, |parts|);
          return Err(p.error);
        }
        prevPart := parts[i].number;
        a := Assembly(a.chunks + p.value.chunks, a.size + p.value.size, a.etags + p.value.etag);
      }
      r := Ok(a);
    }

    /** PutObject. */
    method PutObject(obj: ObjectMeta, now: Instant, ghost sha: string -> string) returns (r: Result<()>)
      modifies this
      ensures Outcome(Commit(sha, old(Tables()), DoPutObject(obj), now), old(Tables()), old(log), r)
    {
      var o;
      r, o := SaveObject(obj, now);
      if r.Ok? { r := AppendWAL(StoreSpec.PutObject(o)); }
    }

    /** CompleteMultipartUpload. */
    method CompleteMultipartUpload(bucket: string, key: string, uploadID: string, parts: seq<CompletePart>,
                                   now: Instant, sha: string -> string) returns (r: Result<()>)
      modifies this
      ensures Outcome(Commit(sha, old(Tables()), DoComplete(bucket, key, uploadID, parts), now),
                      old(Tables()), old(log), r)
    {
      if |parts| == 0 { return Err(InvalidPart); }
      var mk := UploadKey(bucket, key, uploadID);
      if mk !in uploads { return Err(NotFound); }
      var a := AssembleParts(uploads[mk], parts);
      if a.Err? { return Err(a.error); }
      var o := Completed(sha, bucket, key, uploads[mk], a.value, |parts|, now);
      var k := ObjKey(bucket, key);
      if k in objects { o := o.(version := Bump(objects[k].version)); }
      if o.version == 0 { o := o.(version := 1); }
      r := Finish(mk, o);
      if r.Ok? { r := AppendWAL(CompleteUpload(bucket, key, uploadID, o)); }
    }

    /** The other logged calls: checks, the transaction, the log append. */
    method Mutate(c: Call, now: Instant, ghost sha: string -> string) returns (r: Result<()>)
      requires !c.DoPutObject? && !c.DoComplete?
      modifies this
      ensures Outcome(Commit(sha, old(Tables()), c, now), old(Tables()), old(log), r)
    {
      var e: Entry;
      match c {
        case DoDeleteObject(bucket, key) =>
          e := DeleteObject(bucket, key);
          r := DropObject(ObjKey(bucket, key));
        case DoCreateBucket(name, isIP) =>
          if !ValidBucketName(name, isIP) { return Err(InvalidArgument); }
          if name in buckets { return Err(AlreadyExists); }
          e := CreateBucket(Bucket(name, now));
          r := SaveBucket(Bucket(name, now));
        case DoDeleteBucket(name) =>
          e := DeleteBucket(name);
          r := DropBucket(name);
        case DoCreateUpload(bucket, key, contentType, uploadID) =>
          if bucket == "" || key == "" { return Err(InvalidArgument); }
          if bucket !in buckets { return Err(NotFound); }
          var upload := Upload(bucket, key, uploadID, contentType, now, map[]);
          e := CreateUpload(upload);
          r := SaveUpload(upload);
        case DoPutPart(bucket, key, uploadID, part) =>
          if !ValidPart(part.number) || part.etag == "" || |part.chunks| == 0 { return Err(InvalidPart); }
          var p := if part.createdAt == 0 then part.(createdAt := now) else part;
          e := PutPart(bucket, key, uploadID, p);
          r := AddPart(UploadKey(bucket, key, uploadID), p);
        case DoAbort(bucket, key, uploadID) =>
          e := AbortUpload(bucket, key, uploadID);
          r := DropUpload(UploadKey(bucket, key, uploadID));
        case DoAddDN(addr) =>
          e := AddDN(addr);
          r := SetNode(addr, true);
        case DoRemoveDN(addr) =>
          e := RemoveDN(addr);
          r := SetNode(addr, false);
      }
      if r.Ok? { r := AppendWAL(e); }
    }

    /** CreateMultipartUpload: ids are drawn until one is free. */
    method CreateMultipartUpload(bucket: string, key: string, contentType: string, draws: seq<string>, now: Instant,
                                 ghost sha: string -> string) returns (r: Result<()>, uploadID: string)
      requires exists i :: 0 <= i < |draws| && UploadKey(bucket, key, draws[i]) !in uploads
      modifies this
      ensures uploadID in draws && UploadKey(bucket, key, uploadID) !in old(uploads)
      ensures Outcome(Commit(sha, old(Tables()), DoCreateUpload(bucket, key, contentType, uploadID), now),
                      old(Tables()), old(log), r)
    {
      var i := 0;
      while UploadKey(bucket, key, draws[i]) in uploads
        invariant 0 <= i < |draws|
        invariant forall j :: 0 <= j < i ==> UploadKey(bucket, key, draws[j]) in uploads
        decreases |draws| - i
      {
        i := i + 1;
      }
      uploadID := draws[i];
      r := Mutate(DoCreateUpload(bucket, key, contentType, uploadID), now, sha);
    }

    // ---- replay ----

    /** ApplyEntry: the same transactions, without logging. */
    method ApplyEntry(e: Entry, now: Instant) returns (r: Result<()>)
      modifies this`objects, this`buckets, this`uploads, this`dns
      ensures Ran(Apply(old(Tables()), e, now), old(Tables()), r)
    {
      match e
      case PutObject(obj) =>
        var o;
        r, o := SaveObject(obj, now);
      case DeleteObject(bucket, key) => r := DropObject(ObjKey(bucket, key));
      case CreateBucket(meta) =>
        if meta.name == "" { return Err(InvalidArgument); }
        r := SaveBucket(if meta.createdAt == 0 then meta.(createdAt := now) else meta);
      case DeleteBucket(name) => r := DropBucket(name);
      case CreateUpload(upload) =>
        if upload.bucket == "" || upload.key == "" || upload.uploadID == "" { return Err(InvalidArgument); }
        r := SaveUpload(if upload.createdAt == 0 then upload.(createdAt := now) else upload);
      case PutPart(bucket, key, uploadID, part) => r := AddPart(UploadKey(bucket, key, uploadID), part);
      case CompleteUpload(bucket, key, uploadID, obj) => r := Finish(UploadKey(bucket, key, uploadID), obj);
      case AbortUpload(bucket, key, uploadID) =>
        r := DropUpload(UploadKey(bucket, key, uploadID));
        if r == Err(NotFound) { r := Ok(()); }
      case AddDN(addr) => r := SetNode(addr, true);
      case RemoveDN(addr) => r := SetNode(addr, false);
    }

    /** ApplyAll: the tables after n entries, all of them or up to the first that fails. */
    method ApplyAll(es: seq<Entry>, times: nat -> Instant) returns (r: Result<()>, n: nat)
      modifies this`objects, this`buckets, this`uploads, this`dns
      ensures n <= |es| && StoreSpec.ApplyAll(old(Tables()), es[..n], times) == Ok(Tables())
      ensures r.Ok? ==> n == |es|
      ensures r.Err? ==> n < |es| && ((r.error == TxFailed && !up) || Apply(Tables(), es[n], times(n)) == Err(r.error))
    {
      n := 0;
      while n < |es|
        invariant n <= |es| && StoreSpec.ApplyAll(old(Tables()), es[..n], times) == Ok(Tables())
      {
        assert es[..n + 1][..n] == es[..n];
        r := ApplyEntry(es[n], times(n));
        if r.Err? { return; }
        n := n + 1;
      }
      r := Ok(());
    }

    // ---- replica updates, which are not logged ----

    method UpdateChunkReplicas(k: string, index: int, replicas: seq<Addr>) returns (ok: bool)
      modifies this`objects
      ensures !ok ==> objects == old(objects)
      ensures up && k in old(objects) && 0 <= index < |old(objects)[k].chunks| ==> ok
      ensures ok ==> k in old(objects) && 0 <= index < |old(objects)[k].chunks|
      ensures ok ==> objects == old(objects)[k := WithChunkReplicas(old(objects)[k], index, replicas)]
    {
      var tx := Begin();
      if k !in objects || index < 0 || index >= |objects[k].chunks| || tx.Err? { return false; }
      objects := objects[k := WithChunkReplicas(objects[k], index, replicas)];
      ok := true;
    }

    method UpdateShardReplicas(k: string, si: int, shi: int, replicas: seq<Addr>) returns (ok: bool)
      modifies this`objects
      ensures !ok ==> objects == old(objects)
      ensures up && HasShard(old(objects), k, si, shi) ==> ok
      ensures ok ==> HasShard(old(objects), k, si, shi)
      ensures ok ==> objects == old(objects)[k := WithShardReplicas(old(objects)[k], si, shi, replicas)]
    {
      var tx := Begin();
      if k !in objects || !IsEC(objects[k]) || tx.Err? { return false; }
      if si < 0 || si >= |objects[k].stripes| || shi < 0 || shi >= |objects[k].stripes[si].shards| { return false; }
      objects := objects[k := WithShardReplicas(objects[k], si, shi, replicas)];
      ok := true;
    }
  }

  predicate HasShard(objects: map<string, ObjectMeta>, k: string, si: int, shi: int) {
    k in objects && IsEC(objects[k]) && 0 <= si < |objects[k].stripes| && 0 <= shi < |objects[k].stripes[si].shards|
  }

  function WithChunkReplicas(o: ObjectMeta, i: nat, replicas: seq<Addr>): (r: ObjectMeta)
    requires i < |o.chunks|
  {
    o.(chunks := o.chunks[i := o.chunks[i].(replicas := replicas)])
  }

  function WithShardReplicas(o: ObjectMeta, si: nat, shi: nat, replicas: seq<Addr>): (r: ObjectMeta)
    requires si < |o.stripes| && shi < |o.stripes[si].shards|
  {
    var st := o.stripes[si];
    o.(stripes := o.stripes[si := st.(shards := st.shards[shi := st.shards[shi].(replicas := replicas)])])
  }

  /** A failed check stays failed. */
  lemma {:induction false} FailsForGood(up: Upload, parts: seq<CompletePart>, i: nat, n: nat)
    requires i <= n <= |parts| && Assemble(up, parts, i).Err?
    ensures Assemble(up, parts, n) == Assemble(up, parts, i)
    decreases n
  {
    if i < n { FailsForGood(up, parts, i, n - 1); }
  }
}
