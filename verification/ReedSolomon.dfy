/** internal/reedsolomon/rs.go: the erasure coder. A missing shard is the empty sequence, as in the
    code, where nil and empty slots are treated alike. */
module ReedSolomon {
  import opened GF
  import opened Linear
  import opened Matrices
  import opened Lists
  import opened Encodings
  import opened Vandermonde

  type Shard = seq<byte>

  datatype NewEncoderResult = NewEncoder(encoder: Encoder) | BadParameters

  datatype EncodeResult = Encoded(parity: seq<Shard>) | WrongCount | UnequalSizes | EmptyShards

  datatype ReconstructResult = Reconstructed | WrongSlots | SizesDiffer | TooFewShards | NotInvertible

  /** Shard i of the stripe that encodes data shards d of length len. */
  function ShardOf(e: Mat, d: Mat, len: nat, i: nat): (s: Shard)
    requires i < |e| && IsMat(d, |d|, len) && IsMat(e, |e|, |d|)
  {
    seq(len, c requires 0 <= c < len => Dot(e[i], Column(d, c)))
  }

  /** The code is systematic: the first K shards are the data itself. */
  lemma DataShards(e: Mat, k: nat, m: nat, d: Mat, len: nat, i: nat)
    requires IsEncoding(e, k, m) && IsMat(d, k, len) && i < k
    ensures ShardOf(e, d, len, i) == d[i]
  {
    assert e[i] == e[..k][i] == Unit(k, i);
    forall c | 0 <= c < len ensures Dot(e[i], Column(d, c)) == d[i][c] {
      DotUnit(k, i, Column(d, c));
    }
  }

  // ---- the multiplication table and the unrolled loop ----

  ghost predicate IsMulTable(t: array<byte>, coef: byte)
    reads t
  {
    t.Length == 256 && forall b: byte :: t[b as int] == Mul(coef, b)
  }

  /** fillMulTable, from the package's exp and log tables. */
  method FillMulTable(t: array<byte>, coef: byte, exp: seq<byte>, log: seq<byte>)
    requires t.Length == 256 && AreTables(exp, log)
    modifies t
    ensures IsMulTable(t, coef)
  {
    if coef == 0 {
      for i := 0 to 256
        invariant forall j :: 0 <= j < i ==> t[j] == 0
      {
        t[i] := 0;
      }
      return;
    }
    var logCoef := log[coef as int] as int;
    t[0] := 0;
    for b := 1 to 256
      invariant forall j :: 0 <= j < b ==> t[j] == Mul(coef, j as byte)
    {
      ByteRoundTrip(b);
      assert b as byte != 0 && log[b] as int == Log(b as byte);
      t[b] := exp[logCoef + log[b] as int];
    }
    forall b: byte ensures t[b as int] == Mul(coef, b) {
      assert (b as int) as byte == b;
    }
  }

  /** The first c bytes have been XORed through the table, the others not yet. */
  ghost predicate Mixed(now: Shard, was: Shard, t: seq<byte>, src: Shard, c: nat) {
    && |now| == |was| == |src| && |t| == 256 && c <= |now|
    && forall j :: 0 <= j < |now| ==> now[j] == if j < c then Add(was[j], t[src[j] as int]) else was[j]
  }

  /** out[c] ^= t[src[c]] */
  method XorByte(out: array<byte>, t: array<byte>, src: Shard, c: nat, ghost was: Shard)
    requires t != out && c < out.Length && Mixed(out[..], was, t[..], src, c)
    modifies out
    ensures Mixed(out[..], was, t[..], src, c + 1)
  {
    out[c] := Add(out[c], t[src[c] as int]);
  }

  /** The inner loop of Encode: eight bytes a turn, then the tail. */
  method XorThroughTable(out: array<byte>, t: array<byte>, src: Shard)
    requires t != out && t.Length == 256 && |src| == out.Length
    modifies out
    ensures Mixed(out[..], old(out[..]), t[..], src, out.Length)
  {
    var c := 0;
    ghost var was := out[..];
    while c + 8 <= out.Length
      invariant Mixed(out[..], was, t[..], src, c)
    {
      XorByte(out, t, src, c + 0, was);
      XorByte(out, t, src, c + 1, was);
      XorByte(out, t, src, c + 2, was);
      XorByte(out, t, src, c + 3, was);
      XorByte(out, t, src, c + 4, was);
      XorByte(out, t, src, c + 5, was);
      XorByte(out, t, src, c + 6, was);
      XorByte(out, t, src, c + 7, was);
      c := c + 8;
    }
    while c < out.Length
      invariant Mixed(out[..], was, t[..], src, c)
    {
      XorByte(out, t, src, c, was);
      c := c + 1;
    }
  }

  class Encoder {
    const k: nat
    const m: nat
    const encMat: array2<byte>

    ghost predicate Shaped() {
      0 < k && 0 < m && k + m <= 256 && encMat.Length0 == k + m && encMat.Length1 == k
    }

    ghost predicate Valid()
      reads encMat
    {
      Shaped() && IsEncoding(Value(encMat), k, m)
    }

    /** The matrix is the one every encoder for this K and M builds. */
    ghost predicate Standard()
      reads encMat
    {
      IsSystematic(Value(encMat), k, m)
    }

    ghost function E(): (e: Mat)
      reads encMat
      ensures e == Value(encMat)
    {
      Value(encMat)
    }

    constructor (k: nat, m: nat, encMat: array2<byte>)
      ensures this.k == k && this.m == m && this.encMat == encMat
    {
      this.k, this.m, this.encMat := k, m, encMat;
    }
  }

  /** NewEncoder: fails exactly when the parameters are out of range. */
  method BuildEncoder(k: int, m: int) returns (r: NewEncoderResult)
    ensures r.NewEncoder? <==> k > 0 && m > 0 && k + m <= 256
    ensures r.NewEncoder? ==> fresh(r.encoder) && r.encoder.k == k && r.encoder.m == m
    ensures r.NewEncoder? ==> r.encoder.Valid() && r.encoder.Standard()
  {
    if k <= 0 || m <= 0 {
      return BadParameters;
    }
    if k + m > 256 {
      return BadParameters;
    }
    var ok, enc := MakeSystematicEncoding(k, m);
    if !ok {
      return BadParameters;
    }
    var e := new Encoder(k, m, enc);
    return NewEncoder(e);
  }

  // ---- Encode ----

  /** out holds the partial sums over the first j data shards. */
  ghost predicate Partial(out: Shard, row: Vec, d: Mat, len: nat, j: nat)
    requires IsMat(d, |d|, len) && |row| == |d| && j <= |d|
  {
    |out| == len && forall c :: 0 <= c < len ==> out[c] == DotTo(row, Column(d, c), j)
  }

  lemma PartialStep(was: Shard, out: Shard, t: seq<byte>, row: Vec, d: Mat, len: nat, j: nat)
    requires IsMat(d, |d|, len) && |row| == |d| && j < |d| && Partial(was, row, d, len, j)
    requires Mixed(out, was, t, d[j], len)
    requires forall b: byte :: t[b as int] == Mul(row[j], b)
    ensures Partial(out, row, d, len, j + 1)
  {
  }

  method AddShard(out: array<byte>, t: array<byte>, row: Vec, d: Mat, len: nat, j: nat, exp: seq<byte>, log: seq<byte>)
    requires AreTables(exp, log) && out != t && t.Length == 256 && IsMat(d, |d|, len) && |row| == |d| && j < |d|
    requires Partial(out[..], row, d, len, j)
    modifies out, t
    ensures Partial(out[..], row, d, len, j + 1)
  {
    var coef := row[j];
    if coef == 0 {
      return;
    }
    FillMulTable(t, coef, exp, log);
    ghost var was := out[..];
    XorThroughTable(out, t, d[j]);
    assert forall b: byte :: t[..][b as int] == Mul(coef, b);
    PartialStep(was, out[..], t[..], row, d, len, j);
  }

  /** One parity shard. The table is reused from shard to shard. */
  method EncodeRow(e: Encoder, data: seq<Shard>, len: nat, p: nat, t: array<byte>, exp: seq<byte>, log: seq<byte>)
    returns (shard: Shard)
    requires AreTables(exp, log) && e.Shaped() && p < e.m && IsMat(data, e.k, len) && t.Length == 256
    modifies t
    ensures shard == ShardOf(e.E(), data, len, e.k + p)
  {
    ghost var row := e.E()[e.k + p];
    var out := new byte[len](_ => 0);
    var copy := CopyRow(e.encMat, e.k + p);
    for j := 0 to e.k
      invariant Partial(out[..], row, data, len, j)
    {
      AddShard(out, t, copy, data, len, j, exp, log);
    }
    shard := out[..];
  }

  method CopyRow(m: array2<byte>, r: nat) returns (row: Vec)
    requires r < m.Length0
    ensures row == Value(m)[r]
  {
    row := [];
    for c := 0 to m.Length1
      invariant row == Value(m)[r][..c]
    {
      row := row + [m[r, c]];
    }
  }

  /** The lengths agree with the first shard's, as the size loop checks. */
  ghost predicate EqualSizes(shards: seq<Shard>) {
    forall i :: 0 <= i < |shards| ==> |shards[i]| == |shards[0]|
  }

  method Encode(e: Encoder, data: seq<Shard>) returns (r: EncodeResult)
    requires e.Shaped()
    ensures r.WrongCount? <==> |data| != e.k
    ensures r.UnequalSizes? <==> |data| == e.k && !EqualSizes(data)
    ensures r.EmptyShards? <==> |data| == e.k && EqualSizes(data) && |data[0]| == 0
    ensures r.Encoded? ==> |r.parity| == e.m && IsMat(data, e.k, |data[0]|)
    ensures r.Encoded? ==>
      forall p :: 0 <= p < e.m ==> r.parity[p] == ShardOf(e.E(), data, |data[0]|, e.k + p)
  {
    if |data| != e.k {
      return WrongCount;
    }
    var size := |data[0]|;
    for i := 0 to |data|
      invariant forall j :: 0 <= j < i ==> |data[j]| == size
    {
      if |data[i]| != size {
        return UnequalSizes;
      }
    }
    if size == 0 {
      return EmptyShards;
    }
    var parity: seq<Shard> := [];
    var exp, log := BuildTables();
    TableContents(exp, log);
    var expTable, logTable := exp[..], log[..];
    var t := new byte[256](_ => 0);
    for p := 0 to e.m
      invariant |parity| == p
      invariant forall q :: 0 <= q < p ==> parity[q] == ShardOf(e.E(), data, size, e.k + q)
    {
      var shard := EncodeRow(e, data, size, p, t, expTable, logTable);
      parity := parity + [shard];
    }
    return Encoded(parity);
  }

  // ---- Reconstruct ----

  /** The indices below n of the shards that are present, in order. */
  function Survivors(shards: seq<Shard>, n: nat): (s: seq<nat>)
    requires n <= |shards|
    ensures forall i :: 0 <= i < |s| ==> s[i] < n && |shards[s[i]]| > 0
    ensures NoRepeats(s)
    ensures forall i :: 0 <= i < n && |shards[i]| > 0 ==> i in s
  {
    if n == 0 then []
    else if |shards[n - 1]| > 0 then Survivors(shards, n - 1) + [n - 1]
    else Survivors(shards, n - 1)
  }

  ghost predicate PresentSizesAgree(shards: seq<Shard>) {
    forall i, j :: 0 <= i < |shards| && 0 <= j < |shards| && |shards[i]| > 0 && |shards[j]| > 0
      ==> |shards[i]| == |shards[j]|
  }

  /** Every shard that is present is the one the stripe of data d would hold. */
  ghost predicate Fits(shards: seq<Shard>, e: Mat, d: Mat, len: nat)
    requires |shards| == |e| && IsMat(e, |e|, |d|)
  {
    && IsMat(d, |d|, len)
    && forall i :: 0 <= i < |shards| && |shards[i]| > 0 ==> shards[i] == ShardOf(e, d, len, i)
  }

  lemma Decode(e: Mat, inv: Mat, basis: seq<nat>, d: Mat, s: Mat, k: nat, len: nat, i: nat)
    requires |basis| == k && i < k && IsMat(e, |e|, k) && IsMat(d, k, len) && IsMat(s, k, len)
    requires IsMat(inv, k, k) && (forall j :: 0 <= j < k ==> basis[j] < |e|)
    requires forall j :: 0 <= j < k ==> s[j] == ShardOf(e, d, len, basis[j])
    requires IsInverse(RowsOf(e, basis), inv, k)
    ensures ShardOf(inv, s, len, i) == d[i]
  {
    forall c | 0 <= c < len ensures Dot(inv[i], Column(s, c)) == d[i][c] {
      var x := Column(d, c);
      assert Column(s, c) == Apply(RowsOf(e, basis), x);
      assert Apply(inv, Apply(RowsOf(e, basis), x)) == x;
      assert Dot(inv[i], Column(s, c)) == Apply(inv, Column(s, c))[i];
    }
  }

  method Scan(shards: seq<Shard>) returns (agree: bool, surv: seq<nat>, size: int)
    ensures agree <==> PresentSizesAgree(shards)
    ensures agree ==> surv == Survivors(shards, |shards|)
    ensures agree ==> forall i :: 0 <= i < |surv| ==> |shards[surv[i]]| == size
  {
    surv, size := [], -1;
    for i := 0 to |shards|
      invariant surv == Survivors(shards, i)
      invariant forall j :: 0 <= j < i && |shards[j]| > 0 ==> |shards[j]| == size
      invariant size < 0 ==> forall j :: 0 <= j < i ==> |shards[j]| == 0
      invariant size >= 0 ==> exists j :: 0 <= j < i && |shards[j]| > 0 && |shards[j]| == size
    {
      if |shards[i]| > 0 {
        surv := surv + [i];
        if size < 0 {
          size := |shards[i]|;
        } else if |shards[i]| != size {
          return false, [], 0;
        }
      }
    }
    return true, surv, size;
  }

  /** Scaled bytes of one survivor added into out, byte by byte. */
  method AddScaledShard(out: array<byte>, row: Vec, s: Mat, len: nat, j: nat)
    requires IsMat(s, |s|, len) && |row| == |s| && j < |s| && Partial(out[..], row, s, len, j)
    modifies out
    ensures Partial(out[..], row, s, len, j + 1)
  {
    var coef, src := row[j], s[j];
    if coef == 0 {
      return;
    }
    ghost var was := out[..];
    for c := 0 to len
      invariant forall i :: 0 <= i < len ==>
        out[i] == if i < c then Add(was[i], Mul(coef, src[i])) else was[i]
    {
      out[c] := Add(out[c], Mul(coef, src[c]));
    }
  }

  method RebuildShard(inv: array2<byte>, s: Mat, len: nat, d: nat) returns (shard: Shard)
    requires IsMat(s, |s|, len) && inv.Length0 == inv.Length1 == |s| && d < |s|
    ensures shard == ShardOf(Value(inv), s, len, d)
  {
    var row := CopyRow(inv, d);
    var out := new byte[len](_ => 0);
    PartialStart(out[..], row, s, len);
    for j := 0 to |s|
      invariant Partial(out[..], row, s, len, j)
    {
      AddScaledShard(out, row, s, len, j);
    }
    shard := out[..];
    PartialIsShard(shard, Value(inv), s, len, d);
  }

  lemma PartialStart(out: Shard, row: Vec, s: Mat, len: nat)
    requires IsMat(s, |s|, len) && |row| == |s| && |out| == len && forall c :: 0 <= c < len ==> out[c] == 0
    ensures Partial(out, row, s, len, 0)
  {
  }

  lemma PartialIsShard(out: Shard, e: Mat, s: Mat, len: nat, d: nat)
    requires IsMat(s, |s|, len) && IsMat(e, |e|, |s|) && d < |e| && Partial(out, e[d], s, len, |s|)
    ensures out == ShardOf(e, s, len, d)
  {
  }

  /** The data slots after rebuilding: the missing ones are combinations of the basis shards. */
  function Filled(inv: Mat, s: Mat, len: nat, was: seq<Shard>): (now: seq<Shard>)
    requires IsMat(s, |s|, len) && IsMat(inv, |s|, |s|) && |s| <= |was|
  {
    seq(|s|, i requires 0 <= i < |s| => if |was[i]| == 0 then ShardOf(inv, s, len, i) else was[i])
  }

  /** The rebuilt slice: empty where the shard was present. */
  method RebuildMissing(inv: array2<byte>, s: Mat, len: nat, was: seq<Shard>) returns (rebuilt: seq<Shard>)
    requires IsMat(s, |s|, len) && inv.Length0 == inv.Length1 == |s| <= |was|
    ensures |rebuilt| == |s|
    ensures forall i :: 0 <= i < |s| ==>
      rebuilt[i] == if |was[i]| > 0 then [] else Filled(Value(inv), s, len, was)[i]
  {
    rebuilt := [];
    for d := 0 to |s|
      invariant |rebuilt| == d
      invariant forall i :: 0 <= i < d ==>
        rebuilt[i] == if |was[i]| > 0 then [] else Filled(Value(inv), s, len, was)[i]
    {
      var out: Shard := [];
      if |was[d]| == 0 {
        out := RebuildShard(inv, s, len, d);
      }
      rebuilt := rebuilt + [out];
    }
  }

  /** Copy the rebuilt shards into their slots. */
  method StoreRebuilt(shards: array<Shard>, rebuilt: seq<Shard>)
    requires |rebuilt| <= shards.Length
    modifies shards
    ensures forall i :: 0 <= i < shards.Length ==>
      shards[i] == if i < |rebuilt| && |rebuilt[i]| > 0 then rebuilt[i] else old(shards[i])
  {
    for d := 0 to |rebuilt|
      invariant forall i :: 0 <= i < shards.Length ==>
        shards[i] == if i < d && |rebuilt[i]| > 0 then rebuilt[i] else old(shards[i])
    {
      if |rebuilt[d]| > 0 {
        shards[d] := rebuilt[d];
      }
    }
  }

  /** The basis shards determine the data, so the filled slots are the data. */
  lemma FilledIsData(e: Mat, inv: Mat, basis: seq<nat>, d: Mat, s: Mat, was: seq<Shard>,
                     k: nat, m: nat, len: nat, n: nat)
    requires 0 < k && IsEncoding(e, k, m) && IsChoice(basis, k, k + m) && |was| == k + m
    requires |d| == k && Fits(was, e, d, n) && IsMat(inv, k, k) && IsInverse(RowsOf(e, basis), inv, k)
    requires |s| == k && 0 < len && forall j :: 0 <= j < k ==> s[j] == was[basis[j]] && |s[j]| == len
    ensures Filled(inv, s, len, was) == d
  {
    assert s[0] == ShardOf(e, d, n, basis[0]);
    forall i | 0 <= i < k ensures Filled(inv, s, len, was)[i] == d[i] {
      if |was[i]| == 0 {
        Decode(e, inv, basis, d, s, k, len, i);
      } else {
        DataShards(e, k, m, d, n, i);
      }
    }
  }

  /** What a successful Reconstruct leaves behind. */
  ghost predicate DataRestored(e: Mat, k: nat, was: seq<Shard>, now: seq<Shard>)
    requires k <= |was| == |now| == |e| && IsMat(e, |e|, k)
  {
    && (forall i :: 0 <= i < |was| && (i >= k || |was[i]| > 0) ==> now[i] == was[i])
    && (forall d: Mat, n: nat :: |d| == k && Fits(was, e, d, n) ==> now[..k] == d)
  }

  lemma RebuiltRestores(e: Mat, inv: Mat, basis: seq<nat>, s: Mat, was: seq<Shard>, now: seq<Shard>,
                        k: nat, m: nat, len: nat)
    requires 0 < k && IsEncoding(e, k, m) && IsChoice(basis, k, k + m) && |was| == |now| == k + m
    requires IsMat(inv, k, k) && IsInverse(RowsOf(e, basis), inv, k)
    requires |s| == k && 0 < len && forall j :: 0 <= j < k ==> s[j] == was[basis[j]] && |s[j]| == len
    requires now[..k] == Filled(inv, s, len, was) && now[k..] == was[k..]
    ensures DataRestored(e, k, was, now)
  {
    forall d: Mat, n: nat | |d| == k && Fits(was, e, d, n) ensures now[..k] == d {
      FilledIsData(e, inv, basis, d, s, was, k, m, len, n);
    }
    forall i | 0 <= i < |was| && (i >= k || |was[i]| > 0) ensures now[i] == was[i] {
      if i < k {
        assert now[i] == now[..k][i];
      } else {
        assert now[i] == now[k..][i - k];
      }
    }
  }

  lemma PresentRestores(e: Mat, was: seq<Shard>, k: nat, m: nat)
    requires IsEncoding(e, k, m) && |was| == k + m && forall i :: 0 <= i < k ==> |was[i]| > 0
    ensures DataRestored(e, k, was, was)
  {
    forall d: Mat, n: nat | |d| == k && Fits(was, e, d, n) ensures was[..k] == d {
      forall i | 0 <= i < k ensures was[i] == d[i] {
        DataShards(e, k, m, d, n, i);
      }
    }
  }

  method AllPresent(shards: array<Shard>, k: nat) returns (all: bool)
    requires k <= shards.Length
    ensures all <==> forall i :: 0 <= i < k ==> |shards[i]| > 0
  {
    for i := 0 to k
      invariant forall j :: 0 <= j < i ==> |shards[j]| > 0
    {
      if |shards[i]| == 0 {
        return false;
      }
    }
    return true;
  }

  /** Invert the rows of the basis; the code guarantees that this succeeds. */
  method InvertBasis(e: Encoder, basis: seq<nat>) returns (res: InvertResult)
    requires e.Valid() && IsChoice(basis, e.k, e.k + e.m)
    ensures res.Inverted? && res.inverse.Length0 == res.inverse.Length1 == e.k
    ensures IsInverse(RowsOf(e.E(), basis), Value(res.inverse), e.k)
  {
    var sub := SubMatrix(e.encMat, basis);
    res := Invert(sub);
  }

  /** Rebuild the missing data shards from K survivors. */
  method RebuildFrom(e: Encoder, shards: array<Shard>, basis: seq<nat>, size: nat) returns (ok: bool)
    requires e.Valid() && shards.Length == e.k + e.m && IsChoice(basis, e.k, e.k + e.m)
    requires 0 < size && forall j :: 0 <= j < e.k ==> |shards[basis[j]]| == size
    modifies shards
    ensures ok && DataRestored(e.E(), e.k, old(shards[..]), shards[..])
  {
    var inv := InvertBasis(e, basis);
    if !inv.Inverted? {
      return false;
    }
    RebuildWith(e, shards, basis, inv.inverse, size);
    return true;
  }

  method RebuildWith(e: Encoder, shards: array<Shard>, basis: seq<nat>, inv: array2<byte>, size: nat)
    requires e.Valid() && shards.Length == e.k + e.m && IsChoice(basis, e.k, e.k + e.m)
    requires 0 < size && forall j :: 0 <= j < e.k ==> |shards[basis[j]]| == size
    requires inv.Length0 == inv.Length1 == e.k && IsInverse(RowsOf(e.E(), basis), Value(inv), e.k)
    modifies shards
    ensures DataRestored(e.E(), e.k, old(shards[..]), shards[..])
  {
    ghost var was := shards[..];
    var s := seq(e.k, j requires 0 <= j < e.k reads shards => shards[basis[j]]);
    FillSlots(shards, inv, s, size);
    RebuiltRestores(e.E(), Value(inv), basis, s, was, shards[..], e.k, e.m, size);
  }

  method FillSlots(shards: array<Shard>, inv: array2<byte>, s: Mat, len: nat)
    requires IsMat(s, |s|, len) && inv.Length0 == inv.Length1 == |s| <= shards.Length && 0 < len
    modifies shards
    ensures shards[..|s|] == Filled(Value(inv), s, len, old(shards[..]))
    ensures shards[|s|..] == old(shards[|s|..])
  {
    var rebuilt := RebuildMissing(inv, s, len, shards[..]);
    StoreRebuilt(shards, rebuilt);
  }

  lemma BasisIsChoice(shards: seq<Shard>, k: nat)
    requires k <= |Survivors(shards, |shards|)|
    ensures IsChoice(Survivors(shards, |shards|)[..k], k, |shards|)
  {
  }

  /** Rebuild the missing data shards in place. */
  method Reconstruct(e: Encoder, shards: array<Shard>) returns (r: ReconstructResult)
    requires e.Valid()
    modifies shards
    ensures r.WrongSlots? <==> shards.Length != e.k + e.m
    ensures r.SizesDiffer? <==> shards.Length == e.k + e.m && !PresentSizesAgree(old(shards[..]))
    ensures r.TooFewShards? <==> shards.Length == e.k + e.m && PresentSizesAgree(old(shards[..]))
                                 && |Survivors(old(shards[..]), shards.Length)| < e.k
    ensures !r.NotInvertible?
    ensures !r.Reconstructed? ==> shards[..] == old(shards[..])
    ensures r.Reconstructed? ==> DataRestored(e.E(), e.k, old(shards[..]), shards[..])
  {
    if shards.Length != e.k + e.m {
      return WrongSlots;
    }
    var was := shards[..];
    var agree, surv, size := Scan(was);
    if !agree {
      return SizesDiffer;
    }
    if |surv| < e.k {
      return TooFewShards;
    }
    var all := AllPresent(shards, e.k);
    if all {
      PresentRestores(e.E(), was, e.k, e.m);
      return Reconstructed;
    }
    var basis := surv[..e.k];
    BasisIsChoice(was, e.k);
    assert |was[surv[0]]| == size;
    var ok := RebuildFrom(e, shards, basis, size);
    return if ok then Reconstructed else NotInvertible;
  }

  // ---- any M erasures are tolerated ----

  lemma {:induction false} SurvivorCount(shards: seq<Shard>, n: nat, present: set<nat>)
    requires n <= |shards| && forall i: nat :: i in present <==> i < n && |shards[i]| > 0
    ensures |Survivors(shards, n)| == |present|
  {
    if n > 0 {
      SurvivorCount(shards, n - 1, present - {n - 1});
    } else {
      assert present == {};
    }
  }

  /** The slots hold exactly the present shards of the stripe that encodes d. */
  ghost predicate Erased(shards: seq<Shard>, e: Mat, d: Mat, len: nat, present: set<nat>)
    requires |shards| == |e| && IsMat(e, |e|, |d|)
  {
    && IsMat(d, |d|, len) && 0 < len
    && forall i: nat :: i < |shards| ==> shards[i] == if i in present then ShardOf(e, d, len, i) else []
  }

  /** With K shards left, Reconstruct accepts the slots and the data they determine is d. */
  lemma ErasuresTolerated(shards: seq<Shard>, e: Mat, d: Mat, len: nat, present: set<nat>)
    requires |shards| == |e| && IsMat(e, |e|, |d|) && Erased(shards, e, d, len, present)
    requires |d| <= |present| && forall i <- present :: i < |shards|
    ensures PresentSizesAgree(shards) && |Survivors(shards, |shards|)| >= |d|
    ensures Fits(shards, e, d, len)
  {
    SurvivorCount(shards, |shards|, present);
  }

  /** Slots with at least K shards of one stripe left. */
  ghost predicate Recoverable(shards: seq<Shard>, e: Mat, k: nat, d: Mat, len: nat, present: set<nat>) {
    && |d| == k && |shards| == |e| && IsMat(e, |e|, k) && Erased(shards, e, d, len, present)
    && k <= |present| && forall i <- present :: i < |shards|
  }

  /** Reconstruct, for callers that know which stripe the slots come from. */
  method Recover(e: Encoder, shards: array<Shard>, ghost d: Mat, ghost len: nat, ghost present: set<nat>)
    returns (ok: bool)
    requires e.Valid()
    modifies shards
    ensures Recoverable(old(shards[..]), e.E(), e.k, d, len, present) ==> ok && shards[..e.k] == d
    ensures ok ==> shards.Length == e.k + e.m
  {
    if Recoverable(shards[..], e.E(), e.k, d, len, present) {
      ErasuresTolerated(shards[..], e.E(), d, len, present);
    }
    var r := Reconstruct(e, shards);
    ok := r.Reconstructed?;
  }

  /** Encode, erase any at most M shards, Reconstruct: success, and the data is back. */
  method RoundTrip(e: Encoder, data: seq<Shard>, present: set<nat>) returns (ok: bool, back: seq<Shard>)
    requires e.Valid() && |data| == e.k && EqualSizes(data) && |data[0]| > 0
    requires forall i <- present :: i < e.k + e.m
    ensures |present| >= e.k ==> ok && back == data
  {
    var len := |data[0]|;
    var enc := Encode(e, data);
    var all := data + enc.parity;
    var shards := new Shard[e.k + e.m](i requires 0 <= i < |all| => if i in present then all[i] else []);
    forall i: nat | i < e.k + e.m ensures all[i] == ShardOf(e.E(), data, len, i) {
      if i < e.k { DataShards(e.E(), e.k, e.m, data, len, i); } else { assert all[i] == enc.parity[i - e.k]; }
    }
    ok := Recover(e, shards, data, len, present);
    back := shards[..e.k];
  }
}
