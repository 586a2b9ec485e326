/** internal/chunker/cdc.go: FastCDC, as a pure segmentation and as the streaming reader. */
module Chunker {
  import opened GF

  type Bytes = seq<byte>

  /** CDCConfig as the caller gives it. */
  datatype Config = Config(min: int, normal: int, max: int, strict: int, loose: int, relax: int)

  /** A configuration after NewCDCReader's fallbacks, with the gear table. */
  datatype Params = Params(min: nat, normal: nat, max: nat, strict: nat, loose: nat, relax: nat, gear: byte -> nat)

  ghost predicate Usable(c: Params) {
    0 < c.min <= c.normal <= c.max && 0 < c.strict && 0 < c.loose
  }

  /** A positive setting is kept; otherwise the fallback counts. */
  predicate Kept(given: int, fallback: nat, used: nat) { used == if given > 0 then given else fallback }

  const DEFAULT := Config(1048576, 4194304, 16777216, 22, 20, 0)

  function Normalize(cfg: Config, gear: byte -> nat): (c: Params)
    ensures Usable(c) && c.gear == gear
    ensures 0 < cfg.min <= cfg.normal <= cfg.max ==> (c.min, c.normal, c.max) == (cfg.min, cfg.normal, cfg.max)
    ensures 0 < cfg.min <= cfg.normal <= cfg.max ==> Kept(cfg.strict, 22, c.strict) && Kept(cfg.loose, 20, c.loose)
    ensures 0 < cfg.min <= cfg.normal <= cfg.max ==> c.relax == (if cfg.relax > 0 then cfg.relax else 0)
    ensures !(0 < cfg.min <= cfg.normal <= cfg.max) ==> c == Params(1048576, 4194304, 16777216, 22, 20, 0, gear)
  {
    var s := if cfg.min <= 0 || cfg.normal <= 0 || cfg.max <= 0 then DEFAULT else cfg;
    var t := if s.min > s.normal || s.normal > s.max then DEFAULT else s;
    Params(t.min, t.normal, t.max,
           if t.strict <= 0 then 22 else t.strict,
           if t.loose <= 0 then 20 else t.loose,
           if t.relax < 0 then 0 else t.relax, gear)
  }

  // ---- the rolling fingerprint: 64-bit, shifted left by one and increased per byte ----

  const U64 := 0x1_0000_0000_0000_0000

  function Pow2(n: nat): (p: nat)
    ensures p > 0
  {
    if n == 0 then 1 else 2 * Pow2(n - 1)
  }

  function Roll(c: Params, fp: nat, b: byte): (r: nat) { (2 * fp + c.gear(b)) % U64 }

  /** The fingerprint after the first n bytes. */
  function Print(c: Params, data: Bytes, n: nat): (fp: nat)
    requires n <= |data|
  {
    if n == 0 then 0 else Roll(c, Print(c, data, n - 1), data[n - 1])
  }

  /** fp & mask == 0, where mask has its low `bits` bits set; 64 or more means all of them. */
  predicate Hits(fp: nat, bits: nat) { fp % Pow2(if bits < 64 then bits else 64) == 0 }

  /** The number of mask bits tested at offset i of a chunk. */
  function MaskBits(c: Params, i: nat): (bits: nat) {
    if i < c.normal then c.strict
    else if c.relax == 0 || i < (c.normal + c.max) / 2 then c.loose
    else c.relax
  }

  predicate CutsAt(c: Params, data: Bytes, i: nat)
    requires i < |data|
  {
    Hits(Print(c, data, i + 1), MaskBits(c, i))
  }

  /** The first cut at or after i, or the limit. */
  function FirstCut(c: Params, data: Bytes, i: nat, limit: nat): (cut: nat)
    requires i <= limit <= |data|
    ensures i <= cut <= limit && (i < limit ==> i < cut)
    decreases limit - i
  {
    if i == limit then limit
    else if CutsAt(c, data, i) then i + 1
    else FirstCut(c, data, i + 1, limit)
  }

  function Min(a: nat, b: nat): (r: nat) { if a < b then a else b }

  function Cut(c: Params, data: Bytes): (cut: nat)
    requires Usable(c)
    ensures cut <= |data| && cut <= c.max
    ensures |data| > 0 ==> cut > 0
    ensures cut < |data| ==> cut >= c.min
  {
    if |data| <= c.min then |data| else FirstCut(c, data, c.min, Min(|data|, c.max))
  }

  /** The reference: cut off one chunk after another. */
  function Segments(c: Params, data: Bytes): (s: seq<Bytes>)
    requires Usable(c)
  {
    if data == [] then [] else [data[..Cut(c, data)]] + Segments(c, data[Cut(c, data)..])
  }

  function Concat(s: seq<Bytes>): (b: Bytes) { if s == [] then [] else s[0] + Concat(s[1..]) }

  lemma {:induction false} ConcatAppend(s: seq<Bytes>, x: Bytes)
    ensures Concat(s + [x]) == Concat(s) + x
  {
    if s != [] {
      ConcatAppend(s[1..], x);
      assert (s + [x])[1..] == s[1..] + [x];
    }
  }

  /** The pieces join to the input, none exceeds max, and all but the last reach min. */
  lemma {:induction false} SegmentsPartition(c: Params, data: Bytes)
    requires Usable(c)
    ensures Concat(Segments(c, data)) == data
    ensures forall i :: 0 <= i < |Segments(c, data)| ==> 0 < |Segments(c, data)[i]| <= c.max
    ensures forall i :: 0 <= i < |Segments(c, data)| - 1 ==> |Segments(c, data)[i]| >= c.min
    decreases |data|
  {
    if data != [] {
      var cut := Cut(c, data);
      SegmentsPartition(c, data[cut..]);
      var t := Segments(c, data[cut..]);
      assert Segments(c, data) == [data[..cut]] + t;
      ConcatFirst(data[..cut], t);
      LastOnlyShort(c, data, cut, t);
    }
  }

  /** A short piece is the last one: there is nothing behind it. */
  lemma LastOnlyShort(c: Params, data: Bytes, cut: nat, t: seq<Bytes>)
    requires Usable(c) && data != [] && cut == Cut(c, data) && t == Segments(c, data[cut..])
    ensures |t| > 0 ==> cut >= c.min
  {
    if data[cut..] == [] { assert t == []; }
  }

  lemma ConcatFirst(x: Bytes, s: seq<Bytes>)
    ensures Concat([x] + s) == x + Concat(s)
  {
    assert ([x] + s)[1..] == s;
  }

  // ---- a cut depends only on the first max bytes ----

  lemma {:induction false} PrintPrefix(c: Params, data: Bytes, n: nat, l: nat)
    requires n <= l <= |data|
    ensures Print(c, data[..l], n) == Print(c, data, n)
  {
    if n > 0 {
      PrintPrefix(c, data, n - 1, l);
    }
  }

  lemma {:induction false} FirstCutPrefix(c: Params, data: Bytes, i: nat, limit: nat)
    requires i <= limit <= |data|
    ensures FirstCut(c, data[..limit], i, limit) == FirstCut(c, data, i, limit)
    decreases limit - i
  {
    if i < limit {
      PrintPrefix(c, data, i + 1, limit);
      FirstCutPrefix(c, data, i + 1, limit);
    }
  }

  /** A buffer holding max bytes, or all that is left, decides the next cut of the whole input. */
  lemma CutFromBuffer(c: Params, buf: Bytes, rest: Bytes)
    requires Usable(c) && (|buf| == c.max || rest == [])
    ensures Cut(c, buf) == Cut(c, buf + rest)
  {
    if rest == [] {
      assert buf + rest == buf;
    } else if |buf + rest| > c.min {
      FirstCutPrefix(c, buf + rest, c.min, c.max);
      assert (buf + rest)[..c.max] == buf;
    }
  }

  /** One scanning region of cutpoint: bytes lo..hi tested against one mask. */
  method ScanRegion(c: Params, data: Bytes, fp0: nat, lo: nat, hi: nat, bits: nat) returns (fp: nat, cut: nat)
    requires lo <= hi <= |data| && fp0 == Print(c, data, lo)
    requires forall i :: lo <= i < hi ==> MaskBits(c, i) == bits
    ensures cut == 0 ==> fp == Print(c, data, hi) && forall i :: lo <= i < hi ==> !CutsAt(c, data, i)
    ensures cut > 0 ==> lo < cut <= hi && CutsAt(c, data, cut - 1)
    ensures cut > 0 ==> forall i :: lo <= i < cut - 1 ==> !CutsAt(c, data, i)
  {
    fp := fp0;
    for i := lo to hi
      invariant fp == Print(c, data, i)
      invariant forall j :: lo <= j < i ==> !CutsAt(c, data, j)
    {
      fp := Roll(c, fp, data[i]);
      if Hits(fp, bits) {
        return fp, i + 1;
      }
    }
    cut := 0;
  }

  lemma {:induction false} FirstCutIs(c: Params, data: Bytes, i: nat, limit: nat, cut: nat)
    requires i < cut <= limit <= |data| && (cut < limit ==> CutsAt(c, data, cut - 1))
    requires forall j :: i <= j < cut - 1 ==> !CutsAt(c, data, j)
    ensures FirstCut(c, data, i, limit) == cut
    decreases limit - i
  {
    if i < cut - 1 {
      FirstCutIs(c, data, i + 1, limit, cut);
    } else if cut == limit {
      assert FirstCut(c, data, i + 1, limit) == limit;
    }
  }

  /** The fingerprint after byte i passes the test of its region: strict before the normal size, loose after
      it, and relaxed, if that is enabled, from halfway to the maximum on. */
  ghost predicate Passes(c: Params, data: Bytes, i: nat)
    requires i < |data|
  {
    var fp, halfway := Print(c, data, i + 1), (c.normal + c.max) / 2;
    || (i < c.normal && Hits(fp, c.strict))
    || (c.normal <= i && (c.relax == 0 || i < halfway) && Hits(fp, c.loose))
    || (c.normal <= i && c.relax > 0 && halfway <= i && Hits(fp, c.relax))
  }

  /** The chunk ends after the first byte from min on that passes, or at max, or with the data. */
  ghost predicate IsCutpoint(c: Params, data: Bytes, cut: nat) {
    if |data| <= c.min then cut == |data|
    else
      && cut <= Min(|data|, c.max) && (cut > c.min || cut == c.max)
      && (cut < Min(|data|, c.max) ==> cut > 0 && Passes(c, data, cut - 1))
      && (forall i :: c.min <= i < cut - 1 ==> !Passes(c, data, i))
  }

  lemma {:induction false} FirstCutPasses(c: Params, data: Bytes, i: nat, limit: nat)
    requires i <= limit <= |data|
    ensures var cut := FirstCut(c, data, i, limit);
      && (cut < limit ==> cut > 0 && Passes(c, data, cut - 1))
      && (forall j :: i <= j < cut - 1 ==> !Passes(c, data, j))
    decreases limit - i
  {
    if i < limit && !CutsAt(c, data, i) { FirstCutPasses(c, data, i + 1, limit); }
  }

  /** What the reference cuts off. */
  lemma CutMeans(c: Params, data: Bytes)
    requires Usable(c)
    ensures IsCutpoint(c, data, Cut(c, data))
  {
    if |data| > c.min { FirstCutPasses(c, data, c.min, Min(|data|, c.max)); }
  }

  /** cutpoint: warm up over min bytes, then three regions with ever easier masks. */
  method Cutpoint(c: Params, data: Bytes) returns (cut: nat)
    requires Usable(c)
    ensures cut == Cut(c, data)
  {
    var n := |data|;
    if n <= c.min {
      return n;
    }
    var limit := if n > c.max then c.max else n;
    var normal := if c.normal > limit then limit else c.normal;
    var relax := limit;
    if c.relax != 0 {
      relax := (c.normal + c.max) / 2;
      if relax > limit {
        relax := limit;
      }
      if relax < normal {
        relax := normal;
      }
    }
    var fp := 0;
    for i := 0 to c.min
      invariant fp == Print(c, data, i)
    {
      fp := Roll(c, fp, data[i]);
    }
    fp, cut := ScanRegion(c, data, fp, c.min, Max(c.min, normal), c.strict);
    if cut == 0 {
      fp, cut := ScanRegion(c, data, fp, Max(c.min, normal), relax, c.loose);
      if cut == 0 {
        fp, cut := ScanRegion(c, data, fp, relax, limit, c.relax);
        if cut == 0 {
          cut := limit;
        }
      }
    }
    if c.min < limit {
      FirstCutIs(c, data, c.min, limit, cut);
    }
  }

  function Max(a: nat, b: nat): (r: nat) { if a < b then b else a }

  // ---- the stream ----

  /** An io.Reader that makes progress and ends in EOF, and otherwise fragments at will. */
  class Source {
    var rest: Bytes

    constructor (body: Bytes)
      ensures rest == body
    {
      rest := body;
    }

    method Read(capacity: nat) returns (got: Bytes, eof: bool)
      requires capacity > 0
      modifies this
      ensures |got| <= capacity && old(rest) == got + rest
      ensures eof ==> rest == []
      ensures !eof ==> |got| > 0
    {
      if rest == [] {
        return [], true;
      }
      var n: nat :| 1 <= n <= capacity && n <= |rest|;
      got := rest[..n];
      rest := rest[n..];
      eof := *;
      if rest != [] {
        eof := false;
      }
    }
  }

  datatype NextResult = Piece(data: Bytes) | Eof

  class CDCReader {
    const src: Source
    const cfg: Params
    var buf: Bytes
    var done: bool

    ghost predicate Valid()
      reads this, src
    {
      Usable(cfg) && |buf| <= cfg.max && (done ==> src.rest == [])
    }

    /** What is still to be cut: the buffered bytes and the unread ones. */
    ghost function Content(): (b: Bytes)
      reads this, src
    {
      buf + src.rest
    }

    constructor (src: Source, cfg: Params)
      requires Usable(cfg)
      ensures Valid() && this.src == src && this.cfg == cfg && Content() == src.rest
    {
      this.src, this.cfg, this.buf, this.done := src, cfg, [], false;
    }

    /** fillBuf: read until max bytes are buffered or the source is exhausted. */
    method FillBuf() returns (eof: bool)
      requires Valid()
      modifies this, src
      ensures Valid() && Content() == old(Content())
      ensures |buf| == cfg.max || src.rest == []
      ensures eof ==> done
    {
      while !done && |buf| < cfg.max
        invariant Valid() && Content() == old(Content())
        decreases |src.rest|, !done
      {
        var got, atEnd := src.Read(cfg.max - |buf|);
        buf := buf + got;
        if atEnd {
          done := true;
          return true;
        }
      }
      return false;
    }

    /** Next: the next piece of the segmentation of what is left. */
    method Next() returns (r: NextResult)
      requires Valid()
      modifies this, src
      ensures Valid()
      ensures r.Eof? <==> old(Content()) == []
      ensures r.Eof? ==> Content() == []
      ensures r.Piece? ==> r.data == old(Content())[..Cut(cfg, old(Content()))]
      ensures r.Piece? ==> Content() == old(Content())[Cut(cfg, old(Content()))..]
    {
      ghost var whole := Content();
      var eof := FillBuf();
      if |buf| == 0 {
        return Eof;
      }
      CutFromBuffer(cfg, buf, src.rest);
      var cut := Cutpoint(cfg, buf);
      r := Piece(buf[..cut]);
      assert r.data == whole[..cut] && buf[cut..] + src.rest == whole[cut..];
      buf := buf[cut..];
    }
  }

  /** However the source fragments its reads, the pieces are the pure segmentation of its bytes. */
  method ReadAll(reader: CDCReader) returns (pieces: seq<Bytes>)
    requires reader.Valid()
    modifies reader, reader.src
    ensures pieces == Segments(reader.cfg, old(reader.Content()))
  {
    pieces := [];
    ghost var whole := reader.Content();
    while true
      invariant reader.Valid()
      invariant pieces + Segments(reader.cfg, reader.Content()) == Segments(reader.cfg, whole)
      decreases |reader.Content()|
    {
      ghost var before := reader.Content();
      var r := reader.Next();
      match r {
        case Eof => return;
        case Piece(data) =>
          NextSegment(reader.cfg, before, data, reader.Content());
          pieces := pieces + [data];
      }
    }
  }

  /** A cut-off piece is the first segment. */
  lemma NextSegment(c: Params, before: Bytes, data: Bytes, rest: Bytes)
    requires Usable(c) && before != [] && data == before[..Cut(c, before)] && rest == before[Cut(c, before)..]
    ensures Segments(c, before) == [data] + Segments(c, rest)
  {
  }

  // ---- shift resistance ----

  /** From any cut point on, the pieces are those of the remaining suffix alone. */
  lemma {:induction false} SegmentsAfterCut(c: Params, data: Bytes, i: nat)
    requires Usable(c) && i <= |Segments(c, data)|
    ensures |Concat(Segments(c, data)[..i])| <= |data|
    ensures Segments(c, data)[i..] == Segments(c, data[|Concat(Segments(c, data)[..i])|..])
    decreases i
  {
    if i == 0 {
      assert data[0..] == data;
    } else {
      var cut := Cut(c, data);
      var x, rest, segs := data[..cut], data[cut..], Segments(c, data);
      var t := Segments(c, rest);
      NextSegment(c, data, x, rest);
      SegmentsAfterCut(c, rest, i - 1);
      FirstAndRest(x, t, i);
      var k, n := |Concat(t[..i - 1])|, |Concat(segs[..i])|;
      assert n == cut + k && rest[k..] == data[n..];
      calc {
        segs[i..];
        t[i - 1..];
        Segments(c, rest[k..]);
        Segments(c, data[n..]);
      }
    }
  }

  lemma FirstAndRest(x: Bytes, t: seq<Bytes>, i: nat)
    requires 0 < i <= |t| + 1
    ensures ([x] + t)[i..] == t[i - 1..] && Concat(([x] + t)[..i]) == x + Concat(t[..i - 1])
  {
    assert ([x] + t)[..i] == [x] + t[..i - 1];
    ConcatFirst(x, t[..i - 1]);
  }

  /** Two inputs that share a suffix and both cut where it starts agree on every later piece. */
  lemma Resynchronizes(c: Params, a: Bytes, b: Bytes, i: nat, j: nat)
    requires Usable(c) && i <= |Segments(c, a)| && j <= |Segments(c, b)|
    requires |Concat(Segments(c, a)[..i])| <= |a| && |Concat(Segments(c, b)[..j])| <= |b|
    requires a[|Concat(Segments(c, a)[..i])|..] == b[|Concat(Segments(c, b)[..j])|..]
    ensures Segments(c, a)[i..] == Segments(c, b)[j..]
  {
    SegmentsAfterCut(c, a, i);
    SegmentsAfterCut(c, b, j);
  }

  // ---- the mask tests see a bounded window ----

  lemma {:induction false} MulMonotone(q: nat, a: nat, b: nat)
    requires a < b
    ensures q * a + q <= q * b
  {
    if b == a + 1 {
      assert q * (a + 1) == q * a + q;
    } else {
      MulMonotone(q, a, b - 1);
      assert q * b == q * (b - 1) + q;
    }
  }

  lemma QuotientsEqual(q: nat, d: nat, t: nat, k: nat, r: nat)
    requires q * d + t == q * k + r && r < q && t < q
    ensures t == r
  {
    if d > k {
      MulMonotone(q, k, d);
    } else if d < k {
      MulMonotone(q, d, k);
    }
  }

  lemma DivisionUnique(a: nat, q: nat, k: nat, r: nat)
    requires a == q * k + r && r < q
    ensures a % q == r
  {
    QuotientsEqual(q, a / q, a % q, k, r);
  }

  lemma ModDropsMultiples(a: nat, q: nat, k: nat, t: nat)
    requires q > 0 && a == q * k + t
    ensures a % q == t % q
  {
    var c, r := t / q, t % q;
    assert t == q * c + r;
    assert a == q * (k + c) + r;
    DivisionUnique(a, q, k + c, r);
  }

  lemma {:induction false} Pow2Add(m: nat, n: nat)
    ensures Pow2(m + n) == Pow2(m) * Pow2(n)
  {
    if m > 0 {
      Pow2Add(m - 1, n);
      assert 2 * (Pow2(m - 1) * Pow2(n)) == (2 * Pow2(m - 1)) * Pow2(n);
    }
  }

  lemma Pow2Of64()
    ensures Pow2(64) == U64
  {
    assert Pow2(8) == 256;
    Pow2Add(8, 8);
    Pow2Add(16, 16);
    Pow2Add(32, 32);
  }

  lemma ModOfMod(a: nat, u: nat, q: nat, h: nat)
    requires q > 0 && u > 0 && u == q * h
    ensures (a % u) % q == a % q
  {
    var m, t := a / u, a % u;
    MulRegroup(q, h, m);
    assert a == u * m + t;
    ModDropsMultiples(a, q, h * m, t);
  }

  lemma MulRegroup(q: nat, h: nat, m: nat)
    ensures (q * h) * m == q * (h * m)
  {
  }

  /** Every byte's gear value, shifted by the number of bytes after it. */
  function Shifted(c: Params, data: Bytes): (n: nat) {
    if data == [] then 0 else c.gear(data[0]) * Pow2(|data| - 1) + Shifted(c, data[1..])
  }

  lemma {:induction false} ShiftedAppend(c: Params, data: Bytes, b: byte)
    ensures Shifted(c, data + [b]) == 2 * Shifted(c, data) + c.gear(b)
  {
    if data == [] {
      assert [b][1..] == [];
    } else {
      assert (data + [b])[1..] == data[1..] + [b];
      ShiftedAppend(c, data[1..], b);
      assert Pow2(|data|) == 2 * Pow2(|data| - 1);
      TwiceProduct(c.gear(data[0]), Pow2(|data| - 1));
    }
  }

  lemma TwiceProduct(g: nat, p: nat)
    ensures g * (2 * p) == 2 * (g * p)
  {
  }

  /** The fingerprint is the sum of the shifted gear values in 64 bits. */
  lemma {:induction false} PrintIsSum(c: Params, data: Bytes, n: nat)
    requires n <= |data|
    ensures Print(c, data, n) == Shifted(c, data[..n]) % U64
  {
    if n > 0 {
      PrintIsSum(c, data, n - 1);
      assert data[..n] == data[..n - 1] + [data[n - 1]];
      ShiftedAppend(c, data[..n - 1], data[n - 1]);
      TwiceOfMod(Shifted(c, data[..n - 1]), c.gear(data[n - 1]));
    }
  }

  lemma TwiceOfMod(x: nat, g: nat)
    ensures (2 * (x % U64) + g) % U64 == (2 * x + g) % U64
  {
    var k, r := x / U64, x % U64;
    assert x == U64 * k + r;
    ModDropsMultiples(2 * x + g, U64, 2 * k, 2 * r + g);
  }

  /** Truncating to 64 bits does not change the low n bits. */
  lemma LowBitsSurvive(a: nat, n: nat)
    requires n <= 64
    ensures (a % U64) % Pow2(n) == a % Pow2(n)
  {
    Pow2Of64();
    Pow2Add(n, 64 - n);
    ModOfMod(a, U64, Pow2(n), Pow2(64 - n));
  }

  lemma DoubledPlus(x: nat, g: nat, p: nat)
    requires p > 0
    ensures (2 * x + g) % (2 * p) == (2 * (x % p) + g) % (2 * p)
  {
    var k, r := x / p, x % p;
    assert 2 * (p * k + r) + g == (2 * p) * k + (2 * r + g);
    ModDropsMultiples(2 * x + g, 2 * p, k, 2 * r + g);
  }

  /** A fingerprint that passes a mask passes every shorter one. */
  lemma HitsShorter(fp: nat, a: nat, b: nat)
    requires b <= a && Hits(fp, a)
    ensures Hits(fp, b)
  {
    var m, n := Min(a, 64), Min(b, 64);
    Pow2Add(n, m - n);
    ModOfMod(fp, Pow2(m), Pow2(n), Pow2(m - n));
  }

  lemma {:induction false} LaterFirstCut(c: Params, d: Params, data: Bytes, i: nat, limit: nat)
    requires i <= limit <= |data| && d == c.(normal := d.normal) && c.normal <= d.normal
    requires c.strict >= c.loose >= c.relax
    ensures FirstCut(c, data, i, limit) <= FirstCut(d, data, i, limit)
    decreases limit - i
  {
    if i < limit {
      LaterFirstCut(c, d, data, i + 1, limit);
      SamePrint(c, d, data, i + 1);
      if CutsAt(d, data, i) { HitsShorter(Print(c, data, i + 1), MaskBits(d, i), MaskBits(c, i)); }
    }
  }

  lemma {:induction false} SamePrint(c: Params, d: Params, data: Bytes, n: nat)
    requires n <= |data| && c.gear == d.gear
    ensures Print(c, data, n) == Print(d, data, n)
  {
    if n > 0 { SamePrint(c, d, data, n - 1); }
  }

  /** The point of the normal size: with masks that get easier past it, a larger one never cuts earlier. */
  lemma LargerNormalCutsLater(c: Params, d: Params, data: Bytes)
    requires Usable(c) && Usable(d) && d == c.(normal := d.normal) && c.normal <= d.normal
    requires c.strict >= c.loose >= c.relax
    ensures Cut(c, data) <= Cut(d, data)
  {
    if |data| > c.min { LaterFirstCut(c, d, data, c.min, Min(|data|, c.max)); }
  }

  /** Shifting in one common byte makes one more low bit agree. */
  lemma WindowStep(x: nat, y: nat, g: nat, n: nat)
    requires n < 64 && x % Pow2(n) == y % Pow2(n)
    ensures ((2 * x + g) % U64) % Pow2(n + 1) == ((2 * y + g) % U64) % Pow2(n + 1)
  {
    LowBitsSurvive(2 * x + g, n + 1);
    LowBitsSurvive(2 * y + g, n + 1);
    DoubledPlus(x, g, Pow2(n));
    DoubledPlus(y, g, Pow2(n));
  }

  lemma {:induction false} WindowDecides(c: Params, a: Bytes, i: nat, b: Bytes, j: nat, n: nat)
    requires n <= 64 && n <= i <= |a| && n <= j <= |b| && a[i - n..i] == b[j - n..j]
    ensures Print(c, a, i) % Pow2(n) == Print(c, b, j) % Pow2(n)
    decreases n
  {
    if n > 0 {
      assert a[i - 1] == a[i - n..i][n - 1] == b[j - n..j][n - 1] == b[j - 1];
      assert a[i - n..i - 1] == a[i - n..i][..n - 1] == b[j - n..j][..n - 1] == b[j - n..j - 1];
      WindowDecides(c, a, i - 1, b, j - 1, n - 1);
      WindowStep(Print(c, a, i - 1), Print(c, b, j - 1), c.gear(a[i - 1]), n - 1);
    }
  }

  /** A mask of b bits tests only the last b bytes (at most 64), once that many have been read. */
  lemma MaskSeesWindow(c: Params, a: Bytes, i: nat, b: Bytes, j: nat, bits: nat)
    requires var w := Min(bits, 64); w <= i <= |a| && w <= j <= |b| && a[i - w..i] == b[j - w..j]
    ensures Hits(Print(c, a, i), bits) <==> Hits(Print(c, b, j), bits)
  {
    WindowDecides(c, a, i, b, j, Min(bits, 64));
  }
}
