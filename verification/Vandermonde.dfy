/** What the encoding matrix is meant to be. */
module Encodings {
  import opened Lists
  import opened GF
  import opened Linear
  import opened Matrices

  /** The Go conversion byte(r): counting up from 0, wrapping after 255. */
  function ByteOf(r: nat): (b: byte) { if r == 0 then 0 else ByteOf(r - 1) + 1 }

  function PowerRow(x: byte, cols: nat): (v: Vec) { seq(cols, c requires 0 <= c < cols => Pow(x, c)) }

  function Powers(rows: nat, cols: nat): (m: Mat)
    ensures IsMat(m, rows, cols)
  {
    seq(rows, r requires 0 <= r < rows => PowerRow(ByteOf(r), cols))
  }

  /** What the encoder relies on: a systematic code that tolerates any M erasures. */
  ghost predicate IsEncoding(e: Mat, k: nat, m: nat) {
    && IsMat(e, k + m, k)
    && e[..k] == Identity(k)
    && forall idx: seq<nat> :: IsChoice(idx, k, k + m) ==> TrivialKernel(RowsOf(e, idx), k)
  }

  /** k distinct row numbers below n. */
  ghost predicate IsChoice(idx: seq<nat>, k: nat, n: nat) {
    |idx| == k && NoRepeats(idx) && forall i :: 0 <= i < |idx| ==> idx[i] < n
  }

  /** Every choice of k of the first n rows is independent. */
  ghost predicate Independent(v: Mat, k: nat, n: nat)
    requires IsMat(v, n, k)
  {
    forall idx: seq<nat> :: IsChoice(idx, k, n) ==> TrivialKernel(RowsOf(v, idx), k)
  }

  /** The powers, multiplied by an inverse of their top square. */
  ghost predicate IsSystematic(e: Mat, k: nat, m: nat) {
    exists t: Mat :: SystematicVia(e, k, m, t)
  }

  ghost predicate SystematicVia(e: Mat, k: nat, m: nat, t: Mat) { MadeSystematic(Powers(k + m, k), e, k, t) }

  /** e is v multiplied by the inverse t of v's top square. */
  ghost predicate MadeSystematic(v: Mat, e: Mat, k: nat, t: Mat) {
    && IsMat(v, |v|, k) && k <= |v| && IsMat(t, k, k)
    && IsInverse(v[..k], t, k) && e == Product(v, t, k)
  }
}

/** Why any K rows of the encoding matrix are independent: a polynomial of degree below K with
    K distinct roots is zero. Covers vandermonde and makeSystematicEncoding of
    internal/reedsolomon/matrix.go. */
module Vandermonde {
  import opened Lists
  import opened Encodings
  import opened GF
  import opened Linear
  import opened Elimination
  import opened Matrices

  /** p[0] + p[1] y + p[2] y^2 + ... */
  function Eval(p: Vec, y: byte): (r: byte) {
    if p == [] then 0 else Add(p[0], Mul(y, Eval(p[1..], y)))
  }

  /** The quotient of p by (y - x). */
  function Quotient(p: Vec, x: byte): (q: Vec)
    ensures |q| == if |p| <= 1 then 0 else |p| - 1
  {
    if |p| <= 1 then [] else [Eval(p[1..], x)] + Quotient(p[1..], x)
  }

  ghost predicate AllZero(p: Vec) { forall i :: 0 <= i < |p| ==> p[i] == 0 }

  /** (y + x)(e + y q) + (a + x e) == a + y ((y + x) q + e), where + is XOR. */
  lemma DivisionStep(a: byte, x: byte, y: byte, q: byte, e: byte)
    ensures Add(Mul(Add(y, x), Add(e, Mul(y, q))), Add(a, Mul(x, e)))
         == Add(a, Mul(y, Add(Mul(Add(y, x), q), e)))
  {
    var s := Add(y, x);
    var t := Mul(s, Mul(y, q));
    calc {
      Add(Mul(s, Add(e, Mul(y, q))), Add(a, Mul(x, e)));
      { MulDistributes(s, e, Mul(y, q)); }
      Add(Add(Mul(s, e), t), Add(a, Mul(x, e)));
      { MulDistributesRight(e, y, x); }
      Add(Add(Add(Mul(y, e), Mul(x, e)), t), Add(a, Mul(x, e)));
      { Rearrange(Mul(y, e), Mul(x, e), t, a); }
      Add(a, Add(t, Mul(y, e)));
      { MulAssociates(s, y, q); MulAssociates(y, s, q); MulCommutes(s, y); }
      Add(a, Add(Mul(y, Mul(s, q)), Mul(y, e)));
      { MulDistributes(y, Mul(s, q), e); }
      Add(a, Mul(y, Add(Mul(s, q), e)));
    }
  }

  lemma Rearrange(ye: byte, xe: byte, t: byte, a: byte)
    ensures Add(Add(Add(ye, xe), t), Add(a, xe)) == Add(a, Add(t, ye))
  {
  }

  lemma {:induction false} Division(p: Vec, x: byte, y: byte)
    ensures Eval(p, y) == Add(Mul(Add(y, x), Eval(Quotient(p, x), y)), Eval(p, x))
  {
    if |p| > 1 {
      var t := p[1..];
      Division(t, x, y);
      assert Quotient(p, x)[1..] == Quotient(t, x);
      DivisionStep(p[0], x, y, Eval(Quotient(t, x), y), Eval(t, x));
    }
  }

  lemma {:induction false} QuotientZero(p: Vec, x: byte)
    requires Eval(p, x) == 0 && AllZero(Quotient(p, x))
    ensures AllZero(p)
  {
    if p != [] {
      var t := p[1..];
      if t != [] {
        assert Quotient(p, x)[0] == Eval(t, x);
        assert Quotient(t, x) == Quotient(p, x)[1..];
      }
      QuotientZero(t, x);
      assert p[0] == 0;
      forall i | 0 <= i < |p| ensures p[i] == 0 {
        if i > 0 { assert p[i] == t[i - 1]; }
      }
    }
  }

  /** A polynomial with at least as many distinct roots as coefficients is zero. */
  lemma {:induction false} RootCount(p: Vec, xs: seq<byte>)
    requires |xs| >= |p| && NoRepeats(xs)
    requires forall i :: 0 <= i < |xs| ==> Eval(p, xs[i]) == 0
    ensures AllZero(p)
    decreases |p|
  {
    if p != [] {
      var x, q := xs[0], Quotient(p, xs[0]);
      var ys := xs[1..];
      forall i | 0 <= i < |ys| ensures Eval(q, ys[i]) == 0 {
        Division(p, x, ys[i]);
        AddCancels(ys[i], x);
        MulNonzero(Add(ys[i], x), Eval(q, ys[i]));
      }
      RootCount(q, ys);
      QuotientZero(p, x);
    }
  }

  // ---- the matrix ----

  lemma {:induction false} ByteOfValue(r: nat)
    requires r < 256
    ensures ByteOf(r) as int == r && ByteOf(r) == r as byte
  {
    if r > 0 {
      ByteOfValue(r - 1);
      ByteSucc(ByteOf(r - 1));
    }
    assert (ByteOf(r) as int) as byte == ByteOf(r);
  }

  /** A row of powers evaluates a polynomial. */
  lemma {:induction false} PowerRowEvaluates(x: byte, p: Vec)
    ensures Dot(PowerRow(x, |p|), p) == Eval(p, x)
  {
    if p != [] {
      var t, k := p[1..], |p| - 1;
      var tail := seq(k, c requires 0 <= c < k => Pow(x, c + 1));
      forall c | 0 <= c < k ensures tail[c] == Mul(x, PowerRow(x, k)[c]) {
        PowStep(x, c);
      }
      assert PowerRow(x, |p|) == [Pow(x, 0)] + tail && p == [p[0]] + t;
      DotToConcat([Pow(x, 0)], tail, [p[0]], t, k);
      SingletonDot(x, p[0]);
      DotToScaled(tail, x, PowerRow(x, k), t, k);
      PowerRowEvaluates(x, t);
    }
  }

  lemma SingletonDot(x: byte, a: byte)
    ensures Dot([Pow(x, 0)], [a]) == a
  {
    PowStep(x, 0);
    MulOne(a);
    assert DotTo([Pow(x, 0)], [a], 1) == Add(DotTo([Pow(x, 0)], [a], 0), Mul(1, a));
  }

  /** Any K distinct rows of powers have only the zero vector in their kernel. */
  lemma PowersIndependent(rows: nat, k: nat, idx: seq<nat>)
    requires rows <= 256 && |idx| == k && NoRepeats(idx)
    requires forall i :: 0 <= i < k ==> idx[i] < rows
    ensures TrivialKernel(RowsOf(Powers(rows, k), idx), k)
  {
    var m := RowsOf(Powers(rows, k), idx);
    forall v: Vec | |v| == k && Kills(m, v) ensures v == Zero(k) {
      var xs := seq(k, i requires 0 <= i < k => ByteOf(idx[i]));
      forall i, j | 0 <= i < j < k ensures xs[i] != xs[j] {
        ByteOfValue(idx[i]);
        ByteOfValue(idx[j]);
      }
      forall i | 0 <= i < k ensures Eval(v, xs[i]) == 0 {
        PowerRowEvaluates(xs[i], v);
        assert Dot(m[i], v) == 0;
      }
      RootCount(v, xs);
    }
  }

  lemma RowsOfProduct(v: Mat, t: Mat, k: nat, idx: seq<nat>, d: Vec)
    requires IsMat(v, |v|, k) && IsMat(t, k, k) && |d| == k
    requires forall i :: 0 <= i < |idx| ==> idx[i] < |v|
    ensures Kills(RowsOf(Product(v, t, k), idx), d) <==> Kills(RowsOf(v, idx), Apply(t, d))
  {
    ApplyProduct(v, t, k, d);
    var p := Product(v, t, k);
    forall i | 0 <= i < |idx| ensures Dot(RowsOf(p, idx)[i], d) == Dot(RowsOf(v, idx)[i], Apply(t, d)) {
      assert Apply(p, d)[idx[i]] == Apply(v, Apply(t, d))[idx[i]];
    }
  }

  /** Multiplying on the right by an invertible matrix keeps any choice of K rows independent. */
  lemma ProductIndependent(v: Mat, t: Mat, tInv: Mat, k: nat, idx: seq<nat>)
    requires IsMat(v, |v|, k) && IsMat(t, k, k) && IsMat(tInv, k, k)
    requires forall i :: 0 <= i < |idx| ==> idx[i] < |v|
    requires TrivialKernel(RowsOf(v, idx), k) && IsInverse(t, tInv, k)
    ensures TrivialKernel(RowsOf(Product(v, tInv, k), idx), k)
  {
    var rows := RowsOf(Product(v, tInv, k), idx);
    forall d: Vec | |d| == k && Kills(rows, d) ensures d == Zero(k) {
      RowsOfProduct(v, tInv, k, idx, d);
      OnlyZeroToZero(t, tInv, k, d);
    }
  }

  /** An invertible matrix takes only zero to zero. */
  lemma OnlyZeroToZero(t: Mat, tInv: Mat, k: nat, d: Vec)
    requires IsMat(t, k, k) && IsMat(tInv, k, k) && IsInverse(t, tInv, k) && |d| == k && Apply(tInv, d) == Zero(k)
    ensures d == Zero(k)
  {
    ApplyZero(t, k);
    assert Apply(t, Apply(tInv, d)) == d;
  }

  lemma TopRowsIdentity(v: Mat, t: Mat, tInv: Mat, k: nat)
    requires IsMat(v, |v|, k) && k <= |v| && t == v[..k] && IsMat(tInv, k, k) && IsInverse(t, tInv, k)
    ensures Product(v, tInv, k)[..k] == Identity(k)
  {
    ProductIsIdentity(t, tInv, k);
    assert Product(v, tInv, k)[..k] == Product(t, tInv, k);
  }

  lemma AllPowersIndependent(n: nat, k: nat)
    requires n <= 256
    ensures Independent(Powers(n, k), k, n)
  {
    forall idx: seq<nat> | IsChoice(idx, k, n) ensures TrivialKernel(RowsOf(Powers(n, k), idx), k) {
      PowersIndependent(n, k, idx);
    }
  }

  lemma ProductIsEncoding(v: Mat, tInv: Mat, k: nat, m: nat)
    requires IsMat(v, k + m, k) && IsMat(tInv, k, k) && IsInverse(v[..k], tInv, k)
    requires Independent(v, k, k + m)
    ensures IsEncoding(Product(v, tInv, k), k, m)
  {
    TopRowsIdentity(v, v[..k], tInv, k);
    forall idx: seq<nat> | IsChoice(idx, k, k + m)
      ensures TrivialKernel(RowsOf(Product(v, tInv, k), idx), k)
    {
      ProductIndependent(v, v[..k], tInv, k, idx);
    }
  }

  lemma MadeIsEncoding(v: Mat, e: Mat, k: nat, m: nat, t: Mat)
    requires MadeSystematic(v, e, k, t) && |v| == k + m && Independent(v, k, k + m)
    ensures IsEncoding(e, k, m)
  {
    ProductIsEncoding(v, t, k, m);
  }

  // ---- the matrix is determined by K and M ----

  lemma InverseUnique(t: Mat, a: Mat, b: Mat, n: nat)
    requires IsMat(t, n, n) && IsMat(a, n, n) && IsMat(b, n, n)
    requires IsInverse(t, a, n) && IsInverse(t, b, n)
    ensures a == b
  {
    forall r | 0 <= r < n ensures a[r] == b[r] {
      forall c | 0 <= c < n ensures a[r][c] == b[r][c] {
        SameColumn(t, a, b, n, c);
        DotUnit(n, c, a[r]);
        DotUnit(n, c, b[r]);
        assert Apply(a, Unit(n, c))[r] == a[r][c] && Apply(b, Unit(n, c))[r] == b[r][c];
      }
    }
  }

  lemma SameColumn(t: Mat, a: Mat, b: Mat, n: nat, c: nat)
    requires IsMat(t, n, n) && IsMat(a, n, n) && IsMat(b, n, n) && c < n
    requires IsInverse(t, a, n) && IsInverse(t, b, n)
    ensures Apply(a, Unit(n, c)) == Apply(b, Unit(n, c))
  {
  }

  /** Two encoders for the same K and M share their matrix, so either decodes the other's shards. */
  lemma SystematicUnique(e: Mat, f: Mat, k: nat, m: nat)
    requires IsSystematic(e, k, m) && IsSystematic(f, k, m)
    ensures e == f
  {
    var s :| SystematicVia(e, k, m, s);
    var t :| SystematicVia(f, k, m, t);
    MadeUniquely(Powers(k + m, k), e, f, k, s, t);
  }

  lemma MadeUniquely(v: Mat, e: Mat, f: Mat, k: nat, s: Mat, t: Mat)
    requires MadeSystematic(v, e, k, s) && MadeSystematic(v, f, k, t)
    ensures e == f
  {
    InverseUnique(v[..k], s, t, k);
  }

  lemma TopIndependent(v: Mat, k: nat, n: nat)
    requires k <= n && IsMat(v, n, k) && Independent(v, k, n)
    ensures TrivialKernel(v[..k], k)
  {
    var idx: seq<nat> := seq(k, i requires 0 <= i < k => i);
    assert IsChoice(idx, k, n);
    assert RowsOf(v, idx) == v[..k];
  }

  method BuildPowers(rows: nat, cols: nat) returns (v: array2<byte>)
    ensures v.Length0 == rows && v.Length1 == cols && Value(v) == Powers(rows, cols)
  {
    v := new byte[rows, cols]((_, _) => 0);
    for r := 0 to rows
      invariant forall i, j :: 0 <= i < r && 0 <= j < cols ==> v[i, j] == Pow(ByteOf(i), j)
    {
      for c := 0 to cols
        invariant forall i, j :: 0 <= i < r && 0 <= j < cols ==> v[i, j] == Pow(ByteOf(i), j)
        invariant forall j :: 0 <= j < c ==> v[r, j] == Pow(ByteOf(r), j)
      {
        v[r, c] := Pow(ByteOf(r), c);
      }
    }
    ValueIs(v, Powers(rows, cols));
  }

  method CopyTop(v: array2<byte>, k: nat) returns (t: array2<byte>)
    requires k <= v.Length0 && k <= v.Length1
    ensures t.Length0 == t.Length1 == k
    ensures forall r, c :: 0 <= r < k && 0 <= c < k ==> t[r, c] == v[r, c]
  {
    t := new byte[k, k]((_, _) => 0);
    for r := 0 to k
      invariant forall i, j :: 0 <= i < r && 0 <= j < k ==> t[i, j] == v[i, j]
    {
      for c := 0 to k
        invariant forall i, j :: 0 <= i < r && 0 <= j < k ==> t[i, j] == v[i, j]
        invariant forall j :: 0 <= j < c ==> t[r, j] == v[r, j]
      {
        t[r, c] := v[r, c];
      }
    }
  }

  /** makeSystematicEncoding: never fails for K+M <= 256, and yields a code of distance M+1. */
  method MakeSystematicEncoding(k: nat, m: nat) returns (ok: bool, enc: array2<byte>)
    requires k + m <= 256
    ensures ok && enc.Length0 == k + m && enc.Length1 == k
    ensures IsEncoding(Value(enc), k, m) && IsSystematic(Value(enc), k, m)
  {
    var v := BuildPowers(k + m, k);
    var t := CopyTop(v, k);
    ValueIs(t, Value(v)[..k]);
    AllPowersIndependent(k + m, k);
    TopIndependent(Value(v), k, k + m);
    var inv := Invert(t);
    if !inv.Inverted? {
      assert false;
    }
    enc := Multiply(v, inv.inverse);
    MadeIsEncoding(Value(v), Value(enc), k, m, Value(inv.inverse));
    assert SystematicVia(Value(enc), k, m, Value(inv.inverse));
    ok := true;
  }
}
