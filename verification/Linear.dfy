/** Linear algebra over GF(2^8), as mathematics: vectors and matrices are sequences.
    Matrix.dfy proves the code of internal/reedsolomon/matrix.go against these definitions. */
module Linear {
  import opened GF

  type Vec = seq<byte>
  type Mat = seq<Vec>

  ghost predicate IsMat(m: Mat, rows: nat, cols: nat) {
    |m| == rows && forall r :: 0 <= r < rows ==> |m[r]| == cols
  }

  /** The sum of the first n products of corresponding entries. */
  function DotTo(a: Vec, b: Vec, n: nat): (r: byte)
    requires n <= |a| && n <= |b|
  {
    if n == 0 then 0 else Add(DotTo(a, b, n - 1), Mul(a[n - 1], b[n - 1]))
  }

  function Dot(a: Vec, b: Vec): (r: byte)
    requires |a| == |b|
  {
    DotTo(a, b, |a|)
  }

  function Zero(n: nat): (v: Vec) { seq(n, _ => 0) }

  function Unit(n: nat, k: nat): (v: Vec) { seq(n, i => if i == k then 1 else 0) }

  function Identity(n: nat): (m: Mat) { seq(n, r requires 0 <= r < n => Unit(n, r)) }

  function Scaled(s: byte, v: Vec): (w: Vec) {
    seq(|v|, i requires 0 <= i < |v| => Mul(v[i], s))
  }

  function PlusScaled(a: Vec, s: byte, c: Vec): (w: Vec)
    requires |a| == |c|
  {
    seq(|a|, i requires 0 <= i < |a| => Add(a[i], Mul(s, c[i])))
  }

  function Apply(m: Mat, v: Vec): (w: Vec)
    requires IsMat(m, |m|, |v|)
  {
    seq(|m|, r requires 0 <= r < |m| => Dot(m[r], v))
  }

  function Column(m: Mat, c: nat): (v: Vec)
    requires forall r :: 0 <= r < |m| ==> c < |m[r]|
  {
    seq(|m|, r requires 0 <= r < |m| => m[r][c])
  }

  function Product(a: Mat, b: Mat, cols: nat): (m: Mat)
    requires IsMat(a, |a|, |b|) && IsMat(b, |b|, cols)
  {
    seq(|a|, r requires 0 <= r < |a| =>
      seq(cols, c requires 0 <= c < cols => Dot(a[r], Column(b, c))))
  }

  // ---- the dot product is bilinear ----

  lemma {:induction false} DotToExt(a: Vec, a': Vec, b: Vec, b': Vec, n: nat)
    requires n <= |a| && n <= |b| && n <= |a'| && n <= |b'|
    requires forall i :: 0 <= i < n ==> a[i] == a'[i] && b[i] == b'[i]
    ensures DotTo(a, b, n) == DotTo(a', b', n)
  {
    if n > 0 {
      DotToExt(a, a', b, b', n - 1);
    }
  }

  lemma {:induction false} DotToZero(a: Vec, b: Vec, n: nat)
    requires n <= |a| && n <= |b|
    requires forall i :: 0 <= i < n ==> a[i] == 0 || b[i] == 0
    ensures DotTo(a, b, n) == 0
  {
    if n > 0 {
      DotToZero(a, b, n - 1);
    }
  }

  lemma {:induction false} DotToCommutes(a: Vec, b: Vec, n: nat)
    requires n <= |a| && n <= |b|
    ensures DotTo(a, b, n) == DotTo(b, a, n)
  {
    if n > 0 {
      DotToCommutes(a, b, n - 1);
      MulCommutes(a[n - 1], b[n - 1]);
    }
  }

  lemma ScaledTerm(s: byte, x: byte, y: byte, d: byte)
    ensures Add(Mul(s, d), Mul(Mul(s, x), y)) == Mul(s, Add(d, Mul(x, y)))
  {
    MulAssociates(s, x, y);
    MulDistributes(s, d, Mul(x, y));
  }

  lemma SumTerm(b: byte, x: byte, y: byte, d: byte, e: byte)
    ensures Add(Add(d, e), Mul(Add(x, y), b)) == Add(Add(d, Mul(x, b)), Add(e, Mul(y, b)))
  {
    MulDistributesRight(b, x, y);
    AddSwap(d, e, Mul(x, b), Mul(y, b));
  }

  lemma {:induction false} DotToScaled(t: Vec, s: byte, c: Vec, b: Vec, n: nat)
    requires n <= |t| && n <= |c| && n <= |b|
    requires forall i :: 0 <= i < n ==> t[i] == Mul(s, c[i])
    ensures DotTo(t, b, n) == Mul(s, DotTo(c, b, n))
  {
    if n > 0 {
      DotToScaled(t, s, c, b, n - 1);
      ScaledTerm(s, c[n - 1], b[n - 1], DotTo(c, b, n - 1));
    }
  }

  lemma {:induction false} DotToSum(t: Vec, a: Vec, c: Vec, b: Vec, n: nat)
    requires n <= |t| && n <= |a| && n <= |c| && n <= |b|
    requires forall i :: 0 <= i < n ==> t[i] == Add(a[i], c[i])
    ensures DotTo(t, b, n) == Add(DotTo(a, b, n), DotTo(c, b, n))
  {
    if n > 0 {
      DotToSum(t, a, c, b, n - 1);
      SumTerm(b[n - 1], a[n - 1], c[n - 1], DotTo(a, b, n - 1), DotTo(c, b, n - 1));
    }
  }

  lemma DotScaled(s: byte, c: Vec, b: Vec)
    requires |c| == |b|
    ensures Dot(Scaled(s, c), b) == Mul(s, Dot(c, b))
  {
    forall i | 0 <= i < |c| ensures Scaled(s, c)[i] == Mul(s, c[i]) {
      MulCommutes(s, c[i]);
    }
    DotToScaled(Scaled(s, c), s, c, b, |c|);
  }

  lemma DotPlusScaled(a: Vec, s: byte, c: Vec, b: Vec)
    requires |a| == |c| == |b|
    ensures Dot(PlusScaled(a, s, c), b) == Add(Dot(a, b), Mul(s, Dot(c, b)))
  {
    var sc := Scaled(s, c);
    forall i | 0 <= i < |c| ensures PlusScaled(a, s, c)[i] == Add(a[i], sc[i]) {
      MulCommutes(s, c[i]);
    }
    DotToSum(PlusScaled(a, s, c), a, sc, b, |c|);
    DotScaled(s, c, b);
  }

  lemma {:induction false} DotToConcat(a: Vec, b: Vec, x: Vec, y: Vec, n: nat)
    requires |a| == |x| && n <= |b| && n <= |y|
    ensures DotTo(a + b, x + y, |a| + n) == Add(Dot(a, x), DotTo(b, y, n))
  {
    if n == 0 {
      DotToExt(a + b, a, x + y, x, |a|);
    } else {
      DotToConcat(a, b, x, y, n - 1);
      assert (a + b)[|a| + n - 1] == b[n - 1] && (x + y)[|a| + n - 1] == y[n - 1];
    }
  }

  lemma {:induction false} DotToUnit(n: nat, k: nat, y: Vec, i: nat)
    requires k < n == |y| && i <= n
    ensures DotTo(Unit(n, k), y, i) == if k < i then y[k] else 0
  {
    if i > 0 {
      DotToUnit(n, k, y, i - 1);
      MulOne(y[i - 1]);
    }
  }

  lemma DotUnit(n: nat, k: nat, y: Vec)
    requires k < n == |y|
    ensures Dot(Unit(n, k), y) == y[k] == Dot(y, Unit(n, k))
  {
    DotToUnit(n, k, y, n);
    DotToCommutes(Unit(n, k), y, n);
  }

  // ---- products compose maps ----

  lemma {:induction false} DotRowTimes(a: Vec, b: Mat, cols: nat, v: Vec, k: nat)
    requires |a| == |b| && IsMat(b, |b|, cols) && |v| == cols && k <= |a|
    ensures DotTo(seq(cols, c requires 0 <= c < cols => DotTo(a, Column(b, c), k)), v, cols)
         == DotTo(a, Apply(b, v), k)
  {
    var t := seq(cols, c requires 0 <= c < cols => DotTo(a, Column(b, c), k));
    if k == 0 {
      DotToZero(t, v, cols);
    } else {
      var p := seq(cols, c requires 0 <= c < cols => DotTo(a, Column(b, c), k - 1));
      DotRowTimes(a, b, cols, v, k - 1);
      assert t == PlusScaled(p, a[k - 1], b[k - 1]);
      DotPlusScaled(p, a[k - 1], b[k - 1], v);
    }
  }

  lemma ApplyProduct(a: Mat, b: Mat, cols: nat, v: Vec)
    requires IsMat(a, |a|, |b|) && IsMat(b, |b|, cols) && |v| == cols
    ensures Apply(Product(a, b, cols), v) == Apply(a, Apply(b, v))
  {
    var p := Product(a, b, cols);
    forall r | 0 <= r < |a| ensures Dot(p[r], v) == Dot(a[r], Apply(b, v)) {
      DotRowTimes(a[r], b, cols, v, |b|);
      assert p[r] == seq(cols, c requires 0 <= c < cols => DotTo(a[r], Column(b, c), |b|));
    }
  }

  /** A row that picks out coordinate k of every vector is the k-th unit row. */
  lemma RowIsUnit(row: Vec, k: nat)
    requires k < |row|
    requires forall v: Vec :: |v| == |row| ==> Dot(row, v) == v[k]
    ensures row == Unit(|row|, k)
  {
    forall i | 0 <= i < |row| ensures row[i] == Unit(|row|, k)[i] {
      DotUnit(|row|, i, row);
      assert Dot(row, Unit(|row|, i)) == Unit(|row|, i)[k];
    }
  }

  // ---- kernels, inverses and null spaces ----

  /** m maps u to zero. */
  ghost predicate Kills(m: Mat, u: Vec)
    requires IsMat(m, |m|, |u|)
  {
    forall r :: 0 <= r < |m| ==> Dot(m[r], u) == 0
  }

  ghost predicate TrivialKernel(m: Mat, n: nat)
    requires IsMat(m, |m|, n)
  {
    forall v: Vec :: |v| == n && Kills(m, v) ==> v == Zero(n)
  }

  ghost predicate IsInverse(a: Mat, b: Mat, n: nat)
    requires IsMat(a, n, n) && IsMat(b, n, n)
  {
    forall v: Vec :: |v| == n ==> Apply(a, Apply(b, v)) == v && Apply(b, Apply(a, v)) == v
  }

  lemma ApplyZero(m: Mat, n: nat)
    requires IsMat(m, |m|, n)
    ensures Apply(m, Zero(n)) == Zero(|m|)
  {
    forall r | 0 <= r < |m| ensures Dot(m[r], Zero(n)) == 0 {
      DotToZero(m[r], Zero(n), n);
    }
  }

  /** Inverse as maps is inverse as matrices: both products are the identity. */
  lemma InverseProducts(a: Mat, b: Mat, n: nat)
    requires IsMat(a, n, n) && IsMat(b, n, n) && IsInverse(a, b, n)
    ensures Product(a, b, n) == Identity(n) && Product(b, a, n) == Identity(n)
  {
    ProductIsIdentity(a, b, n);
    ProductIsIdentity(b, a, n);
  }

  lemma ProductRow(a: Mat, b: Mat, n: nat, r: nat)
    requires IsMat(a, n, n) && IsMat(b, n, n) && r < n
    requires forall v: Vec :: |v| == n ==> Apply(a, Apply(b, v)) == v
    ensures forall v: Vec :: |v| == n ==> Dot(Product(a, b, n)[r], v) == v[r]
  {
    forall v: Vec | |v| == n ensures Dot(Product(a, b, n)[r], v) == v[r] {
      ApplyProduct(a, b, n, v);
      assert Apply(Product(a, b, n), v)[r] == v[r];
    }
  }

  lemma ProductIsIdentity(a: Mat, b: Mat, n: nat)
    requires IsMat(a, n, n) && IsMat(b, n, n)
    requires forall v: Vec :: |v| == n ==> Apply(a, Apply(b, v)) == v
    ensures Product(a, b, n) == Identity(n)
  {
    var p := Product(a, b, n);
    forall r | 0 <= r < n ensures p[r] == Unit(n, r) {
      ProductRow(a, b, n, r);
      RowIsUnit(p[r], r);
    }
  }
}
