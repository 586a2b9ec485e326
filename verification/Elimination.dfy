/** Why Gauss-Jordan elimination inverts: row operations keep the null space of [A | I].

    Everything the elimination in internal/reedsolomon/matrix.go has to remember about its input is
    one invariant, SameNull. Once the left half is the identity, it says x == R y exactly when
    y == A x, so R is a two-sided inverse; and when a pivot is missing it yields a kernel vector. */
module Elimination {
  import opened GF
  import opened Linear

  ghost predicate SameNull(w: Mat, w0: Mat, cols: nat)
    requires IsMat(w, |w|, cols) && IsMat(w0, |w0|, cols)
  {
    forall u: Vec :: |u| == cols ==> (Kills(w, u) <==> Kills(w0, u))
  }

  /** The first c columns are the first c unit columns. */
  ghost predicate Reduced(w: Mat, n: nat, c: nat)
    requires c <= n && IsMat(w, n, 2 * n)
  {
    forall r, j :: 0 <= r < n && 0 <= j < c ==> w[r][j] == if r == j then 1 else 0
  }

  /** c columns are done, and no row operation so far has changed the null space. */
  ghost predicate Halfway(w: Mat, w0: Mat, n: nat, c: nat)
    requires c <= n && IsMat(w, n, 2 * n) && IsMat(w0, n, 2 * n)
  {
    SameNull(w, w0, 2 * n) && Reduced(w, n, c)
  }

  /** Column c is zero from row lo on. */
  ghost predicate ZeroBelow(w: Mat, c: nat, lo: nat)
    requires forall r :: 0 <= r < |w| ==> c < |w[r]|
  {
    forall r :: lo <= r < |w| ==> w[r][c] == 0
  }

  function Augmented(a: Mat): (w: Mat) {
    seq(|a|, r requires 0 <= r < |a| => a[r] + Unit(|a|, r))
  }

  function RightHalf(w: Mat, n: nat): (m: Mat)
    requires IsMat(w, n, 2 * n)
  {
    seq(n, r requires 0 <= r < n => w[r][n..])
  }

  // ---- row operations ----

  lemma ScaleKeepsNull(w: Mat, cols: nat, c: nat, s: byte, w0: Mat)
    requires c < |w| && IsMat(w, |w|, cols) && IsMat(w0, |w0|, cols) && s != 0 && SameNull(w, w0, cols)
    ensures SameNull(w[c := Scaled(s, w[c])], w0, cols)
  {
    var w' := w[c := Scaled(s, w[c])];
    forall u: Vec | |u| == cols ensures Kills(w', u) <==> Kills(w, u) {
      DotScaled(s, w[c], u);
      MulNonzero(s, Dot(w[c], u));
      assert forall r | 0 <= r < |w| && r != c :: w'[r] == w[r];
      assert Dot(w'[c], u) == 0 <==> Dot(w[c], u) == 0;
    }
  }

  lemma AddKeepsNull(w: Mat, cols: nat, r: nat, c: nat, f: byte, w0: Mat)
    requires r < |w| && c < |w| && r != c
    requires IsMat(w, |w|, cols) && IsMat(w0, |w0|, cols) && SameNull(w, w0, cols)
    ensures SameNull(w[r := PlusScaled(w[r], f, w[c])], w0, cols)
  {
    var w' := w[r := PlusScaled(w[r], f, w[c])];
    forall u: Vec | |u| == cols ensures Kills(w', u) <==> Kills(w, u) {
      DotPlusScaled(w[r], f, w[c], u);
      assert forall i | 0 <= i < |w| && i != r :: w'[i] == w[i];
      assert Dot(w[c], u) == 0 ==> (Dot(w'[r], u) == 0 <==> Dot(w[r], u) == 0);
      assert w'[c] == w[c];
    }
  }

  lemma SwapKeepsNull(w: Mat, cols: nat, a: nat, b: nat, w0: Mat)
    requires a < |w| && b < |w|
    requires IsMat(w, |w|, cols) && IsMat(w0, |w0|, cols) && SameNull(w, w0, cols)
    ensures SameNull(w[a := w[b]][b := w[a]], w0, cols)
  {
    var w' := w[a := w[b]][b := w[a]];
    forall u: Vec | |u| == cols ensures Kills(w', u) <==> Kills(w, u) {
      assert forall r | 0 <= r < |w| && r != a && r != b :: w'[r] == w[r];
      assert w'[a] == w[b] && w'[b] == w[a];
    }
  }

  // ---- the end of the elimination ----

  lemma AugmentedKills(a: Mat, n: nat, x: Vec, y: Vec)
    requires IsMat(a, n, n) && |x| == n && |y| == n
    ensures Kills(Augmented(a), x + y) <==> y == Apply(a, x)
  {
    forall r | 0 <= r < n ensures Dot(Augmented(a)[r], x + y) == 0 <==> y[r] == Apply(a, x)[r] {
      DotToConcat(a[r], Unit(n, r), x, y, n);
      DotUnit(n, r, y);
      AddCancels(Dot(a[r], x), y[r]);
    }
  }

  lemma ReducedKills(w: Mat, n: nat, x: Vec, y: Vec)
    requires IsMat(w, n, 2 * n) && Reduced(w, n, n) && |x| == n && |y| == n
    ensures Kills(w, x + y) <==> x == Apply(RightHalf(w, n), y)
  {
    var right := RightHalf(w, n);
    forall r | 0 <= r < n ensures Dot(w[r], x + y) == 0 <==> x[r] == Apply(right, y)[r] {
      assert w[r] == Unit(n, r) + right[r];
      DotToConcat(Unit(n, r), right[r], x, y, n);
      DotUnit(n, r, x);
      AddCancels(x[r], Dot(right[r], y));
    }
  }

  lemma InverseFromNull(a: Mat, w: Mat, n: nat)
    requires IsMat(a, n, n) && IsMat(w, n, 2 * n) && Reduced(w, n, n)
    requires SameNull(w, Augmented(a), 2 * n)
    ensures IsInverse(a, RightHalf(w, n), n)
  {
    var right := RightHalf(w, n);
    forall v: Vec | |v| == n ensures Apply(a, Apply(right, v)) == v && Apply(right, Apply(a, v)) == v {
      var x, y := Apply(right, v), Apply(a, v);
      ReducedKills(w, n, x, v);
      AugmentedKills(a, n, x, v);
      ReducedKills(w, n, v, y);
      AugmentedKills(a, n, v, y);
    }
  }

  /** An invertible matrix has a trivial kernel. */
  lemma InverseKernel(a: Mat, b: Mat, n: nat)
    requires IsMat(a, n, n) && IsMat(b, n, n) && IsInverse(a, b, n)
    ensures TrivialKernel(a, n)
  {
    forall v: Vec | |v| == n && Kills(a, v) ensures v == Zero(n) {
      assert Apply(a, v) == Zero(n);
      ApplyZero(b, n);
    }
  }

  // ---- a missing pivot ----

  function KernelVector(w: Mat, n: nat, c: nat): (v: Vec)
    requires c < n && IsMat(w, n, 2 * n)
  {
    seq(2 * n, j requires 0 <= j < 2 * n => if j < c then w[j][c] else if j == c then 1 else 0)
  }

  lemma {:induction false} KernelDot(w: Mat, n: nat, c: nat, r: nat, k: nat)
    requires c < n && r < n && k <= 2 * n && IsMat(w, n, 2 * n) && Reduced(w, n, c)
    requires r >= c ==> w[r][c] == 0
    ensures DotTo(w[r], KernelVector(w, n, c), k) == if r < k <= c then w[r][c] else 0
  {
    if k > 0 {
      KernelDot(w, n, c, r, k - 1);
      MulOne(w[r][k - 1]);
      MulOne(KernelVector(w, n, c)[k - 1]);
      AddCancels(w[r][c], w[r][c]);
    }
  }

  lemma KilledByAugmented(a: Mat, n: nat, x: Vec)
    requires IsMat(a, n, n) && |x| == n && Kills(Augmented(a), x + Zero(n))
    ensures Kills(a, x)
  {
    AugmentedKills(a, n, x, Zero(n));
    forall r | 0 <= r < n ensures Dot(a[r], x) == 0 {
      assert Apply(a, x)[r] == Zero(n)[r];
    }
  }

  lemma KernelVectorKilled(w: Mat, n: nat, c: nat)
    requires c < n && IsMat(w, n, 2 * n) && Reduced(w, n, c)
    requires forall r :: c <= r < n ==> w[r][c] == 0
    ensures Kills(w, KernelVector(w, n, c))
  {
    forall r | 0 <= r < n ensures Dot(w[r], KernelVector(w, n, c)) == 0 {
      KernelDot(w, n, c, r, 2 * n);
    }
  }

  lemma MissingPivot(a: Mat, w: Mat, n: nat, c: nat)
    requires c < n && IsMat(a, n, n) && IsMat(w, n, 2 * n) && Reduced(w, n, c)
    requires SameNull(w, Augmented(a), 2 * n)
    requires ZeroBelow(w, c, c)
    ensures !TrivialKernel(a, n)
  {
    KernelVectorKilled(w, n, c);
    var u := KernelVector(w, n, c);
    var x := u[..n];
    assert u == x + Zero(n);
    KilledByAugmented(a, n, x);
    assert x[c] == 1;
  }
}
