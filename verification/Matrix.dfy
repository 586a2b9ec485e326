/** internal/reedsolomon/matrix.go: byte matrices and their in-place algorithms.
    A matrix is a two-dimensional array; Value is its mathematical value. */
module Matrices {
  import opened GF
  import opened Linear
  import opened Elimination

  ghost function Value(a: array2<byte>): (m: Mat)
    reads a
    ensures IsMat(m, a.Length0, a.Length1)
    ensures forall r, c :: 0 <= r < a.Length0 && 0 <= c < a.Length1 ==> m[r][c] == a[r, c]
  {
    seq(a.Length0, r requires 0 <= r < a.Length0 reads a =>
      seq(a.Length1, c requires 0 <= c < a.Length1 reads a => a[r, c]))
  }

  lemma ValueIs(a: array2<byte>, m: Mat)
    requires IsMat(m, a.Length0, a.Length1)
    requires forall r, c :: 0 <= r < a.Length0 && 0 <= c < a.Length1 ==> a[r, c] == m[r][c]
    ensures Value(a) == m
  {
    forall r | 0 <= r < |m| ensures Value(a)[r] == m[r] {
      assert |Value(a)[r]| == |m[r]|;
    }
  }

  method SwapRows(w: array2<byte>, a: nat, b: nat)
    requires a < w.Length0 && b < w.Length0
    modifies w
    ensures Value(w) == old(Value(w)[a := Value(w)[b]][b := Value(w)[a]])
  {
    ghost var m := Value(w);
    if a != b {
      for i := 0 to w.Length1
        invariant forall r, c :: 0 <= r < w.Length0 && 0 <= c < w.Length1 ==>
          w[r, c] == if c < i && r == a then m[b][c] else if c < i && r == b then m[a][c] else m[r][c]
      {
        w[a, i], w[b, i] := w[b, i], w[a, i];
      }
    }
    ValueIs(w, m[a := m[b]][b := m[a]]);
  }

  /** Scale row c by inv, entry by entry. */
  method ScaleRow(w: array2<byte>, c: nat, inv: byte)
    requires c < w.Length0
    modifies w
    ensures Value(w) == old(Value(w)[c := Scaled(inv, Value(w)[c])])
  {
    ghost var m := Value(w);
    for cc := 0 to w.Length1
      invariant forall r, j :: 0 <= r < w.Length0 && 0 <= j < w.Length1 ==>
        w[r, j] == if r == c && j < cc then Mul(m[r][j], inv) else m[r][j]
    {
      w[c, cc] := Mul(w[c, cc], inv);
    }
    ValueIs(w, m[c := Scaled(inv, m[c])]);
  }

  /** Row r += factor * row c, entry by entry. */
  method AddScaledRow(w: array2<byte>, r: nat, c: nat, factor: byte)
    requires r < w.Length0 && c < w.Length0 && r != c
    modifies w
    ensures Value(w) == old(Value(w)[r := PlusScaled(Value(w)[r], factor, Value(w)[c])])
  {
    ghost var m := Value(w);
    for cc := 0 to w.Length1
      invariant forall i, j :: 0 <= i < w.Length0 && 0 <= j < w.Length1 ==>
        w[i, j] == if i == r && j < cc then Add(m[i][j], Mul(factor, m[c][j])) else m[i][j]
    {
      w[r, cc] := Add(w[r, cc], Mul(factor, w[c, cc]));
    }
    ValueIs(w, m[r := PlusScaled(m[r], factor, m[c])]);
  }

  // ---- Gauss-Jordan elimination ----

  datatype InvertResult = Inverted(inverse: array2<byte>) | NotSquare | Singular

  /** Columns before c are done, the pivot of c is 1, and rows before k are clear in column c. */
  ghost predicate Clearing(w: Mat, n: nat, c: nat, k: nat)
    requires c < n && IsMat(w, n, 2 * n)
  {
    && Reduced(w, n, c)
    && w[c][c] == 1
    && forall r :: 0 <= r < k && r < n && r != c ==> w[r][c] == 0
  }

  lemma ScaleStartsClearing(w: Mat, n: nat, c: nat)
    requires c < n && IsMat(w, n, 2 * n) && Reduced(w, n, c) && w[c][c] != 0
    ensures Inv(w[c][c]) != 0
    ensures Clearing(w[c := Scaled(Inv(w[c][c]), w[c])], n, c, 0)
  {
    InvCancels(w[c][c]);
  }

  lemma AddKeepsClearing(w: Mat, n: nat, c: nat, r: nat)
    requires c < n && r < n && r != c && IsMat(w, n, 2 * n) && Clearing(w, n, c, r)
    ensures Clearing(w[r := PlusScaled(w[r], w[r][c], w[c])], n, c, r + 1)
  {
    MulOne(w[r][c]);
    AddCancels(w[r][c], w[r][c]);
    var w' := w[r := PlusScaled(w[r], w[r][c], w[c])];
    forall i, j | 0 <= i < n && 0 <= j < c ensures w'[i][j] == if i == j then 1 else 0 {
      if i == r { assert w[c][j] == 0; }
    }
  }

  lemma ClearedIsReduced(w: Mat, n: nat, c: nat)
    requires c < n && IsMat(w, n, 2 * n) && Clearing(w, n, c, n)
    ensures Reduced(w, n, c + 1)
  {
  }

  /** Build [M | I]. */
  method Augment(m: array2<byte>) returns (aug: array2<byte>)
    requires m.Length0 == m.Length1
    ensures fresh(aug) && aug.Length0 == m.Length0 && aug.Length1 == 2 * m.Length0
    ensures Value(aug) == Augmented(Value(m))
  {
    var n := m.Length0;
    aug := new byte[n, 2 * n]((_, _) => 0);
    for r := 0 to n
      invariant forall i, j :: 0 <= i < n && 0 <= j < 2 * n ==>
        aug[i, j] == if i < r then Augmented(Value(m))[i][j] else 0
    {
      for c := 0 to n
        invariant forall i, j :: 0 <= i < n && 0 <= j < 2 * n ==>
          aug[i, j] == if i < r || (i == r && j < c) then Augmented(Value(m))[i][j] else 0
      {
        aug[r, c] := m[r, c];
      }
      aug[r, n + r] := 1;
    }
    ValueIs(aug, Augmented(Value(m)));
  }

  /** The first row below c with a nonzero entry in column c, or -1. */
  method FindPivot(aug: array2<byte>, c: nat) returns (pivot: int)
    requires c < aug.Length0 && c < aug.Length1
    ensures pivot == -1 ==> ZeroBelow(Value(aug), c, c + 1)
    ensures pivot != -1 ==> c < pivot < aug.Length0 && aug[pivot, c] != 0
    ensures pivot != -1 ==> forall r :: c < r < pivot ==> aug[r, c] == 0
  {
    for r := c + 1 to aug.Length0
      invariant forall i :: c < i < r ==> aug[i, c] == 0
    {
      if aug[r, c] != 0 {
        return r;
      }
    }
    return -1;
  }

  method ClearRow(aug: array2<byte>, n: nat, c: nat, r: nat, ghost w0: Mat)
    requires c < n && r < n && aug.Length0 == n && aug.Length1 == 2 * n && IsMat(w0, n, 2 * n)
    requires SameNull(Value(aug), w0, 2 * n) && Clearing(Value(aug), n, c, r)
    modifies aug
    ensures SameNull(Value(aug), w0, 2 * n) && Clearing(Value(aug), n, c, r + 1)
  {
    if r == c {
      return;
    }
    var factor := aug[r, c];
    if factor == 0 {
      return;
    }
    AddKeepsNull(Value(aug), 2 * n, r, c, factor, w0);
    AddKeepsClearing(Value(aug), n, c, r);
    AddScaledRow(aug, r, c, factor);
  }

  method ClearColumn(aug: array2<byte>, n: nat, c: nat, ghost w0: Mat)
    requires c < n && aug.Length0 == n && aug.Length1 == 2 * n && IsMat(w0, n, 2 * n)
    requires SameNull(Value(aug), w0, 2 * n) && Clearing(Value(aug), n, c, 0)
    modifies aug
    ensures SameNull(Value(aug), w0, 2 * n) && Reduced(Value(aug), n, c + 1)
  {
    for r := 0 to n
      invariant SameNull(Value(aug), w0, 2 * n) && Clearing(Value(aug), n, c, r)
    {
      ClearRow(aug, n, c, r, w0);
    }
    ClearedIsReduced(Value(aug), n, c);
  }

  lemma SwapKeepsReduced(w: Mat, n: nat, c: nat, p: nat)
    requires c <= p < n && IsMat(w, n, 2 * n) && Reduced(w, n, c)
    ensures Reduced(w[c := w[p]][p := w[c]], n, c)
  {
  }

  method SwapIntoPlace(aug: array2<byte>, n: nat, c: nat, p: nat, ghost w0: Mat)
    requires c <= p < n && aug.Length0 == n && aug.Length1 == 2 * n && IsMat(w0, n, 2 * n)
    requires Halfway(Value(aug), w0, n, c)
    modifies aug
    ensures Halfway(Value(aug), w0, n, c)
    ensures aug[c, c] == old(aug[p, c])
  {
    SwapKeepsNull(Value(aug), 2 * n, c, p, w0);
    SwapKeepsReduced(Value(aug), n, c, p);
    SwapRows(aug, c, p);
    assert aug[c, c] == Value(aug)[c][c];
  }

  /** Bring a nonzero entry to the diagonal; false when the column has none. */
  method EnsurePivot(aug: array2<byte>, n: nat, c: nat, ghost w0: Mat) returns (ok: bool)
    requires c < n && aug.Length0 == n && aug.Length1 == 2 * n && IsMat(w0, n, 2 * n)
    requires Halfway(Value(aug), w0, n, c)
    modifies aug
    ensures Halfway(Value(aug), w0, n, c)
    ensures if ok then aug[c, c] != 0 else ZeroBelow(Value(aug), c, c)
  {
    ok := aug[c, c] != 0;
    if !ok {
      ok := BringPivot(aug, n, c, w0);
    }
  }

  lemma ColumnEmpty(w: Mat, n: nat, c: nat)
    requires c < n && IsMat(w, n, 2 * n) && w[c][c] == 0 && ZeroBelow(w, c, c + 1)
    ensures ZeroBelow(w, c, c)
  {
  }

  /** The search below a zero diagonal entry, and the swap. */
  method BringPivot(aug: array2<byte>, n: nat, c: nat, ghost w0: Mat) returns (ok: bool)
    requires c < n && aug.Length0 == n && aug.Length1 == 2 * n && IsMat(w0, n, 2 * n)
    requires Halfway(Value(aug), w0, n, c) && aug[c, c] == 0
    modifies aug
    ensures Halfway(Value(aug), w0, n, c)
    ensures if ok then aug[c, c] != 0 else ZeroBelow(Value(aug), c, c)
  {
    var pivot := FindPivot(aug, c);
    ok := pivot >= 0;
    if ok {
      SwapIntoPlace(aug, n, c, pivot, w0);
    } else {
      ColumnEmpty(Value(aug), n, c);
    }
  }

  /** Scale the pivot row so that the diagonal is 1, then clear the rest of the column. */
  method ReduceColumn(aug: array2<byte>, n: nat, c: nat, ghost w0: Mat)
    requires c < n && aug.Length0 == n && aug.Length1 == 2 * n && IsMat(w0, n, 2 * n)
    requires Halfway(Value(aug), w0, n, c) && aug[c, c] != 0
    modifies aug
    ensures Halfway(Value(aug), w0, n, c + 1)
  {
    var inv := Inv(aug[c, c]);
    ScaleStartsClearing(Value(aug), n, c);
    ScaleKeepsNull(Value(aug), 2 * n, c, inv, w0);
    ScaleRow(aug, c, inv);
    ClearColumn(aug, n, c, w0);
  }

  /** invert: succeeds exactly on matrices with trivial kernel, and then inverts on both sides. */
  method Invert(m: array2<byte>) returns (res: InvertResult)
    ensures res.NotSquare? <==> m.Length0 != m.Length1
    ensures m.Length0 == m.Length1 ==> (res.Inverted? <==> TrivialKernel(Value(m), m.Length0))
    ensures res.Inverted? ==> res.inverse.Length0 == res.inverse.Length1 == m.Length0
    ensures res.Inverted? ==> IsInverse(Value(m), Value(res.inverse), m.Length0)
  {
    if m.Length0 != m.Length1 {
      return NotSquare;
    }
    var n := m.Length0;
    var aug := Augment(m);
    ghost var w0 := Augmented(Value(m));
    for c := 0 to n
      invariant Halfway(Value(aug), w0, n, c)
    {
      var ok := EnsurePivot(aug, n, c, w0);
      if !ok {
        MissingPivot(Value(m), Value(aug), n, c);
        return Singular;
      }
      ReduceColumn(aug, n, c, w0);
    }
    var out := CopyRightHalf(aug, n);
    InverseFromNull(Value(m), Value(aug), n);
    InverseKernel(Value(m), Value(out), n);
    return Inverted(out);
  }

  method CopyRightHalf(aug: array2<byte>, n: nat) returns (out: array2<byte>)
    requires aug.Length0 == n && aug.Length1 == 2 * n
    ensures out.Length0 == out.Length1 == n && Value(out) == RightHalf(Value(aug), n)
  {
    out := new byte[n, n]((_, _) => 0);
    for r := 0 to n
      invariant forall i, j :: 0 <= i < r && 0 <= j < n ==> out[i, j] == aug[i, n + j]
    {
      for c := 0 to n
        invariant forall i, j :: 0 <= i < r && 0 <= j < n ==> out[i, j] == aug[i, n + j]
        invariant forall j :: 0 <= j < c ==> out[r, j] == aug[r, n + j]
      {
        out[r, c] := aug[r, n + c];
      }
    }
    ValueIs(out, RightHalf(Value(aug), n));
  }

  // ---- products and row selection ----

  method Multiply(m: array2<byte>, other: array2<byte>) returns (out: array2<byte>)
    requires m.Length1 == other.Length0
    ensures out.Length0 == m.Length0 && out.Length1 == other.Length1
    ensures Value(out) == Product(Value(m), Value(other), other.Length1)
  {
    var rows, cols := m.Length0, other.Length1;
    out := new byte[rows, cols]((_, _) => 0);
    ghost var p := Product(Value(m), Value(other), cols);
    for r := 0 to rows
      invariant forall i, j :: 0 <= i < r && 0 <= j < cols ==> out[i, j] == p[i][j]
    {
      for c := 0 to cols
        invariant forall i, j :: 0 <= i < r && 0 <= j < cols ==> out[i, j] == p[i][j]
        invariant forall j :: 0 <= j < c ==> out[r, j] == p[r][j]
      {
        var sum := MultiplyEntry(m, other, r, c);
        out[r, c] := sum;
      }
    }
    ValueIs(out, p);
  }

  method MultiplyEntry(m: array2<byte>, other: array2<byte>, r: nat, c: nat) returns (sum: byte)
    requires m.Length1 == other.Length0 && r < m.Length0 && c < other.Length1
    ensures sum == Dot(Value(m)[r], Column(Value(other), c))
  {
    sum := 0;
    for k := 0 to m.Length1
      invariant sum == DotTo(Value(m)[r], Column(Value(other), c), k)
    {
      sum := Add(sum, Mul(m[r, k], other[k, c]));
    }
  }

  function RowsOf(m: Mat, idx: seq<nat>): (s: Mat)
    requires forall i :: 0 <= i < |idx| ==> idx[i] < |m|
  {
    seq(|idx|, i requires 0 <= i < |idx| => m[idx[i]])
  }

  method SubMatrix(m: array2<byte>, idx: seq<nat>) returns (out: array2<byte>)
    requires forall i :: 0 <= i < |idx| ==> idx[i] < m.Length0
    ensures out.Length0 == |idx| && out.Length1 == m.Length1
    ensures Value(out) == RowsOf(Value(m), idx)
  {
    out := new byte[|idx|, m.Length1]((_, _) => 0);
    for i := 0 to |idx|
      invariant forall r, c :: 0 <= r < i && 0 <= c < m.Length1 ==> out[r, c] == m[idx[r], c]
    {
      for c := 0 to m.Length1
        invariant forall r, j :: 0 <= r < i && 0 <= j < m.Length1 ==> out[r, j] == m[idx[r], j]
        invariant forall j :: 0 <= j < c ==> out[i, j] == m[idx[i], j]
      {
        out[i, c] := m[idx[i], c];
      }
    }
    ValueIs(out, RowsOf(Value(m), idx));
  }
}
