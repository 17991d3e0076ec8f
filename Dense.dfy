/** Dense real vectors and matrices (a matrix is a list of rows) and the
  * linear algebra the Laplacian solvers rely on: products, transposes,
  * unit vectors, and the operator with a boundary cut out. */
module Dense {
  import opened Csr

  ghost predicate IsMatrix(a: seq<seq<real>>, rows: nat, cols: nat) {
    |a| == rows && forall i :: 0 <= i < rows ==> |a[i]| == cols
  }

  /** The i-th unit vector of length n. */
  function Unit(n: nat, i: nat): (e: seq<real>)
    ensures |e| == n && forall r :: 0 <= r < n ==> e[r] == (if r == i then 1.0 else 0.0)
  {
    seq(n, r requires 0 <= r < n => if r == i then 1.0 else 0.0)
  }

  /** The identity matrix of order n. */
  function Identity(n: nat): (m: seq<seq<real>>)
    ensures IsMatrix(m, n, n) && forall i :: 0 <= i < n ==> m[i] == Unit(n, i)
  {
    seq(n, i requires 0 <= i < n => Unit(n, i))
  }

  /** `x[b] = 0.0`: x with the listed entries set to 0. */
  function Reset(x: seq<real>, b: seq<nat>): (y: seq<real>)
    ensures |y| == |x| && forall r :: 0 <= r < |x| ==> y[r] == (if r in b then 0.0 else x[r])
  {
    seq(|x|, r requires 0 <= r < |x| => if r in b then 0.0 else x[r])
  }

  function Sub(x: seq<real>, y: seq<real>): (d: seq<real>)
    requires |x| == |y|
    ensures |d| == |x| && forall r :: 0 <= r < |x| ==> d[r] == x[r] - y[r]
  {
    seq(|x|, r requires 0 <= r < |x| => x[r] - y[r])
  }

  function Column(a: seq<seq<real>>, j: nat): (c: seq<real>)
    requires forall i :: 0 <= i < |a| ==> j < |a[i]|
    ensures |c| == |a| && forall i :: 0 <= i < |a| ==> c[i] == a[i][j]
  {
    seq(|a|, i requires 0 <= i < |a| => a[i][j])
  }

  /** The transpose of a matrix with k columns. */
  function Transpose(a: seq<seq<real>>, k: nat): (t: seq<seq<real>>)
    requires forall i :: 0 <= i < |a| ==> |a[i]| == k
    ensures IsMatrix(t, k, |a|) && forall j :: 0 <= j < k ==> t[j] == Column(a, j)
  {
    seq(k, j requires 0 <= j < k => Column(a, j))
  }

  /** Dense matrix product of an r x k and a k x c matrix. */
  function MatMul(a: seq<seq<real>>, b: seq<seq<real>>, k: nat, c: nat): (m: seq<seq<real>>)
    requires forall i :: 0 <= i < |a| ==> |a[i]| == k
    requires IsMatrix(b, k, c)
    ensures IsMatrix(m, |a|, c)
    ensures forall i, j :: 0 <= i < |a| && 0 <= j < c ==> m[i][j] == Dot(a[i], Column(b, j))
  {
    seq(|a|, i requires 0 <= i < |a| =>
      seq(c, j requires 0 <= j < c => Dot(a[i], Column(b, j))))
  }

  /** The square matrix a with the rows and columns listed in b replaced by
    * those of the identity: the operator of a problem whose boundary is b. */
  function Cut(a: seq<seq<real>>, b: seq<nat>): (c: seq<seq<real>>)
    requires IsMatrix(a, |a|, |a|)
    ensures IsMatrix(c, |a|, |a|)
    ensures forall r, q :: 0 <= r < |a| && 0 <= q < |a| ==>
              c[r][q] == if r in b || q in b then (if r == q then 1.0 else 0.0) else a[r][q]
  {
    seq(|a|, r requires 0 <= r < |a| =>
      seq(|a|, q requires 0 <= q < |a| =>
        if r in b || q in b then (if r == q then 1.0 else 0.0) else a[r][q]))
  }

  /** A boundary row of the cut matrix is a row of the identity. */
  lemma CutBoundaryRow(a: seq<seq<real>>, b: seq<nat>, i: nat)
    requires IsMatrix(a, |a|, |a|) && i < |a| && i in b
    ensures Cut(a, b)[i] == Unit(|a|, i)
  {
    assert forall q :: 0 <= q < |a| ==> Cut(a, b)[i][q] == Unit(|a|, i)[q];
  }

  /** The system a x = rhs has a solution. */
  ghost predicate Solvable(a: seq<seq<real>>, rhs: seq<real>) {
    exists x :: IsMatrix(a, |a|, |x|) && MatVec(a, x) == rhs
  }

  /** The square matrix a has a solution for every right-hand side. */
  ghost predicate Nonsingular(a: seq<seq<real>>) {
    IsMatrix(a, |a|, |a|) && forall rhs {:trigger Solvable(a, rhs)} :: |rhs| == |a| ==> Solvable(a, rhs)
  }

  // ---------------------------------------------------------------------
  // Dot products

  /** Peeling the last coordinate off a dot product. */
  lemma DotLast(a: seq<real>, b: seq<real>)
    requires |a| == |b| > 0
    ensures Dot(a, b) == Dot(a[..|a| - 1], b[..|b| - 1]) + a[|a| - 1] * b[|b| - 1]
  {
    var m := |a| - 1;
    var a', b' := a[..m], b[..m];
    var p := seq(|a|, i requires 0 <= i < |a| => a[i] * b[i]);
    var q := seq(|a'|, i requires 0 <= i < |a'| => a'[i] * b'[i]);
    assert forall i :: 0 <= i < m ==> p[..m][i] == q[i];
    assert p[..m] == q;
    assert Dot(a, b) == Sum(p[..m]) + p[m];
  }

  /** Two dot products whose terms agree one by one are equal. */
  lemma DotTermwise(a: seq<real>, b: seq<real>, c: seq<real>, d: seq<real>)
    requires |a| == |b| == |c| == |d|
    requires forall i :: 0 <= i < |a| ==> a[i] * b[i] == c[i] * d[i]
    ensures Dot(a, b) == Dot(c, d)
  {
    var p := seq(|a|, i requires 0 <= i < |a| => a[i] * b[i]);
    var q := seq(|c|, i requires 0 <= i < |c| => c[i] * d[i]);
    assert forall i :: 0 <= i < |a| ==> p[i] == q[i];
    assert p == q;
  }

  /** The product of two vectors does not depend on their order. */
  lemma DotSymmetric(a: seq<real>, b: seq<real>)
    requires |a| == |b|
    ensures Dot(a, b) == Dot(b, a)
  {
    DotTermwise(a, b, b, a);
  }

  /** The dot product is linear in its first argument. */
  lemma {:induction false} DotLinear(r: seq<real>, x: seq<real>, y: seq<real>, al: real, be: real, v: seq<real>)
    requires |r| == |x| == |y| == |v|
    requires forall i :: 0 <= i < |r| ==> r[i] == al * x[i] + be * y[i]
    ensures Dot(r, v) == al * Dot(x, v) + be * Dot(y, v)
  {
    if |r| > 0 {
      var m := |r| - 1;
      DotLinear(r[..m], x[..m], y[..m], al, be, v[..m]);
      DotLast(r, v);
      DotLast(x, v);
      DotLast(y, v);
      assert r[m] * v[m] == al * (x[m] * v[m]) + be * (y[m] * v[m]);
    }
  }

  /** `Dot(x - y, v) == Dot(x, v) - Dot(y, v)`, in either argument. */
  lemma DotSub(x: seq<real>, y: seq<real>, v: seq<real>)
    requires |x| == |y| == |v|
    ensures Dot(Sub(x, y), v) == Dot(x, v) - Dot(y, v)
    ensures Dot(v, Sub(x, y)) == Dot(v, x) - Dot(v, y)
  {
    DotLinear(Sub(x, y), x, y, 1.0, -1.0, v);
    DotSymmetric(v, Sub(x, y));
    DotSymmetric(v, x);
    DotSymmetric(v, y);
  }

  /** A unit vector picks one entry out of the other vector. */
  lemma {:induction false} DotUnit(z: seq<real>, i: nat)
    requires i < |z|
    ensures Dot(Unit(|z|, i), z) == z[i]
    ensures Dot(z, Unit(|z|, i)) == z[i]
  {
    var m := |z| - 1;
    DotLast(Unit(|z|, i), z);
    if i == m {
      DotZero(Unit(|z|, i)[..m], z[..m]);
    } else {
      assert Unit(|z|, i)[..m] == Unit(m, i);
      DotUnit(z[..m], i);
    }
    DotSymmetric(z, Unit(|z|, i));
  }

  // ---------------------------------------------------------------------
  // Products of matrices and vectors

  /** Moving a matrix across a dot product transposes it:
    * x . (a y) == (a^T x) . y. */
  lemma {:induction false} DotMatVec(x: seq<real>, a: seq<seq<real>>, y: seq<real>)
    requires |x| == |a| && forall i :: 0 <= i < |a| ==> |a[i]| == |y|
    ensures Dot(x, MatVec(a, y)) == Dot(MatVec(Transpose(a, |y|), x), y)
  {
    var k := |y|;
    if |a| == 0 {
      var t := MatVec(Transpose(a, k), x);
      forall j | 0 <= j < k ensures t[j] == 0.0 {
        DotZero(Transpose(a, k)[j], x);
      }
      DotZero(t, y);
    } else {
      var m := |a| - 1;
      DotMatVec(x[..m], a[..m], y);
      assert Dot(x, MatVec(a, y)) == Dot(x[..m], MatVec(a[..m], y)) + x[m] * Dot(a[m], y) by {
        DotLast(x, MatVec(a, y));
        assert MatVec(a, y)[..m] == MatVec(a[..m], y);
      }
      TransposedLast(x, a, y);
    }
  }

  /** The last row of a adds x's last entry times that row to a^T x. */
  lemma TransposedLast(x: seq<real>, a: seq<seq<real>>, y: seq<real>)
    requires |x| == |a| > 0 && forall i :: 0 <= i < |a| ==> |a[i]| == |y|
    ensures Dot(MatVec(Transpose(a, |y|), x), y)
            == Dot(MatVec(Transpose(a[..|a| - 1], |y|), x[..|a| - 1]), y) + x[|a| - 1] * Dot(a[|a| - 1], y)
  {
    var k, m := |y|, |a| - 1;
    var t := MatVec(Transpose(a, k), x);
    var t' := MatVec(Transpose(a[..m], k), x[..m]);
    forall j | 0 <= j < k ensures t[j] == 1.0 * t'[j] + x[m] * a[m][j] {
      DotLast(Column(a, j), x);
      assert Column(a, j)[..m] == Column(a[..m], j);
    }
    DotLinear(t, t', a[m], 1.0, x[m], y);
  }

  /** `(y q) z == y (q z)`. */
  lemma MatMulVec(y: seq<seq<real>>, q: seq<seq<real>>, k: nat, c: nat, z: seq<real>)
    requires forall i :: 0 <= i < |y| ==> |y[i]| == k
    requires IsMatrix(q, k, c) && |z| == c
    ensures MatVec(MatMul(y, q, k, c), z) == MatVec(y, MatVec(q, z))
  {
    var p := MatMul(y, q, k, c);
    forall r | 0 <= r < |y| ensures Dot(p[r], z) == Dot(y[r], MatVec(q, z)) {
      forall j | 0 <= j < c ensures p[r][j] == MatVec(Transpose(q, c), y[r])[j] {
        DotSymmetric(y[r], Column(q, j));
      }
      assert p[r] == MatVec(Transpose(q, c), y[r]);
      DotMatVec(y[r], q, z);
    }
  }

  /** The identity leaves every vector as it is. */
  lemma IdentityVec(z: seq<real>)
    ensures MatVec(Identity(|z|), z) == z
  {
    forall i | 0 <= i < |z| ensures MatVec(Identity(|z|), z)[i] == z[i] {
      DotUnit(z, i);
    }
  }

  /** Cutting the boundary out commutes with transposition. */
  lemma CutTranspose(a: seq<seq<real>>, b: seq<nat>)
    requires IsMatrix(a, |a|, |a|)
    ensures Transpose(Cut(a, b), |a|) == Cut(Transpose(a, |a|), b)
  {
    var l, r := Transpose(Cut(a, b), |a|), Cut(Transpose(a, |a|), b);
    forall i | 0 <= i < |a| ensures l[i] == r[i] {
      assert forall q :: 0 <= q < |a| ==> l[i][q] == r[i][q];
    }
  }

  /** A zero row of the left factor gives a zero row of the product. */
  lemma MatMulZeroRow(a: seq<seq<real>>, b: seq<seq<real>>, k: nat, c: nat, i: nat)
    requires forall r :: 0 <= r < |a| ==> |a[r]| == k
    requires IsMatrix(b, k, c) && i < |a|
    requires forall q :: 0 <= q < k ==> a[i][q] == 0.0
    ensures forall j :: 0 <= j < c ==> MatMul(a, b, k, c)[i][j] == 0.0
  {
    forall j | 0 <= j < c ensures MatMul(a, b, k, c)[i][j] == 0.0 {
      DotZero(a[i], Column(b, j));
    }
  }
}
