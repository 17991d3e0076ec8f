/** What the emitting and absorbing evaluators share: the post-solve step
  * that clears the boundary entries of a solved column and sets the entry of
  * its own boundary node to 1, and the pieces of their Newton objectives. */
module BoundaryProblem {
  import opened Csr
  import opened Dense
  import opened Laplacian

  /** `col` is x with every entry listed in b set to 0, except the entry at
    * s, which is 1: the own node wins over the other boundary nodes. */
  ghost predicate Pinned(col: seq<real>, x: seq<real>, b: seq<nat>, s: nat)
  {
    && |col| == |x| && s < |x| && col[s] == 1.0
    && (forall i :: 0 <= i < |x| && i != s && i in b ==> col[i] == 0.0)
    && (forall i :: 0 <= i < |x| && i != s && i !in b ==> col[i] == x[i])
  }

  /** Column j of h is solution j, pinned at the boundary b with its own
    * node b[j]. */
  ghost predicate IsContext(h: seq<seq<real>>, b: seq<nat>, solutions: seq<seq<real>>)
  {
    |h| == |b| == |solutions| &&
    forall j :: 0 <= j < |b| ==> Pinned(h[j], solutions[j], b, b[j])
  }

  /** `H[:, j] = x; H[b, j] = 0.0; H[s, j] = 1.0`, on one column. */
  method PinColumn(x: seq<real>, b: seq<nat>, s: nat) returns (col: seq<real>)
    requires s < |x| && forall k :: 0 <= k < |b| ==> b[k] < |x|
    ensures Pinned(col, x, b, s)
  {
    var a := new real[|x|](i requires 0 <= i < |x| => x[i]);
    for k := 0 to |b|
      invariant forall i :: 0 <= i < |x| ==> a[i] == if i in b[..k] then 0.0 else x[i]
    {
      a[b[k]] := 0.0;
      assert b[..k + 1] == b[..k] + [b[k]];
    }
    assert b[..|b|] == b;
    a[s] := 1.0;
    col := a[..];
  }

  /** `numpy.max` of a non-empty sequence. */
  function Max(s: seq<real>): (m: real)
    requires |s| > 0
    ensures (forall i :: 0 <= i < |s| ==> s[i] <= m) && m in s
  {
    if |s| == 1 then s[0]
    else
      var m := Max(s[..|s| - 1]);
      if s[|s| - 1] > m then s[|s| - 1] else m
  }

  /** `x0 * mask / top`. */
  function Rescaled(mask: seq<real>, top: real, x0: real): (m: seq<real>)
    requires top != 0.0
    ensures |m| == |mask| && forall q :: 0 <= q < |mask| ==> m[q] == x0 * mask[q] / top
  {
    seq(|mask|, q requires 0 <= q < |mask| => x0 * mask[q] / top)
  }

  /** The data of a Newton objective over the damping: the pattern of W,
    * its normalized values, the dummy mask with its largest entry, the
    * boundary and the factorizer. */
  datatype Damping = Damping(n: nat, indptr: seq<int>, indices: seq<int>, diag: seq<int>,
                             base: seq<real>, mask: seq<real>, top: real,
                             boundary: seq<nat>, factorize: Factorizer)

  ghost predicate Damps(d: Damping)
  {
    && Shaped(d.n, d.indptr, d.indices)
    && |d.base| == |d.indices| && |d.mask| == |d.indices| && d.top != 0.0
    && (forall k :: 0 <= k < |d.boundary| ==> d.boundary[k] < d.n)
    && SolverShaped(d.factorize)
  }

  /** The transition values at damping x0: the mask rescaled so that its
    * largest entry becomes x0, times the normalized values. */
  function DampedTransition(d: Damping, x0: real): (t: seq<real>)
    requires Damps(d)
    ensures |t| == |d.indices|
  {
    Masked(Rescaled(d.mask, d.top, x0), d.base)
  }

  /** The basic operator built at damping x0 with the boundary cut out. */
  function DampedOperator(d: Damping, x0: real): CsrMatrix
    requires Damps(d)
  {
    BasicOperator(d.n, d.indptr, d.indices, d.diag, DampedTransition(d, x0), d.boundary)
  }

  /** The all-ones vector with the boundary entries cleared. */
  function Interior(n: nat, b: seq<nat>): (v: seq<real>)
    ensures |v| == n && forall i :: 0 <= i < n ==> v[i] == if i in b then 0.0 else 1.0
  {
    seq(n, i requires 0 <= i < n => if i in b then 0.0 else 1.0)
  }

  /** The solvers of a nonsingular operator and of its transpose are
    * adjoint: (L^-T a) . v == a . (L^-1 v). */
  lemma AdjointSolutions(factorize: Factorizer, m: CsrMatrix, a: seq<real>, v: seq<real>)
    requires Solves(factorize) && WellStored(m) && |a| == |v| == m.n
    requires Nonsingular(System(m, true)) && Nonsingular(System(m, false))
    ensures |factorize(m, true)(a)| == |factorize(m, false)(v)| == m.n
    ensures Dot(factorize(m, true)(a), v) == Dot(a, factorize(m, false)(v))
  {
    var x, y := factorize(m, true)(a), factorize(m, false)(v);
    SolvesSystem(factorize, m, true, a);
    SolvesSystem(factorize, m, false, v);
    DotMatVec(x, DenseOf(m), y);
  }

  /** Two vectors that agree wherever v is non-zero have the same product
    * with v. */
  lemma DotAgreeing(x: seq<real>, y: seq<real>, v: seq<real>)
    requires |x| == |y| == |v|
    requires forall i :: 0 <= i < |v| && v[i] != 0.0 ==> x[i] == y[i]
    ensures Dot(x, v) == Dot(y, v)
  {
    forall i | 0 <= i < |v| ensures x[i] * v[i] == y[i] * v[i] {
      if v[i] == 0.0 {
        assert x[i] * v[i] == 0.0 == y[i] * v[i];
      }
    }
    var px := seq(|x|, i requires 0 <= i < |x| => x[i] * v[i]);
    var py := seq(|y|, i requires 0 <= i < |y| => y[i] * v[i]);
    assert |px| == |py|;
    assert forall i :: 0 <= i < |px| ==> px[i] == py[i];
    assert px == py;
  }

  /** An interior row of the cut system of I - P: where row i of the cut
    * operator times x gives rhs[i], x[i] is the flow into i from the
    * interior plus rhs[i]. */
  lemma FirstStep(lap: seq<seq<real>>, p: seq<seq<real>>, b: seq<nat>, x: seq<real>, rhs: seq<real>, i: nat)
    requires IsMatrix(lap, |lap|, |lap|) && IsMatrix(p, |lap|, |lap|) && |x| == |lap| && |rhs| == |lap|
    requires forall k, c :: 0 <= k < |lap| && 0 <= c < |lap| ==> lap[k][c] == (if k == c then 1.0 else 0.0) - p[k][c]
    requires MatVec(Cut(lap, b), x) == rhs && i < |lap| && i !in b
    ensures x[i] == Dot(Reset(p[i], b), x) + rhs[i]
  {
    var n := |lap|;
    var row := Cut(lap, b)[i];
    assert row == Sub(Unit(n, i), Reset(p[i], b)) by {
      assert forall c :: 0 <= c < n ==> row[c] == Sub(Unit(n, i), Reset(p[i], b))[c];
    }
    assert MatVec(Cut(lap, b), x)[i] == Dot(row, x);
    DotSub(Unit(n, i), Reset(p[i], b), x);
    DotUnit(x, i);
  }

  /** A column pinned at the boundary, with 1 at its own node s, satisfies
    * the first-step equation of its solution x: where x[i] is the interior
    * flow along c plus c[s], the column's entry at i is its product with c. */
  lemma PinnedHarmonic(col: seq<real>, x: seq<real>, b: seq<nat>, s: nat, c: seq<real>, i: nat)
    requires Pinned(col, x, b, s) && s in b && |c| == |x| && i < |x| && i !in b
    requires x[i] == Dot(Reset(c, b), x) + c[s]
    ensures col[i] == Dot(col, c)
  {
    var n := |x|;
    DotLinear(col, Reset(x, b), Unit(n, s), 1.0, 1.0, c);
    DotTermwise(Reset(x, b), c, Reset(c, b), x);
    DotUnit(c, s);
  }

  /** The first-step equation carries over from the solution x to a column
    * that agrees with x off the boundary, whatever listing of the boundary
    * the equation uses. */
  lemma AbsorbedStep(col: seq<real>, x: seq<real>, b: seq<nat>, b': seq<nat>, c: seq<real>, e: real, r: nat)
    requires |col| == |x| == |c| && r < |x| && r !in b
    requires forall q :: q in b <==> q in b'
    requires forall q :: 0 <= q < |x| && q !in b ==> col[q] == x[q]
    requires x[r] == Dot(Reset(c, b), x) + e
    ensures col[r] == Dot(Reset(c, b'), col) + e
  {
    DotTermwise(Reset(c, b), x, Reset(c, b'), col);
  }

  /** A column that agrees, off the boundary b, with the solution of the
    * basic operator for column s of P (row s of P when transposed)
    * satisfies at every node r off the boundary the first-step equation
    * of the walks absorbed at b. */
  lemma TransientStep(n: nat, indptr: seq<int>, indices: seq<int>, diag: seq<int>, t: seq<real>,
                      b: seq<nat>, b': seq<nat>, factorize: Factorizer, tr: bool, s: nat, col: seq<real>, r: nat)
    requires Canonical(n, indptr, indices) && DiagonalIndex(n, indptr, indices, diag) && |t| == |indices|
    requires Solves(factorize) && Nonsingular(System(BasicOperator(n, indptr, indices, diag, t, b), tr))
    requires forall q :: q in b <==> q in b'
    requires s < n && r < n && r !in b && |col| == n
    requires forall q :: 0 <= q < n && q !in b ==>
               col[q] == factorize(BasicOperator(n, indptr, indices, diag, t, b), tr)(TransitionOf(n, indptr, indices, t, !tr)[s])[q]
    ensures col[r] == Dot(Reset(TransitionOf(n, indptr, indices, t, tr)[r], b'), col) + TransitionOf(n, indptr, indices, t, tr)[r][s]
  {
    var p := TransitionOf(n, indptr, indices, t, tr);
    var rhs := TransitionOf(n, indptr, indices, t, !tr)[s];
    var x := factorize(BasicOperator(n, indptr, indices, diag, t, b), tr)(rhs);
    BasicCutSolution(n, indptr, indices, diag, t, b, factorize, rhs, tr);
    UncutEntries(n, indptr, indices, diag, t, tr);
    FirstStep(System(CsrMatrix(n, indptr, indices, Finalized(t, diag)), tr), p, b, x, rhs, r);
    assert rhs[r] == p[r][s];
    AbsorbedStep(col, x, b, b', p[r], rhs[r], r);
  }

  // ---------------------------------------------------------------------
  // The antisink map of an analysis

  /** The antisink map with the names that are not nodes dropped, as the
    * `G.has_node` filter of the analyses does. */
  function OnNodes(antisinkMap: map<nat, real>, n: nat): (m: map<nat, real>)
    ensures forall i :: i in m <==> i in antisinkMap && i < n
    ensures forall i :: i in m ==> m[i] == antisinkMap[i]
  {
    map i | i in antisinkMap && i < n :: antisinkMap[i]
  }

  /** The excluded nodes of an analysis: the nodes whose antisink factor
    * is 0. */
  function Excluded(antisinkMap: map<nat, real>, n: nat): (e: set<nat>)
    ensures forall i :: i in e ==> i < n
  {
    set i | i in antisinkMap && i < n && antisinkMap[i] == 0.0
  }
}
