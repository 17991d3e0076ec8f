/** The discrete Laplacian L = I - P of a damped transition matrix P kept in
  * the CSR layout of its adjacency matrix, with boundary rows and columns
  * snapshotted and cut out, and lazily factorized solvers for L^T x = rhs
  * and L x = rhs. The sparse LU factorization and the dense inverse are
  * parameters of the model. */
module Laplacian {
  import opened Wrappers
  import opened Csr
  import opened Dense
  import opened AdjMatrix

  /** A CSR matrix handed to the sparse factorizer. */
  datatype CsrMatrix = CsrMatrix(n: nat, indptr: seq<int>, indices: seq<int>, data: seq<real>)

  /** A factorized system: maps a right-hand side to the solution. */
  type Solver = seq<real> -> seq<real>

  /** Sparse LU factorization; the flag asks for the factorization of the
    * transpose of the given matrix. */
  type Factorizer = (CsrMatrix, bool) -> Solver

  /** Dense matrix inverse; `None` stands for a singular matrix. */
  type Inverter = seq<seq<real>> -> Option<seq<seq<real>>>

  /** A solver returns a vector as long as the right-hand side. */
  ghost predicate SolverShaped(factorize: Factorizer) {
    forall m, t, rhs :: |factorize(m, t)(rhs)| == |rhs|
  }

  /** The inverse of a square matrix is square of the same order. */
  ghost predicate InverterShaped(invert: Inverter) {
    forall a :: invert(a).Some? ==> IsMatrix(invert(a).value, |a|, |a|)
  }

  // ---------------------------------------------------------------------
  // Value-level description of the construction steps

  /** Entry-wise product of the damping mask with the stored values. */
  function Masked(mask: seq<real>, v: seq<real>): (r: seq<real>)
    requires |mask| == |v|
    ensures |r| == |v| && forall p :: 0 <= p < |v| ==> r[p] == mask[p] * v[p]
  {
    seq(|v|, p requires 0 <= p < |v| => mask[p] * v[p])
  }

  /** Every stored entry whose row or column is a boundary index is 0. */
  function Zeroed(n: nat, indptr: seq<int>, indices: seq<int>, v: seq<real>, b: seq<nat>): (r: seq<real>)
    requires Shaped(n, indptr, indices) && |v| == |indices|
    ensures |r| == |v|
  {
    seq(|v|, p requires 0 <= p < |v| =>
      if RowOf(n, indptr, p) in b || indices[p] in b then 0.0 else v[p])
  }

  /** Negation of every stored value, plus 1 at the diagonal positions. */
  function Finalized(v: seq<real>, diag: seq<int>): (r: seq<real>)
    ensures |r| == |v|
  {
    seq(|v|, p requires 0 <= p < |v| => -v[p] + (if p in diag then 1.0 else 0.0))
  }

  /** The operator the basic variant assembles from the transition values
    * t and the boundary b: I - P with the boundary rows and columns of P cut
    * out. */
  function BasicOperator(n: nat, indptr: seq<int>, indices: seq<int>, diag: seq<int>,
                         t: seq<real>, b: seq<nat>): CsrMatrix
    requires Shaped(n, indptr, indices) && |t| == |indices|
  {
    CsrMatrix(n, indptr, indices, Finalized(Zeroed(n, indptr, indices, t, b), diag))
  }

  /** `dict(zip(s, range(len(s))))`: each index maps to its last position. */
  function IndexMap(s: seq<nat>): (m: map<nat, nat>)
    ensures forall i :: i in m <==> i in s
    ensures forall i :: i in m ==> m[i] < |s| && s[m[i]] == i
    ensures forall i, k :: i in m && m[i] < k < |s| ==> s[k] != i
  {
    if s == [] then map[] else IndexMap(s[..|s| - 1])[s[|s| - 1] := |s| - 1]
  }

  // ---------------------------------------------------------------------
  // Dense helpers

  /** `x[b]`: the entries of x (or the rows of a matrix) at the listed
    * indices. */
  function Gather<T>(x: seq<T>, b: seq<nat>): (z: seq<T>)
    requires forall k :: 0 <= k < |b| ==> b[k] < |x|
    ensures |z| == |b| && forall k :: 0 <= k < |b| ==> z[k] == x[b[k]]
  {
    seq(|b|, k requires 0 <= k < |b| => x[b[k]])
  }

  // ---------------------------------------------------------------------
  // In-place construction steps on the stored values

  /** `numpy.multiply(df_mask, L.data, L.data)`. */
  method ApplyMask(data: array<real>, mask: seq<real>)
    requires |mask| == data.Length
    modifies data
    ensures data[..] == Masked(mask, old(data[..]))
  {
    ghost var before := data[..];
    for p := 0 to data.Length
      invariant forall q :: 0 <= q < p ==> data[q] == mask[q] * before[q]
      invariant forall q :: p <= q < data.Length ==> data[q] == before[q]
    {
      data[p] := mask[p] * data[p];
    }
    assert forall q :: 0 <= q < data.Length ==> data[..][q] == Masked(mask, before)[q];
  }

  /** The dense copy of row i: a zero row into which the stored values of
    * row i are written by column. */
  method ExtractRow(n: nat, indptr: seq<int>, indices: seq<int>, v: seq<real>, i: nat)
    returns (row: seq<real>)
    requires Shaped(n, indptr, indices) && |v| == |indices| && i < n
    ensures row == DenseRow(n, indptr, indices, v, i)
  {
    row := Zeros(n);
    var lo, hi := indptr[i], indptr[i + 1];
    for p := lo to hi
      invariant |row| == n
      invariant forall c :: 0 <= c < n ==> row[c] == LastIn(indices, v, lo, p, c)
    {
      row := row[indices[p] := v[p]];
    }
  }

  function Clip(lo: int, hi: int, p: int): int {
    if p < lo then lo else if p > hi then hi else p
  }

  /** The dense copy of column j: every stored position whose column is j
    * writes its value at the row found by binary search on `indptr`. */
  method ExtractColumn(n: nat, indptr: seq<int>, indices: seq<int>, v: seq<real>, j: nat)
    returns (col: seq<real>)
    requires Shaped(n, indptr, indices) && |v| == |indices|
    ensures col == DenseCol(n, indptr, indices, v, j)
  {
    col := Zeros(n);
    for p := 0 to |indices|
      invariant |col| == n
      invariant forall r :: 0 <= r < n ==>
        col[r] == LastIn(indices, v, indptr[r], Clip(indptr[r], indptr[r + 1], p), j)
    {
      var row := RowOf(n, indptr, p);
      forall r | 0 <= r < n && r != row
        ensures Clip(indptr[r], indptr[r + 1], p + 1) == Clip(indptr[r], indptr[r + 1], p)
      {
        if r < row {
          assert indptr[r + 1] <= indptr[row];
        } else {
          assert indptr[row + 1] <= indptr[r];
        }
      }
      if indices[p] == j {
        col := col[row := v[p]];
      }
    }
  }

  ghost predicate OnBoundary(n: nat, indptr: seq<int>, indices: seq<int>, p: int, b: seq<nat>)
    requires Shaped(n, indptr, indices) && 0 <= p < |indices|
  {
    RowOf(n, indptr, p) in b || indices[p] in b
  }

  /** The dense copies of the listed rows, in order. */
  method ExtractRows(n: nat, indptr: seq<int>, indices: seq<int>, v: seq<real>, b: seq<nat>)
    returns (rows: seq<seq<real>>)
    requires Shaped(n, indptr, indices) && |v| == |indices|
    requires forall k :: 0 <= k < |b| ==> b[k] < n
    ensures |rows| == |b| && forall k :: 0 <= k < |b| ==> rows[k] == DenseRow(n, indptr, indices, v, b[k])
  {
    rows := [];
    for k := 0 to |b|
      invariant |rows| == k
      invariant forall q :: 0 <= q < k ==> rows[q] == DenseRow(n, indptr, indices, v, b[q])
    {
      var row := ExtractRow(n, indptr, indices, v, b[k]);
      rows := rows + [row];
    }
  }

  /** The dense copies of the listed columns, in order. */
  method ExtractColumns(n: nat, indptr: seq<int>, indices: seq<int>, v: seq<real>, b: seq<nat>)
    returns (cols: seq<seq<real>>)
    requires Shaped(n, indptr, indices) && |v| == |indices|
    ensures |cols| == |b| && forall k :: 0 <= k < |b| ==> cols[k] == DenseCol(n, indptr, indices, v, b[k])
  {
    cols := [];
    for k := 0 to |b|
      invariant |cols| == k
      invariant forall q :: 0 <= q < k ==> cols[q] == DenseCol(n, indptr, indices, v, b[q])
    {
      var col := ExtractColumn(n, indptr, indices, v, b[k]);
      cols := cols + [col];
    }
  }

  /** Zeroes the stored row i, then every stored entry of column i. */
  method ZeroIndex(data: array<real>, n: nat, indptr: seq<int>, indices: seq<int>, i: nat)
    requires Shaped(n, indptr, indices) && data.Length == |indices| && i < n
    modifies data
    ensures forall q :: 0 <= q < data.Length ==>
      data[q] == (if RowOf(n, indptr, q) == i || indices[q] == i then 0.0 else old(data[q]))
  {
    ghost var before := data[..];
    for p := indptr[i] to indptr[i + 1]
      invariant forall q :: 0 <= q < data.Length ==>
        data[q] == (if indptr[i] <= q < p then 0.0 else before[q])
    {
      data[p] := 0.0;
    }
    for p := 0 to data.Length
      invariant forall q :: 0 <= q < data.Length ==>
        data[q] == (if (indptr[i] <= q < indptr[i + 1]) || (q < p && indices[q] == i) then 0.0 else before[q])
    {
      if indices[p] == i {
        data[p] := 0.0;
      }
    }
    forall q | 0 <= q < data.Length
      ensures (indptr[i] <= q < indptr[i + 1]) <==> RowOf(n, indptr, q) == i
    {
      if indptr[i] <= q < indptr[i + 1] {
        RowOfUnique(n, indptr, indices, i, q);
      }
    }
  }

  /** Zeroes the rows and the columns of every index in b, one index at a
    * time. */
  method ZeroBoundary(data: array<real>, n: nat, indptr: seq<int>, indices: seq<int>, b: seq<nat>)
    requires Shaped(n, indptr, indices) && data.Length == |indices|
    requires forall k :: 0 <= k < |b| ==> b[k] < n
    modifies data
    ensures data[..] == Zeroed(n, indptr, indices, old(data[..]), b)
  {
    ghost var before := data[..];
    for t := 0 to |b|
      invariant forall p :: 0 <= p < data.Length ==>
        data[p] == (if OnBoundary(n, indptr, indices, p, b[..t]) then 0.0 else before[p])
    {
      ZeroIndex(data, n, indptr, indices, b[t]);
      assert b[..t + 1] == b[..t] + [b[t]];
    }
    assert b[..|b|] == b;
    assert forall p :: 0 <= p < data.Length ==> data[..][p] == Zeroed(n, indptr, indices, before, b)[p];
  }

  /** `L.data *= -1.0`, then `L.data[diagonal_ix] += 1.0`. */
  method NegateAddIdentity(data: array<real>, n: nat, indptr: seq<int>, indices: seq<int>, diag: seq<int>)
    requires Shaped(n, indptr, indices) && DiagonalIndex(n, indptr, indices, diag)
    requires data.Length == |indices|
    modifies data
    ensures data[..] == Finalized(old(data[..]), diag)
  {
    ghost var before := data[..];
    for p := 0 to data.Length
      invariant forall q :: 0 <= q < p ==> data[q] == -1.0 * before[q]
      invariant forall q :: p <= q < data.Length ==> data[q] == before[q]
    {
      data[p] := -1.0 * data[p];
    }
    for i := 0 to n
      invariant forall q :: 0 <= q < data.Length ==>
        data[q] == -before[q] + (if q in diag[..i] then 1.0 else 0.0)
    {
      assert DiagonalAt(indptr, indices, diag, i);
      forall k | 0 <= k < i ensures diag[k] != diag[i] {
        DiagonalDistinct(n, indptr, indices, diag, k, i);
      }
      assert diag[..i + 1] == diag[..i] + [diag[i]];
      data[diag[i]] := data[diag[i]] + 1.0;
    }
    assert diag[..n] == diag;
  }

  // ---------------------------------------------------------------------
  // Entries of the constructed operator

  /** Negating and adding the identity acts entry by entry on the dense
    * matrix. */
  lemma FinalizedEntry(n: nat, indptr: seq<int>, indices: seq<int>, diag: seq<int>, v: seq<real>, r: nat, c: nat)
    requires Canonical(n, indptr, indices) && DiagonalIndex(n, indptr, indices, diag)
    requires |v| == |indices| && r < n
    ensures Entry(n, indptr, indices, Finalized(v, diag), r, c)
            == -Entry(n, indptr, indices, v, r, c) + (if r == c then 1.0 else 0.0)
  {
    var f := Finalized(v, diag);
    if p :| indptr[r] <= p < indptr[r + 1] && indices[p] == c {
      EntryAt(n, indptr, indices, f, r, p);
      EntryAt(n, indptr, indices, v, r, p);
      RowOfUnique(n, indptr, indices, r, p);
      DiagonalPositions(n, indptr, indices, diag, p);
    } else {
      EntryAbsent(n, indptr, indices, f, r, c);
      EntryAbsent(n, indptr, indices, v, r, c);
      assert DiagonalAt(indptr, indices, diag, r);
    }
  }

  /** Zeroing the boundary clears exactly the dense entries in a boundary
    * row or a boundary column. */
  lemma ZeroedEntry(n: nat, indptr: seq<int>, indices: seq<int>, v: seq<real>, b: seq<nat>, r: nat, c: nat)
    requires Canonical(n, indptr, indices) && |v| == |indices| && r < n
    ensures Entry(n, indptr, indices, Zeroed(n, indptr, indices, v, b), r, c)
            == if r in b || c in b then 0.0 else Entry(n, indptr, indices, v, r, c)
  {
    var z := Zeroed(n, indptr, indices, v, b);
    if p :| indptr[r] <= p < indptr[r + 1] && indices[p] == c {
      EntryAt(n, indptr, indices, z, r, p);
      EntryAt(n, indptr, indices, v, r, p);
      RowOfUnique(n, indptr, indices, r, p);
    } else {
      EntryAbsent(n, indptr, indices, z, r, c);
      EntryAbsent(n, indptr, indices, v, r, c);
    }
  }

  /** After construction every boundary row and every boundary column of
    * the Laplacian is the corresponding row or column of the identity. */
  lemma BoundaryIsIdentity(n: nat, indptr: seq<int>, indices: seq<int>, diag: seq<int>,
                           t: seq<real>, b: seq<nat>, i: nat)
    requires Canonical(n, indptr, indices) && DiagonalIndex(n, indptr, indices, diag)
    requires |t| == |indices| && i < n && i in b
    ensures DenseRow(n, indptr, indices, Finalized(Zeroed(n, indptr, indices, t, b), diag), i) == Unit(n, i)
    ensures DenseCol(n, indptr, indices, Finalized(Zeroed(n, indptr, indices, t, b), diag), i) == Unit(n, i)
  {
    var z := Zeroed(n, indptr, indices, t, b);
    var l := Finalized(z, diag);
    forall c | 0 <= c < n
      ensures Entry(n, indptr, indices, l, i, c) == Unit(n, i)[c]
      ensures Entry(n, indptr, indices, l, c, i) == Unit(n, i)[c]
    {
      FinalizedEntry(n, indptr, indices, diag, z, i, c);
      ZeroedEntry(n, indptr, indices, t, b, i, c);
      FinalizedEntry(n, indptr, indices, diag, z, c, i);
      ZeroedEntry(n, indptr, indices, t, b, c, i);
    }
  }

  /** `get_boundary_row` of the full-graph variant: row i of L negated,
    * plus 1 at the diagonal. */
  function RebuiltRow(n: nat, indptr: seq<int>, indices: seq<int>, l: seq<real>, i: nat): (row: seq<real>)
    requires Shaped(n, indptr, indices) && |l| == |indices| && i < n
    ensures |row| == n
  {
    var dense := DenseRow(n, indptr, indices, l, i);
    seq(n, c requires 0 <= c < n => -dense[c] + (if c == i then 1.0 else 0.0))
  }

  /** `get_boundary_col` of the full-graph variant: column j of L negated,
    * plus 1 at the diagonal. */
  function RebuiltCol(n: nat, indptr: seq<int>, indices: seq<int>, l: seq<real>, j: nat): (col: seq<real>)
    requires Shaped(n, indptr, indices) && |l| == |indices|
    ensures |col| == n
  {
    var dense := DenseCol(n, indptr, indices, l, j);
    seq(n, r requires 0 <= r < n => -dense[r] + (if r == j then 1.0 else 0.0))
  }

  /** Without a boundary cut, the rebuilt row and column i of L = I - P
    * are row and column i of P. */
  lemma TransitionRecovered(n: nat, indptr: seq<int>, indices: seq<int>, diag: seq<int>, t: seq<real>, i: nat)
    requires Canonical(n, indptr, indices) && DiagonalIndex(n, indptr, indices, diag)
    requires |t| == |indices| && i < n
    ensures RebuiltRow(n, indptr, indices, Finalized(t, diag), i) == DenseRow(n, indptr, indices, t, i)
    ensures RebuiltCol(n, indptr, indices, Finalized(t, diag), i) == DenseCol(n, indptr, indices, t, i)
  {
    forall c | 0 <= c < n
      ensures RebuiltRow(n, indptr, indices, Finalized(t, diag), i)[c] == DenseRow(n, indptr, indices, t, i)[c]
      ensures RebuiltCol(n, indptr, indices, Finalized(t, diag), i)[c] == DenseCol(n, indptr, indices, t, i)[c]
    {
      FinalizedEntry(n, indptr, indices, diag, t, i, c);
      FinalizedEntry(n, indptr, indices, diag, t, c, i);
    }
  }

  lemma RebuiltRowsRecovered(n: nat, indptr: seq<int>, indices: seq<int>, diag: seq<int>, t: seq<real>, b: seq<nat>)
    requires Canonical(n, indptr, indices) && DiagonalIndex(n, indptr, indices, diag)
    requires |t| == |indices| && forall k :: 0 <= k < |b| ==> b[k] < n
    ensures forall k :: 0 <= k < |b| ==>
      RebuiltRow(n, indptr, indices, Finalized(t, diag), b[k]) == DenseRow(n, indptr, indices, t, b[k])
  {
    forall k | 0 <= k < |b|
      ensures RebuiltRow(n, indptr, indices, Finalized(t, diag), b[k]) == DenseRow(n, indptr, indices, t, b[k])
    {
      TransitionRecovered(n, indptr, indices, diag, t, b[k]);
    }
  }

  /** The Woodbury-style correction applied by the full-graph solver: the
    * base solution with its boundary entries cleared, minus YQ times the
    * boundary entries it had. */
  function Corrected(x: seq<real>, b: seq<nat>, yq: seq<seq<real>>): (res: seq<real>)
    requires forall k :: 0 <= k < |b| ==> b[k] < |x|
    requires IsMatrix(yq, |x|, |b|)
    requires forall k, c :: 0 <= k < |b| && 0 <= c < |b| ==> yq[b[k]][c] == 0.0
    ensures |res| == |x|
    ensures forall k :: 0 <= k < |b| ==> res[b[k]] == 0.0
  {
    var z := Gather(x, b);
    var m := MatVec(yq, z);
    forall k | 0 <= k < |b| ensures m[b[k]] == 0.0 {
      DotZero(yq[b[k]], z);
    }
    Sub(Reset(x, b), m)
  }

  /** The n x |cols| matrix whose columns are `cols`. */
  function FromColumns(cols: seq<seq<real>>, n: nat): (y: seq<seq<real>>)
    requires forall c :: 0 <= c < |cols| ==> |cols[c]| == n
    ensures IsMatrix(y, n, |cols|)
    ensures forall r, c :: 0 <= r < n && 0 <= c < |cols| ==> y[r][c] == cols[c][r]
  {
    seq(n, r requires 0 <= r < n => seq(|cols|, c requires 0 <= c < |cols| => cols[c][r]))
  }

  /** `Y[b, :] = 0.0`: y with its boundary rows cleared. */
  function ClearRows(y: seq<seq<real>>, b: seq<nat>): (z: seq<seq<real>>)
    ensures |z| == |y|
    ensures forall r :: 0 <= r < |y| ==> z[r] == if r in b then Zeros(|b|) else y[r]
  {
    seq(|y|, r requires 0 <= r < |y| => if r in b then Zeros(|b|) else y[r])
  }

  /** `Y[b, :] = 0.0; numpy.dot(Y, inv)`: the correction matrix; its
    * boundary rows are 0. */
  function Correction(y: seq<seq<real>>, b: seq<nat>, inv: seq<seq<real>>): (yq: seq<seq<real>>)
    requires IsMatrix(y, |y|, |b|) && IsMatrix(inv, |b|, |b|) && forall k :: 0 <= k < |b| ==> b[k] < |y|
    ensures IsMatrix(yq, |y|, |b|)
    ensures forall k, c :: 0 <= k < |b| && 0 <= c < |b| ==> yq[b[k]][c] == 0.0
  {
    ClearedRowsProduct(ClearRows(y, b), inv, b);
    MatMul(ClearRows(y, b), inv, |b|, |b|)
  }

  /** Clearing the boundary rows of Y clears them in Y times any matrix. */
  lemma ClearedRowsProduct(z: seq<seq<real>>, inv: seq<seq<real>>, b: seq<nat>)
    requires IsMatrix(z, |z|, |b|) && IsMatrix(inv, |b|, |b|)
    requires forall k :: 0 <= k < |b| ==> b[k] < |z| && z[b[k]] == Zeros(|b|)
    ensures forall k, c :: 0 <= k < |b| && 0 <= c < |b| ==> MatMul(z, inv, |b|, |b|)[b[k]][c] == 0.0
  {
    forall k | 0 <= k < |b|
      ensures forall c :: 0 <= c < |b| ==> MatMul(z, inv, |b|, |b|)[b[k]][c] == 0.0
    {
      MatMulZeroRow(z, inv, |b|, |b|, b[k]);
    }
  }

  // ---------------------------------------------------------------------
  // What the solvers compute

  ghost predicate WellStored(m: CsrMatrix) {
    Shaped(m.n, m.indptr, m.indices) && |m.data| == |m.indices|
  }

  /** The dense matrix stored in m. */
  function DenseOf(m: CsrMatrix): (a: seq<seq<real>>)
    requires WellStored(m)
    ensures IsMatrix(a, m.n, m.n)
    ensures forall r :: 0 <= r < m.n ==> a[r] == DenseRow(m.n, m.indptr, m.indices, m.data, r)
  {
    seq(m.n, r requires 0 <= r < m.n => DenseRow(m.n, m.indptr, m.indices, m.data, r))
  }

  /** The system a factorization of m solves: L, or L^T when the flag asks
    * for the transpose. */
  function System(m: CsrMatrix, transposed: bool): (a: seq<seq<real>>)
    requires WellStored(m)
    ensures IsMatrix(a, m.n, m.n)
  {
    if transposed then Transpose(DenseOf(m), m.n) else DenseOf(m)
  }

  /** The factorizer is exact: on a system that has a solution, its solver
    * returns one. */
  ghost predicate Solves(factorize: Factorizer) {
    && SolverShaped(factorize)
    && forall m, t, rhs {:trigger Solvable(System(m, t), rhs)} :: WellStored(m) && |rhs| == m.n && Solvable(System(m, t), rhs) ==>
         MatVec(System(m, t), factorize(m, t)(rhs)) == rhs
  }

  /** The inverter is exact: what it returns is an inverse. */
  ghost predicate Inverts(invert: Inverter) {
    && InverterShaped(invert)
    && forall a :: IsMatrix(a, |a|, |a|) && invert(a).Some? ==>
         MatMul(a, invert(a).value, |a|, |a|) == Identity(|a|)
  }

  /** An exact factorizer solves a nonsingular system. */
  lemma SolvesSystem(factorize: Factorizer, m: CsrMatrix, t: bool, rhs: seq<real>)
    requires Solves(factorize) && WellStored(m) && Nonsingular(System(m, t)) && |rhs| == m.n
    ensures |factorize(m, t)(rhs)| == m.n
    ensures MatVec(System(m, t), factorize(m, t)(rhs)) == rhs
  {
    assert Solvable(System(m, t), rhs);
  }

  /** The operator the basic variant assembles is I - P with the boundary
    * cut out, in either orientation. */
  lemma BasicIsCut(n: nat, indptr: seq<int>, indices: seq<int>, diag: seq<int>, t: seq<real>, b: seq<nat>, tr: bool)
    requires Canonical(n, indptr, indices) && DiagonalIndex(n, indptr, indices, diag) && |t| == |indices|
    ensures System(BasicOperator(n, indptr, indices, diag, t, b), tr)
            == Cut(System(CsrMatrix(n, indptr, indices, Finalized(t, diag)), tr), b)
  {
    var full := DenseOf(CsrMatrix(n, indptr, indices, Finalized(t, diag)));
    var basic := DenseOf(BasicOperator(n, indptr, indices, diag, t, b));
    forall r | 0 <= r < n ensures basic[r] == Cut(full, b)[r] {
      forall c | 0 <= c < n ensures basic[r][c] == Cut(full, b)[r][c] {
        FinalizedEntry(n, indptr, indices, diag, Zeroed(n, indptr, indices, t, b), r, c);
        ZeroedEntry(n, indptr, indices, t, b, r, c);
        FinalizedEntry(n, indptr, indices, diag, t, r, c);
      }
    }
    assert basic == Cut(full, b);
    if tr {
      CutTranspose(full, b);
    }
  }

  /** The dense transition matrix P stored as t, or its transpose. */
  function TransitionOf(n: nat, indptr: seq<int>, indices: seq<int>, t: seq<real>, tr: bool): (p: seq<seq<real>>)
    requires Shaped(n, indptr, indices) && |t| == |indices|
    ensures IsMatrix(p, n, n)
    ensures forall k :: 0 <= k < n ==>
              p[k] == if tr then DenseCol(n, indptr, indices, t, k) else DenseRow(n, indptr, indices, t, k)
  {
    seq(n, k requires 0 <= k < n =>
      if tr then DenseCol(n, indptr, indices, t, k) else DenseRow(n, indptr, indices, t, k))
  }

  /** The uncut operator is I - P, in either orientation. */
  lemma UncutEntries(n: nat, indptr: seq<int>, indices: seq<int>, diag: seq<int>, t: seq<real>, tr: bool)
    requires Canonical(n, indptr, indices) && DiagonalIndex(n, indptr, indices, diag) && |t| == |indices|
    ensures forall k, c :: 0 <= k < n && 0 <= c < n ==>
              System(CsrMatrix(n, indptr, indices, Finalized(t, diag)), tr)[k][c]
              == (if k == c then 1.0 else 0.0) - TransitionOf(n, indptr, indices, t, tr)[k][c]
  {
    var l := DenseOf(CsrMatrix(n, indptr, indices, Finalized(t, diag)));
    forall k, c | 0 <= k < n && 0 <= c < n
      ensures System(CsrMatrix(n, indptr, indices, Finalized(t, diag)), tr)[k][c]
              == (if k == c then 1.0 else 0.0) - TransitionOf(n, indptr, indices, t, tr)[k][c]
    {
      if tr {
        FinalizedEntry(n, indptr, indices, diag, t, c, k);
        assert Transpose(l, n)[k][c] == l[c][k];
      } else {
        FinalizedEntry(n, indptr, indices, diag, t, k, c);
      }
    }
  }

  /** The boundary rows of the system with the boundary b cut out pick the
    * boundary entries; where x vanishes on b the other rows are those of
    * the uncut system. */
  lemma CutRows(a: seq<seq<real>>, b: seq<nat>, x: seq<real>, r: nat)
    requires IsMatrix(a, |a|, |a|) && |x| == |a| && r < |a|
    requires forall q :: 0 <= q < |x| && q in b ==> x[q] == 0.0
    ensures Dot(Cut(a, b)[r], x) == if r in b then x[r] else Dot(a[r], x)
  {
    var c := Cut(a, b);
    if r in b {
      CutBoundaryRow(a, b, r);
      DotUnit(x, r);
    } else {
      DotTermwise(c[r], x, a[r], x);
    }
  }

  /** `Y q` where column c of Y solves a y = e_{b[c]}: a maps it to a
    * vector that vanishes off the boundary. */
  lemma GreenCombination(a: seq<seq<real>>, cols: seq<seq<real>>, b: seq<nat>, q: seq<real>, r: nat)
    requires IsMatrix(a, |a|, |a|) && |cols| == |b| == |q| && r < |a| && r !in b
    requires forall c :: 0 <= c < |b| ==> |cols[c]| == |a| && MatVec(a, cols[c]) == Unit(|a|, b[c])
    ensures Dot(a[r], MatVec(FromColumns(cols, |a|), q)) == 0.0
  {
    var y := FromColumns(cols, |a|);
    DotMatVec(a[r], y, q);
    var t := MatVec(Transpose(y, |b|), a[r]);
    forall c | 0 <= c < |b| ensures t[c] == 0.0 {
      assert Transpose(y, |b|)[c] == cols[c];
      DotSymmetric(cols[c], a[r]);
      assert MatVec(a, cols[c])[r] == Dot(a[r], cols[c]);
    }
    DotZero(t, q);
  }

  /** The correction removes exactly the boundary part of the base
    * solution: the corrected vector is x0 - Y (inv z), where z holds the
    * boundary entries of x0, and it vanishes on the boundary. */
  lemma CorrectedForm(x0: seq<real>, b: seq<nat>, y: seq<seq<real>>, inv: seq<seq<real>>)
    requires IsMatrix(y, |x0|, |b|) && IsMatrix(inv, |b|, |b|) && forall k :: 0 <= k < |b| ==> b[k] < |x0|
    requires MatMul(Gather(y, b), inv, |b|, |b|) == Identity(|b|)
    ensures Corrected(x0, b, Correction(y, b, inv)) == Sub(x0, MatVec(y, MatVec(inv, Gather(x0, b))))
    ensures forall r :: 0 <= r < |x0| && r in b ==> Corrected(x0, b, Correction(y, b, inv))[r] == 0.0
  {
    var z := Gather(x0, b);
    var q := MatVec(inv, z);
    var res := Corrected(x0, b, Correction(y, b, inv));
    var v := Sub(x0, MatVec(y, q));
    MatMulVec(ClearRows(y, b), inv, |b|, |b|, z);
    assert MatVec(Gather(y, b), q) == z by {
      MatMulVec(Gather(y, b), inv, |b|, |b|, z);
      IdentityVec(z);
    }
    forall r | 0 <= r < |x0| ensures res[r] == v[r] {
      if r in b {
        var k :| 0 <= k < |b| && b[k] == r;
        assert MatVec(Gather(y, b), q)[k] == Dot(y[r], q);
      }
    }
  }

  /** The Woodbury step: if x0 solves a x = rhs, column c of Y solves
    * a y = e_{b[c]}, and inv is a right inverse of the boundary rows of Y,
    * the corrected x0 solves the system with the boundary b cut out, for
    * rhs with its boundary entries cleared. */
  lemma CorrectedSolves(a: seq<seq<real>>, rhs: seq<real>, x0: seq<real>, b: seq<nat>,
                        cols: seq<seq<real>>, inv: seq<seq<real>>)
    requires IsMatrix(a, |a|, |a|) && |x0| == |a| && MatVec(a, x0) == rhs
    requires forall k :: 0 <= k < |b| ==> b[k] < |a|
    requires |cols| == |b| && forall c :: 0 <= c < |b| ==> |cols[c]| == |a| && MatVec(a, cols[c]) == Unit(|a|, b[c])
    requires IsMatrix(inv, |b|, |b|) && MatMul(Gather(FromColumns(cols, |a|), b), inv, |b|, |b|) == Identity(|b|)
    ensures MatVec(Cut(a, b), Corrected(x0, b, Correction(FromColumns(cols, |a|), b, inv))) == Reset(rhs, b)
  {
    var y := FromColumns(cols, |a|);
    var res := Corrected(x0, b, Correction(y, b, inv));
    var q := MatVec(inv, Gather(x0, b));
    CorrectedForm(x0, b, y, inv);
    forall r | 0 <= r < |a| ensures Dot(Cut(a, b)[r], res) == Reset(rhs, b)[r] {
      CutRows(a, b, res, r);
      if r !in b {
        DotSub(x0, MatVec(y, q), a[r]);
        GreenCombination(a, cols, b, q, r);
      }
    }
  }

  /** With an exact factorizer the basic operator's solver solves the
    * system of I - P with the boundary b cut out, and repeats the
    * right-hand side on the boundary. */
  lemma BasicCutSolution(n: nat, indptr: seq<int>, indices: seq<int>, diag: seq<int>, t: seq<real>, b: seq<nat>,
                         factorize: Factorizer, rhs: seq<real>, tr: bool)
    requires Canonical(n, indptr, indices) && DiagonalIndex(n, indptr, indices, diag) && |t| == |indices|
    requires Solves(factorize) && |rhs| == n
    requires Nonsingular(System(BasicOperator(n, indptr, indices, diag, t, b), tr))
    ensures MatVec(Cut(System(CsrMatrix(n, indptr, indices, Finalized(t, diag)), tr), b),
                   factorize(BasicOperator(n, indptr, indices, diag, t, b), tr)(rhs)) == rhs
    ensures forall i :: 0 <= i < n && i in b ==> factorize(BasicOperator(n, indptr, indices, diag, t, b), tr)(rhs)[i] == rhs[i]
  {
    var op := BasicOperator(n, indptr, indices, diag, t, b);
    var a := Cut(System(CsrMatrix(n, indptr, indices, Finalized(t, diag)), tr), b);
    BasicIsCut(n, indptr, indices, diag, t, b, tr);
    SolvesSystem(factorize, op, tr, rhs);
    var x := factorize(op, tr)(rhs);
    forall i | 0 <= i < n && i in b ensures x[i] == rhs[i] {
      CutBoundaryRow(System(CsrMatrix(n, indptr, indices, Finalized(t, diag)), tr), b, i);
      DotUnit(x, i);
      assert MatVec(a, x)[i] == Dot(a[i], x);
    }
  }

  /** The solutions for the unit vectors of the boundary indices: the
    * boundary columns of the Green's function, as a list of columns. */
  function UnitSolutions(m: CsrMatrix, b: seq<nat>, factorize: Factorizer, tr: bool): (cols: seq<seq<real>>)
    requires SolverShaped(factorize)
    ensures |cols| == |b| && forall c :: 0 <= c < |b| ==> |cols[c]| == m.n
  {
    var cols := seq(|b|, c requires 0 <= c < |b| => factorize(m, tr)(Unit(m.n, b[c])));
    assert forall c :: 0 <= c < |b| ==> |cols[c]| == |Unit(m.n, b[c])|;
    cols
  }

  /** With an exact factorizer and inverter, the corrected solution solves
    * the system of m with the boundary b cut out. */
  lemma FullCutSolution(m: CsrMatrix, b: seq<nat>, factorize: Factorizer, invert: Inverter, rhs: seq<real>, tr: bool)
    requires WellStored(m) && Solves(factorize) && Inverts(invert) && |rhs| == m.n
    requires Nonsingular(System(m, tr)) && forall k :: 0 <= k < |b| ==> b[k] < m.n
    requires invert(Gather(FromColumns(UnitSolutions(m, b, factorize, tr), m.n), b)).Some?
    ensures var y := FromColumns(UnitSolutions(m, b, factorize, tr), m.n);
            MatVec(Cut(System(m, tr), b),
                   Corrected(factorize(m, tr)(rhs), b, Correction(y, b, invert(Gather(y, b)).value)))
            == Reset(rhs, b)
  {
    var a := System(m, tr);
    var cols := UnitSolutions(m, b, factorize, tr);
    SolvesSystem(factorize, m, tr, rhs);
    forall c | 0 <= c < |b| ensures MatVec(a, cols[c]) == Unit(m.n, b[c]) {
      SolvesSystem(factorize, m, tr, Unit(m.n, b[c]));
    }
    var y := FromColumns(cols, m.n);
    CorrectedSolves(a, rhs, factorize(m, tr)(rhs), b, cols, invert(Gather(y, b)).value);
  }

  /** The parts of the operator that solving leaves alone. */
  datatype Setup = Setup(rows: seq<nat>, cols: seq<nat>,
                         rowData: Option<seq<seq<real>>>, colData: Option<seq<seq<real>>>,
                         rowMap: map<nat, nat>, colMap: map<nat, nat>,
                         ixs: Option<seq<nat>>, tmp: Option<seq<seq<real>>>, tmpT: Option<seq<seq<real>>>)

  /** `BasicLaplacian` (when `full` is false) or `FullGraphLaplacian` (when
    * it is true). The stored values of the Laplacian are the stored values
    * of the adjacency matrix `w`, updated in place. */
  class SparseLaplacian {
    const full: bool
    const w: AdjacencyMatrix
    const factorize: Factorizer
    const invert: Inverter
    /** The damped transition matrix, before any boundary was cut out. */
    ghost const transition: seq<real>

    var boundaryRows: seq<nat>
    var boundaryCols: seq<nat>
    /** Extracted boundary rows, in the order of `boundaryRows`. */
    var rowData: Option<seq<seq<real>>>
    /** Extracted boundary columns, as a list of columns in the order of
      * `boundaryCols`. */
    var colData: Option<seq<seq<real>>>
    var rowMap: map<nat, nat>
    var colMap: map<nat, nat>
    /** Cached factorization for L^T x = rhs. */
    var solveLeft: Option<Solver>
    /** Cached factorization for L x = rhs. */
    var solveRight: Option<Solver>
    /** Full-graph variant only: the boundary set after construction. */
    var boundaryIxs: Option<seq<nat>>
    var tmpMat: Option<seq<seq<real>>>
    var tmpMatT: Option<seq<seq<real>>>

    function Current(): CsrMatrix
      reads w.data
    {
      CsrMatrix(w.n, w.indptr, w.indices, w.data[..])
    }

    function State(): Setup
      reads this
    {
      Setup(boundaryRows, boundaryCols, rowData, colData, rowMap, colMap, boundaryIxs, tmpMat, tmpMatT)
    }

    /** The boundary bookkeeping agrees with the stored values: these are
      * I - P with the boundary cut out, and the extracted rows, columns and
      * maps are those of P and of the boundary lists. */
    ghost predicate Consistent(st: Setup)
      reads w, w.data
    {
      && w.Valid()
      && |transition| == w.data.Length
      && SolverShaped(factorize) && InverterShaped(invert)
      && (forall k :: 0 <= k < |st.rows| ==> st.rows[k] < w.n)
      && (forall k :: 0 <= k < |st.cols| ==> st.cols[k] < w.n)
      && (full ==> w.data[..] == Finalized(transition, w.diagonalIx))
      && (st.rowData.None? ==> st.rows == [])
      && (st.rowData.Some? ==> RowsOf(st.rowData.value, st.rows))
      && (st.colData.None? ==> st.cols == [])
      && (st.colData.Some? ==> ColsOf(st.colData.value, st.cols))
      && st.rowMap == IndexMap(st.rows) && st.colMap == IndexMap(st.cols)
      && (full ==> st.rowData.None? && st.colData.None?)
      && (!full ==> st.ixs.None? && st.tmp.None? && st.tmpT.None?)
      && (st.ixs.Some? ==> forall k :: 0 <= k < |st.ixs.value| ==> st.ixs.value[k] < w.n)
    }

    /** The stored values of the basic variant are I - P with the boundary
      * rows and columns cut out of P. */
    ghost predicate Assembled()
      reads this, w, w.data
      requires Consistent(State())
    {
      !full ==> w.data[..] == Finalized(Zeroed(w.n, w.indptr, w.indices, transition, boundaryRows + boundaryCols),
                                        w.diagonalIx)
    }

    ghost predicate Valid()
      reads this, w, w.data
    {
      && Consistent(State())
      && (solveLeft.Some? ==> solveLeft.value == factorize(Current(), true))
      && (solveRight.Some? ==> solveRight.value == factorize(Current(), false))
    }

    /** `data[k]` is row `b[k]` of the transition matrix, for every k. */
    ghost predicate RowsOf(data: seq<seq<real>>, b: seq<nat>)
      reads w
      requires w.Valid() && |transition| == |w.indices|
    {
      |data| == |b| &&
      forall k :: 0 <= k < |b| ==> b[k] < w.n && data[k] == DenseRow(w.n, w.indptr, w.indices, transition, b[k])
    }

    /** `data[k]` is column `b[k]` of the transition matrix, for every k. */
    ghost predicate ColsOf(data: seq<seq<real>>, b: seq<nat>)
      reads w
      requires w.Valid() && |transition| == |w.indices|
    {
      |data| == |b| &&
      forall k :: 0 <= k < |b| ==> data[k] == DenseCol(w.n, w.indptr, w.indices, transition, b[k])
    }

    /** The correction matrix fits the boundary: n x |b| with zero rows at
      * the boundary indices. */
    ghost predicate TmpFits(yq: seq<seq<real>>, b: seq<nat>)
    {
      IsMatrix(yq, w.n, |b|) &&
      forall k, c :: 0 <= k < |b| && 0 <= c < |b| ==> b[k] < w.n && yq[b[k]][c] == 0.0
    }

    ghost predicate ReadyIn(st: Setup)
    {
      full ==> && st.ixs.Some? && st.tmp.Some? && st.tmpT.Some?
               && TmpFits(st.tmp.value, st.ixs.value)
               && TmpFits(st.tmpT.value, st.ixs.value)
    }

    /** Solving is possible: always for the basic variant, after a
      * successful `SetBoundaryIxs` for the full-graph variant. */
    ghost predicate Ready()
      reads this
    {
      ReadyIn(State())
    }

    /** What solving needs of the setup st, apart from the stored values. */
    ghost predicate Solvable(st: Setup)
    {
      && Shaped(w.n, w.indptr, w.indices) && |transition| == |w.indices|
      && SolverShaped(factorize) && ReadyIn(st)
      && (st.ixs.Some? ==> forall k :: 0 <= k < |st.ixs.value| ==> st.ixs.value[k] < w.n)
    }

    /** The solution in the setup st when the stored values are those of m. */
    function SolutionOf(st: Setup, m: CsrMatrix, rhs: seq<real>, autoTranspose: bool): (x: seq<real>)
      requires Solvable(st) && |rhs| == w.n
      ensures |x| == w.n
      ensures full ==> forall k :: 0 <= k < |st.ixs.value| ==> x[st.ixs.value[k]] == 0.0
    {
      var base := factorize(m, !autoTranspose)(rhs);
      if full then Corrected(base, st.ixs.value, if autoTranspose then st.tmpT.value else st.tmp.value)
      else base
    }

    function SolutionIn(st: Setup, rhs: seq<real>, autoTranspose: bool): (x: seq<real>)
      reads w, w.data
      requires Consistent(st) && ReadyIn(st) && |rhs| == w.n
      ensures |x| == w.n
      ensures full ==> forall k :: 0 <= k < |st.ixs.value| ==> x[st.ixs.value[k]] == 0.0
    {
      SolutionOf(st, Current(), rhs, autoTranspose)
    }

    /** What `Solve(rhs, autoTranspose)` returns: the factorized solve of
      * L^T x = rhs (autoTranspose false) or L x = rhs (true), corrected for
      * the boundary in the full-graph variant. In that variant the boundary
      * entries of the solution are 0. */
    function Solution(rhs: seq<real>, autoTranspose: bool): (x: seq<real>)
      reads this, w, w.data
      requires Valid() && Ready() && |rhs| == w.n
      ensures |x| == w.n
      ensures full ==> forall k :: 0 <= k < |boundaryIxs.value| ==> x[boundaryIxs.value[k]] == 0.0
    {
      SolutionIn(State(), rhs, autoTranspose)
    }

    /** `BasicLaplacian.__init__`: normalizes `W` into a transition matrix,
      * multiplies by the mask, snapshots the boundary rows and columns,
      * zeroes them, negates, and adds 1 at every diagonal position. */
    constructor (W: AdjacencyMatrix, dfMask: seq<real>, rows: Option<seq<nat>>, cols: Option<seq<nat>>,
                 factorizer: Factorizer, inverter: Inverter)
      requires W.Valid() && |dfMask| == W.data.Length
      requires rows.Some? ==> forall k :: 0 <= k < |rows.value| ==> rows.value[k] < W.n
      requires cols.Some? ==> forall k :: 0 <= k < |cols.value| ==> cols.value[k] < W.n
      requires SolverShaped(factorizer) && InverterShaped(inverter)
      modifies W.data
      ensures Valid() && Ready() && Assembled() && !full && w == W
      ensures factorize == factorizer && invert == inverter
      ensures transition == Masked(dfMask, Normalized(W.n, W.indptr, W.indices, W.rowWeights, old(W.data[..])))
      ensures boundaryRows == (if rows.Some? then rows.value else [])
      ensures boundaryCols == (if cols.Some? then cols.value else [])
      ensures rowData.Some? == rows.Some? && colData.Some? == cols.Some?
      ensures solveLeft.None? && solveRight.None?
    {
      W.MakeTransitionMatrix();
      ApplyMask(W.data, dfMask);
      var t := W.data[..];
      var br: seq<nat> := [];
      var rd: Option<seq<seq<real>>> := None;
      if rows.Some? {
        br := rows.value;
        var acc := ExtractRows(W.n, W.indptr, W.indices, t, br);
        rd := Some(acc);
      }
      var bc: seq<nat> := [];
      var cd: Option<seq<seq<real>>> := None;
      if cols.Some? {
        bc := cols.value;
        var acc := ExtractColumns(W.n, W.indptr, W.indices, t, bc);
        cd := Some(acc);
      }
      ZeroBoundary(W.data, W.n, W.indptr, W.indices, br + bc);
      NegateAddIdentity(W.data, W.n, W.indptr, W.indices, W.diagonalIx);
      full, w, factorize, invert, transition := false, W, factorizer, inverter, t;
      boundaryRows, boundaryCols, rowData, colData := br, bc, rd, cd;
      rowMap, colMap := IndexMap(br), IndexMap(bc);
      solveLeft, solveRight := None, None;
      boundaryIxs, tmpMat, tmpMatT := None, None, None;
    }

    /** `FullGraphLaplacian.__init__`: as the basic constructor with no
      * boundary cut at all; the boundary is chosen later with
      * `SetBoundaryIxs`. */
    constructor Full(W: AdjacencyMatrix, dfMask: seq<real>, factorizer: Factorizer, inverter: Inverter)
      requires W.Valid() && |dfMask| == W.data.Length
      requires SolverShaped(factorizer) && InverterShaped(inverter)
      modifies W.data
      ensures Valid() && full && w == W && boundaryIxs.None?
      ensures factorize == factorizer && invert == inverter
      ensures transition == Masked(dfMask, Normalized(W.n, W.indptr, W.indices, W.rowWeights, old(W.data[..])))
      ensures W.data[..] == Finalized(transition, W.diagonalIx)
      ensures solveLeft.None? && solveRight.None?
    {
      W.MakeTransitionMatrix();
      ApplyMask(W.data, dfMask);
      var t := W.data[..];
      NegateAddIdentity(W.data, W.n, W.indptr, W.indices, W.diagonalIx);
      full, w, factorize, invert, transition := true, W, factorizer, inverter, t;
      boundaryRows, boundaryCols, rowData, colData := [], [], None, None;
      rowMap, colMap := map[], map[];
      solveLeft, solveRight := None, None;
      boundaryIxs, tmpMat, tmpMatT := None, None, None;
    }

    /** Row i of the transition matrix as it was before the boundary cut.
      * The basic variant only knows the rows it extracted (any other index
      * is a KeyError); the full-graph variant rebuilds any row from L. */
    function GetBoundaryRow(i: nat): (r: Result<seq<real>>)
      reads this, w, w.data
      requires Valid()
      ensures r.Err? <==> if full then i >= w.n else i !in boundaryRows
      ensures r.Ok? ==> r.value == DenseRow(w.n, w.indptr, w.indices, transition, i)
    {
      if full then
        if i >= w.n then Err("IndexError")
        else
          TransitionRecovered(w.n, w.indptr, w.indices, w.diagonalIx, transition, i);
          Ok(RebuiltRow(w.n, w.indptr, w.indices, w.data[..], i))
      else if i in rowMap then Ok(rowData.value[rowMap[i]])
      else Err("KeyError")
    }

    /** Column j of the transition matrix as it was before the boundary
      * cut; as `GetBoundaryRow`, for columns. */
    function GetBoundaryCol(j: nat): (r: Result<seq<real>>)
      reads this, w, w.data
      requires Valid()
      ensures r.Err? <==> if full then j >= w.n else j !in boundaryCols
      ensures r.Ok? ==> r.value == DenseCol(w.n, w.indptr, w.indices, transition, j)
    {
      if full then
        if j >= w.n then Err("IndexError")
        else
          TransitionRecovered(w.n, w.indptr, w.indices, w.diagonalIx, transition, j);
          Ok(RebuiltCol(w.n, w.indptr, w.indices, w.data[..], j))
      else if j in colMap then Ok(colData.value[colMap[j]])
      else Err("KeyError")
    }

    /** The boundary indices whose rows and columns the operator exposes. */
    function BoundaryList(): seq<nat>
      reads this
    {
      if full then (if boundaryIxs.Some? then boundaryIxs.value else []) else boundaryRows
    }

    /** `boundary_row_data`: the stored rows of the basic variant, or the
      * rebuilt rows of the current boundary of the full-graph variant; in
      * both, row k is row `BoundaryList()[k]` of the transition matrix.
      * An unset boundary of the full-graph variant is the AttributeError the
      * property raises. For the basic variant built without boundary rows
      * the attribute is just `None`; the TypeError stands for what a caller
      * that indexes it gets, not for the read itself. */
    function BoundaryRowData(): (r: Result<seq<seq<real>>>)
      reads this, w, w.data
      requires Valid()
      ensures r.Ok? <==> if full then boundaryIxs.Some? else rowData.Some?
      ensures r.Ok? ==> RowsOf(r.value, BoundaryList())
    {
      if full then
        if boundaryIxs.None? then Err("AttributeError")
        else
          var b := boundaryIxs.value;
          var l := w.data[..];
          RebuiltRowsRecovered(w.n, w.indptr, w.indices, w.diagonalIx, transition, b);
          Ok(seq(|b|, k requires 0 <= k < |b| && b[k] < w.n => RebuiltRow(w.n, w.indptr, w.indices, l, b[k])))
      else if rowData.None? then Err("TypeError")
      else Ok(rowData.value)
    }

    /** `boundary_col_data[:, k]`: column k of the boundary column data,
      * which is column `b[k]` of the transition matrix where b lists the
      * boundary columns (basic) or the current boundary (full graph). As
      * for the rows, `None` data of the basic variant gives the TypeError
      * of indexing it. */
    function BoundaryColumn(k: nat): (r: Result<seq<real>>)
      reads this, w, w.data
      requires Valid()
      ensures r.Ok? <==> if full then boundaryIxs.Some? && k < |boundaryIxs.value|
                         else colData.Some? && k < |boundaryCols|
      ensures r.Ok? ==> r.value == DenseCol(w.n, w.indptr, w.indices, transition,
                                            if full then boundaryIxs.value[k] else boundaryCols[k])
    {
      if full then
        if boundaryIxs.None? then Err("AttributeError")
        else if k >= |boundaryIxs.value| then Err("IndexError")
        else GetBoundaryCol(boundaryIxs.value[k])
      else if colData.None? then Err("TypeError")
      else if k >= |boundaryCols| then Err("IndexError")
      else Ok(colData.value[k])
    }

    /** `BasicLaplacian.solve`: factorizes L (for autoTranspose) or its
      * transpose on first use of that orientation, caches the solver, and
      * reuses it afterwards. */
    method SolveBase(rhs: seq<real>, autoTranspose: bool) returns (x: seq<real>)
      requires Valid()
      modifies this
      ensures Valid() && State() == old(State())
      ensures x == factorize(Current(), !autoTranspose)(rhs)
      ensures autoTranspose ==> solveLeft == old(solveLeft) && solveRight.Some?
      ensures autoTranspose && old(solveRight).Some? ==> solveRight == old(solveRight)
      ensures !autoTranspose ==> solveRight == old(solveRight) && solveLeft.Some?
      ensures !autoTranspose && old(solveLeft).Some? ==> solveLeft == old(solveLeft)
    {
      var solve: Solver;
      if !autoTranspose {
        if solveLeft.None? {
          solveLeft := Some(factorize(Current(), true));
        }
        solve := solveLeft.value;
      } else {
        if solveRight.None? {
          solveRight := Some(factorize(Current(), false));
        }
        solve := solveRight.value;
      }
      x := solve(rhs);
    }

    /** `solve`: the basic solve, followed in the full-graph variant by
      * the boundary correction. */
    method Solve(rhs: seq<real>, autoTranspose: bool) returns (x: seq<real>)
      requires Valid() && Ready() && |rhs| == w.n
      modifies this
      ensures Valid() && Ready() && State() == old(State())
      ensures x == Solution(rhs, autoTranspose)
      ensures autoTranspose ==> solveLeft == old(solveLeft) && solveRight.Some?
      ensures autoTranspose && old(solveRight).Some? ==> solveRight == old(solveRight)
      ensures !autoTranspose ==> solveRight == old(solveRight) && solveLeft.Some?
      ensures !autoTranspose && old(solveLeft).Some? ==> solveLeft == old(solveLeft)
    {
      x := SolveBase(rhs, autoTranspose);
      if full {
        var yq := if autoTranspose then tmpMatT.value else tmpMat.value;
        x := Corrected(x, boundaryIxs.value, yq);
      }
    }
  
    /** Every boundary row and column of the basic variant is a row or
      * column of the identity. */
    lemma BoundaryIdentity(i: nat)
      requires Valid() && Assembled() && !full && i in boundaryRows + boundaryCols
      ensures DenseRow(w.n, w.indptr, w.indices, w.data[..], i) == Unit(w.n, i)
      ensures DenseCol(w.n, w.indptr, w.indices, w.data[..], i) == Unit(w.n, i)
    {
      BoundaryIsIdentity(w.n, w.indptr, w.indices, w.diagonalIx, transition, boundaryRows + boundaryCols, i);
    }

    /** The basic variant solves with the operator assembled from its
      * transition values and boundary. */
    lemma BasicSolution(rhs: seq<real>, autoTranspose: bool)
      requires Valid() && Ready() && Assembled() && !full && |rhs| == w.n
      ensures Solution(rhs, autoTranspose)
              == factorize(BasicOperator(w.n, w.indptr, w.indices, w.diagonalIx, transition,
                                         boundaryRows + boundaryCols), !autoTranspose)(rhs)
    {
    }

    /** `_compute_tmp_mat`: Y times the inverse of the boundary block of Y,
      * where Y has its boundary rows cleared; `None` when the block is
      * singular. The result fits the boundary. */
    ghost function TmpMatrix(b: seq<nat>, autoTranspose: bool): (yq: Option<seq<seq<real>>>)
      reads w.data
      requires SolverShaped(factorize) && InverterShaped(invert)
      requires forall k :: 0 <= k < |b| ==> b[k] < w.n
      ensures yq.Some? ==> TmpFits(yq.value, b)
    {
      var y := FromColumns(UnitSolutions(Current(), b, factorize, !autoTranspose), w.n);
      var inv := invert(Gather(y, b));
      if inv.None? then None else Some(Correction(y, b, inv.value))
    }

    /** `_compute_tmp_mat`: solves for the unit vector of every boundary
      * index (caching the factorization), then forms the correction. */
    method ComputeTmpMat(b: seq<nat>, autoTranspose: bool) returns (r: Result<seq<seq<real>>>)
      requires Valid() && full && forall k :: 0 <= k < |b| ==> b[k] < w.n
      modifies this
      ensures Valid() && State() == old(State())
      ensures r.Ok? <==> TmpMatrix(b, autoTranspose).Some?
      ensures r.Ok? ==> r.value == TmpMatrix(b, autoTranspose).value
    {
      var n := w.n;
      ghost var m := Current();
      var cols: seq<seq<real>> := [];
      for i := 0 to |b|
        invariant Valid() && State() == old(State()) && Current() == m
        invariant |cols| == i
        invariant forall q :: 0 <= q < i ==> cols[q] == factorize(m, !autoTranspose)(Unit(n, b[q]))
      {
        var x := SolveBase(Unit(n, b[i]), autoTranspose);
        assert Current() == m;
        cols := cols + [x];
      }
      assert cols == UnitSolutions(Current(), b, factorize, !autoTranspose);
      var y := FromColumns(cols, n);
      var inv := invert(Gather(y, b));
      if inv.None? {
        return Err("LinAlgError");
      }
      r := Ok(Correction(y, b, inv.value));
    }

    /** Changing only the boundary set of the full-graph variant and its
      * correction matrices keeps the bookkeeping consistent. */
    lemma ConsistentWithBoundary(st: Setup, b: seq<nat>, tmp: Option<seq<seq<real>>>, tmpT: Option<seq<seq<real>>>)
      requires Consistent(st) && full && forall k :: 0 <= k < |b| ==> b[k] < w.n
      ensures Consistent(st.(ixs := Some(b), tmp := tmp, tmpT := tmpT))
    {
    }

    /** Records the boundary and whichever correction matrices were
      * computed before the first failure. */
    method StoreBoundary(b: seq<nat>, m: Result<seq<seq<real>>>, mt: Result<seq<seq<real>>>)
      requires Valid() && full && forall k :: 0 <= k < |b| ==> b[k] < w.n
      modifies this
      ensures Valid() && boundaryIxs == Some(b)
      ensures tmpMat == (if m.Ok? then Some(m.value) else old(tmpMat))
      ensures tmpMatT == (if m.Ok? && mt.Ok? then Some(mt.value) else old(tmpMatT))
    {
      var st := State();
      var tmp := if m.Ok? then Some(m.value) else tmpMat;
      var tmpT := if m.Ok? && mt.Ok? then Some(mt.value) else tmpMatT;
      ConsistentWithBoundary(st, b, tmp, tmpT);
      boundaryIxs, tmpMat, tmpMatT := Some(b), tmp, tmpT;
    }

    /** `set_boundary_ixs`: records the boundary and computes both
      * correction matrices; a singular boundary block is an error. */
    method SetBoundaryIxs(b: seq<nat>) returns (r: Result<bool>)
      requires Valid() && full && forall k :: 0 <= k < |b| ==> b[k] < w.n
      modifies this
      ensures Valid() && boundaryIxs == Some(b)
      ensures r.Ok? <==> TmpMatrix(b, false).Some? && TmpMatrix(b, true).Some?
      ensures r.Ok? ==> Ready()
      ensures r.Ok? ==> tmpMat == TmpMatrix(b, false) && tmpMatT == TmpMatrix(b, true)
    {
      var m := ComputeTmpMat(b, false);
      var mt: Result<seq<seq<real>>> := Err("LinAlgError");
      if m.Ok? {
        mt := ComputeTmpMat(b, true);
      }
      StoreBoundary(b, m, mt);
      if m.Err? {
        r := Err(m.error);
      } else if mt.Err? {
        r := Err(mt.error);
      } else {
        r := Ok(true);
      }
    }

    /** I - P before any boundary was cut out. */
    ghost function Uncut(): (m: CsrMatrix)
      reads this, w
      requires w.Valid() && |transition| == |w.indices|
      ensures WellStored(m) && m.n == w.n
    {
      CsrMatrix(w.n, w.indptr, w.indices, Finalized(transition, w.diagonalIx))
    }

    /** With an exact factorizer, the basic solve solves the system of I - P
      * with the boundary rows and columns cut out (L x = rhs when
      * autoTranspose is set, L^T x = rhs otherwise); on the boundary the
      * solution repeats the right-hand side. */
    lemma BasicSolvesCut(rhs: seq<real>, autoTranspose: bool)
      requires Valid() && Assembled() && !full && |rhs| == w.n
      requires Solves(factorize) && Nonsingular(System(Current(), !autoTranspose))
      ensures MatVec(Cut(System(Uncut(), !autoTranspose), boundaryRows + boundaryCols), Solution(rhs, autoTranspose))
              == rhs
      ensures forall i :: 0 <= i < w.n && i in boundaryRows + boundaryCols ==> Solution(rhs, autoTranspose)[i] == rhs[i]
    {
      BasicCutSolution(w.n, w.indptr, w.indices, w.diagonalIx, transition, boundaryRows + boundaryCols,
                       factorize, rhs, !autoTranspose);
    }

    /** The full-graph solve, once `SetBoundaryIxs(b)` has computed both
      * correction matrices: with an exact factorizer and inverter it
      * solves the system of I - P with the boundary b cut out (the system
      * of `BasicSolvesCut`), for rhs with its boundary entries cleared. */
    lemma FullSolvesCut(rhs: seq<real>, autoTranspose: bool)
      requires Valid() && Ready() && full && |rhs| == w.n
      requires Solves(factorize) && Inverts(invert)
      requires tmpMat == TmpMatrix(boundaryIxs.value, false) && tmpMatT == TmpMatrix(boundaryIxs.value, true)
      requires Nonsingular(System(Current(), !autoTranspose))
      ensures MatVec(Cut(System(Uncut(), !autoTranspose), boundaryIxs.value), Solution(rhs, autoTranspose))
              == Reset(rhs, boundaryIxs.value)
    {
      var b := boundaryIxs.value;
      assert Current() == Uncut();
      assert (if autoTranspose then tmpMatT else tmpMat) == TmpMatrix(b, autoTranspose);
      FullCutSolution(Current(), b, factorize, invert, rhs, !autoTranspose);
    }

    /** `get_full_greens_func`: column j is the solution of L x = e_j; the
      * result is the list of columns. */
    method GetFullGreensFunc() returns (g: seq<seq<real>>)
      requires Valid() && Ready()
      modifies this
      ensures Valid() && Ready() && State() == old(State())
      ensures |g| == w.n && forall j :: 0 <= j < w.n ==> g[j] == Solution(Unit(w.n, j), true)
    {
      g := [];
      ghost var st := State();
      for j := 0 to w.n
        invariant Valid() && Ready() && State() == st
        invariant |g| == j && forall q :: 0 <= q < j ==> g[q] == SolutionIn(st, Unit(w.n, q), true)
      {
        var x := Solve(Unit(w.n, j), true);
        g := g + [x];
      }
    }
  }
}
