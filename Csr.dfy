/** The compressed-sparse-row (CSR) layout shared by the adjacency matrix,
  * the Laplacian, the graph classes and Dijkstra: row `i` of an `n`-square
  * matrix owns the stored positions `indptr[i] .. indptr[i+1]`, position `p`
  * holds the value `data[p]` in column `indices[p]`. */
module Csr {

  /** A well-formed square CSR pattern of order `n`. */
  ghost predicate Shaped(n: nat, indptr: seq<int>, indices: seq<int>)
  {
    && |indptr| == n + 1
    && indptr[0] == 0
    && indptr[n] == |indices|
    && (forall i, j :: 0 <= i <= j <= n ==> indptr[i] <= indptr[j])
    && (forall p :: 0 <= p < |indices| ==> 0 <= indices[p] < n)
  }

  /** Canonical form (what scipy's `sort_indices` on a duplicate-free matrix
    * yields): column indices strictly increase along every row. */
  ghost predicate Canonical(n: nat, indptr: seq<int>, indices: seq<int>)
  {
    && Shaped(n, indptr, indices)
    && (forall i :: 0 <= i < n ==> RowSorted(indptr, indices, i))
  }

  /** The column indices of row `i` strictly increase. */
  ghost predicate RowSorted(indptr: seq<int>, indices: seq<int>, i: int)
  {
    0 <= i < |indptr| - 1 &&
    forall p, q :: indptr[i] <= p < q < indptr[i + 1] && 0 <= p && q < |indices| ==> indices[p] < indices[q]
  }

  /** `d[i]` is the stored position of the diagonal entry of row `i`. */
  ghost predicate DiagonalIndex(n: nat, indptr: seq<int>, indices: seq<int>, d: seq<int>)
    requires Shaped(n, indptr, indices)
  {
    |d| == n && forall i :: 0 <= i < n ==> DiagonalAt(indptr, indices, d, i)
  }

  /** `d[i]` is a position of row `i` whose column is `i`. */
  ghost predicate DiagonalAt(indptr: seq<int>, indices: seq<int>, d: seq<int>, i: int)
  {
    0 <= i < |d| && 0 <= i < |indptr| - 1 && indptr[i] <= d[i] < indptr[i + 1] && 0 <= d[i] < |indices| && indices[d[i]] == i
  }

  /** numpy.searchsorted(a, v) scanning from `t`: the first index at or after
    * `t` whose entry is at least `v`, or `|a|`. */
  function FirstAtLeast(a: seq<int>, v: int, t: nat): (r: nat)
    requires t <= |a|
    ensures t <= r <= |a|
    ensures forall u :: t <= u < r ==> a[u] < v
    ensures r < |a| ==> a[r] >= v
    decreases |a| - t
  {
    if t == |a| then t else if a[t] >= v then t else FirstAtLeast(a, v, t + 1)
  }

  /** The row that owns stored position `p`, found as
    * `searchsorted(indptr, p + 1) - 1`. */
  function RowOf(n: nat, indptr: seq<int>, p: int): (r: nat)
    requires |indptr| == n + 1 && indptr[0] == 0 && 0 <= p < indptr[n]
    ensures r < n && indptr[r] <= p < indptr[r + 1]
  {
    FirstAtLeast(indptr, p + 1, 0) - 1
  }

  /** A position lies in exactly one row. */
  lemma RowOfUnique(n: nat, indptr: seq<int>, indices: seq<int>, i: nat, p: int)
    requires Shaped(n, indptr, indices) && i < n && indptr[i] <= p < indptr[i + 1]
    ensures RowOf(n, indptr, p) == i
  {
  }

  /** In canonical form with a diagonal index, a position is a diagonal
    * position exactly when its column equals its row. */
  lemma DiagonalPositions(n: nat, indptr: seq<int>, indices: seq<int>, d: seq<int>, p: int)
    requires Canonical(n, indptr, indices) && DiagonalIndex(n, indptr, indices, d)
    requires 0 <= p < |indices|
    ensures p in d <==> indices[p] == RowOf(n, indptr, p)
  {
    var i := RowOf(n, indptr, p);
    if p in d {
      var j :| 0 <= j < |d| && d[j] == p;
      assert DiagonalAt(indptr, indices, d, j);
      RowOfUnique(n, indptr, indices, j, p);
    }
    if indices[p] == i {
      assert DiagonalAt(indptr, indices, d, i);
      SameColumnSamePosition(n, indptr, indices, i, p, d[i]);
    }
  }

  /** In canonical form a row stores each column at most once. */
  lemma SameColumnSamePosition(n: nat, indptr: seq<int>, indices: seq<int>, i: nat, p: int, q: int)
    requires Canonical(n, indptr, indices) && i < n
    requires indptr[i] <= p < indptr[i + 1] && indptr[i] <= q < indptr[i + 1]
    requires indices[p] == indices[q]
    ensures p == q
  {
    assert RowSorted(indptr, indices, i);
  }

  /** Distinct rows have distinct diagonal positions. */
  lemma DiagonalDistinct(n: nat, indptr: seq<int>, indices: seq<int>, d: seq<int>, i: nat, j: nat)
    requires Shaped(n, indptr, indices) && DiagonalIndex(n, indptr, indices, d)
    requires i < n && j < n && i != j
    ensures d[i] != d[j]
  {
    assert DiagonalAt(indptr, indices, d, i) && DiagonalAt(indptr, indices, d, j);
  }

  /** The value at the last stored position in `lo .. hi` whose column is `c`,
    * or 0.0 when there is none (numpy's fancy assignment keeps the last write). */
  function LastIn(indices: seq<int>, data: seq<real>, lo: int, hi: int, c: int): real
    requires 0 <= lo && hi <= |indices| == |data|
    decreases hi - lo
  {
    if hi <= lo then 0.0
    else if indices[hi - 1] == c then data[hi - 1]
    else LastIn(indices, data, lo, hi - 1, c)
  }

  /** The dense entry `(r, c)` of the matrix stored as `data`. */
  function Entry(n: nat, indptr: seq<int>, indices: seq<int>, data: seq<real>, r: nat, c: int): real
    requires Shaped(n, indptr, indices) && |data| == |indices| && r < n
  {
    LastIn(indices, data, indptr[r], indptr[r + 1], c)
  }

  /** Dense row `r`. */
  function DenseRow(n: nat, indptr: seq<int>, indices: seq<int>, data: seq<real>, r: nat): (row: seq<real>)
    requires Shaped(n, indptr, indices) && |data| == |indices| && r < n
    ensures |row| == n
  {
    seq(n, c requires 0 <= c < n => Entry(n, indptr, indices, data, r, c))
  }

  /** Dense column `c`. */
  function DenseCol(n: nat, indptr: seq<int>, indices: seq<int>, data: seq<real>, c: int): (col: seq<real>)
    requires Shaped(n, indptr, indices) && |data| == |indices|
    ensures |col| == n
  {
    seq(n, r requires 0 <= r < n => Entry(n, indptr, indices, data, r, c))
  }

  lemma {:induction false} LastInAt(indices: seq<int>, data: seq<real>, lo: int, hi: int, c: int, p: int)
    requires 0 <= lo && hi <= |indices| == |data|
    requires lo <= p < hi && indices[p] == c
    requires forall q :: p < q < hi ==> indices[q] != c
    ensures LastIn(indices, data, lo, hi, c) == data[p]
    decreases hi - lo
  {
    if p < hi - 1 {
      LastInAt(indices, data, lo, hi - 1, c, p);
    }
  }

  lemma {:induction false} LastInAbsent(indices: seq<int>, data: seq<real>, lo: int, hi: int, c: int)
    requires 0 <= lo && hi <= |indices| == |data|
    requires forall q :: lo <= q < hi ==> indices[q] != c
    ensures LastIn(indices, data, lo, hi, c) == 0.0
    decreases hi - lo
  {
    if lo < hi {
      LastInAbsent(indices, data, lo, hi - 1, c);
    }
  }

  /** In canonical form the dense entry is the value at the unique position of
    * that row and column, and 0.0 when the row stores no such column. */
  lemma EntryAt(n: nat, indptr: seq<int>, indices: seq<int>, data: seq<real>, r: nat, p: int)
    requires Canonical(n, indptr, indices) && |data| == |indices| && r < n
    requires indptr[r] <= p < indptr[r + 1]
    ensures Entry(n, indptr, indices, data, r, indices[p]) == data[p]
  {
    assert RowSorted(indptr, indices, r);
    LastInAt(indices, data, indptr[r], indptr[r + 1], indices[p], p);
  }

  lemma EntryAbsent(n: nat, indptr: seq<int>, indices: seq<int>, data: seq<real>, r: nat, c: int)
    requires Shaped(n, indptr, indices) && |data| == |indices| && r < n
    requires forall q :: indptr[r] <= q < indptr[r + 1] ==> indices[q] != c
    ensures Entry(n, indptr, indices, data, r, c) == 0.0
  {
    LastInAbsent(indices, data, indptr[r], indptr[r + 1], c);
  }

  /** A dense entry only depends on the values stored in its own row. */
  lemma {:induction false} LastInFrame(indices: seq<int>, d1: seq<real>, d2: seq<real>, lo: int, hi: int, c: int)
    requires 0 <= lo && hi <= |indices| == |d1| == |d2|
    requires forall q :: lo <= q < hi ==> d1[q] == d2[q]
    ensures LastIn(indices, d1, lo, hi, c) == LastIn(indices, d2, lo, hi, c)
    decreases hi - lo
  {
    if lo < hi {
      LastInFrame(indices, d1, d2, lo, hi - 1, c);
    }
  }

  /** Sum of a sequence, accumulated left to right like a Python loop. */
  function Sum(s: seq<real>): real
  {
    if s == [] then 0.0 else Sum(s[..|s| - 1]) + s[|s| - 1]
  }

  lemma SumStep(s: seq<real>, i: nat)
    requires i < |s|
    ensures Sum(s[..i + 1]) == Sum(s[..i]) + s[i]
  {
    assert s[..i + 1][..i] == s[..i];
  }

  /** Every entry zero gives a zero sum. */
  lemma {:induction false} SumZeros(s: seq<real>)
    requires forall i :: 0 <= i < |s| ==> s[i] == 0.0
    ensures Sum(s) == 0.0
  {
    if s != [] {
      SumZeros(s[..|s| - 1]);
    }
  }

  /** Dividing every entry by `k` divides the sum by `k`. */
  lemma {:induction false} SumScaled(s: seq<real>, t: seq<real>, k: real)
    requires k != 0.0 && |s| == |t|
    requires forall i :: 0 <= i < |s| ==> t[i] == s[i] / k
    ensures Sum(t) == Sum(s) / k
  {
    if s != [] {
      SumScaled(s[..|s| - 1], t[..|t| - 1], k);
    }
  }

  function Zeros(n: nat): (z: seq<real>)
    ensures |z| == n && forall i :: 0 <= i < n ==> z[i] == 0.0
  {
    seq(n, _ => 0.0)
  }

  /** Dense dot product of the common prefix of two vectors. */
  function Dot(a: seq<real>, b: seq<real>): real
    requires |a| == |b|
  {
    Sum(seq(|a|, i requires 0 <= i < |a| => a[i] * b[i]))
  }

  /** Dense matrix (list of rows) times vector. */
  function MatVec(m: seq<seq<real>>, v: seq<real>): (r: seq<real>)
    requires forall i :: 0 <= i < |m| ==> |m[i]| == |v|
    ensures |r| == |m|
  {
    seq(|m|, i requires 0 <= i < |m| => Dot(m[i], v))
  }

  /** A zero row contributes zero to any product. */
  lemma DotZero(a: seq<real>, b: seq<real>)
    requires |a| == |b| && forall i :: 0 <= i < |a| ==> a[i] == 0.0
    ensures Dot(a, b) == 0.0
  {
    SumZeros(seq(|a|, i requires 0 <= i < |a| => a[i] * b[i]));
  }
}
