/** The CSR adjacency matrix of a graph together with its diagonal index,
  * node list and row weights (common/graph/adjmatrix.py). Only the stored
  * values `data` are ever overwritten in place. */
module AdjMatrix {
  import opened Wrappers
  import opened Csr

  /** Sum of the values stored in every row. */
  function RowSums(n: nat, indptr: seq<int>, indices: seq<int>, d: seq<real>): (w: seq<real>)
    requires Shaped(n, indptr, indices) && |d| == |indices|
    ensures |w| == n
  {
    seq(n, i requires 0 <= i < n => Sum(d[indptr[i]..indptr[i + 1]]))
  }

  /** The transition matrix: each row divided by its weight when that weight
    * is positive, rows of non-positive weight left as they are. */
  function Normalized(n: nat, indptr: seq<int>, indices: seq<int>, w: seq<real>, d: seq<real>): (t: seq<real>)
    requires Shaped(n, indptr, indices) && |d| == |indices| && |w| == n
    ensures |t| == |d|
  {
    seq(|d|, p requires 0 <= p < |d| =>
      var i := RowOf(n, indptr, p);
      if w[i] > 0.0 then d[p] / w[i] else d[p])
  }

  /** Damping factor of one node: its entry in the map, or the default. */
  function Factor(alpha: real, alphaMap: map<nat, real>, i: nat): real
  {
    if i in alphaMap then alphaMap[i] else alpha
  }

  /** Elementwise product `a * b` (numpy.multiply). */
  function Mul(a: seq<real>, b: seq<real>): (r: seq<real>)
    requires |a| == |b|
    ensures |r| == |a| && forall p :: 0 <= p < |a| ==> r[p] == a[p] * b[p]
  {
    seq(|a|, p requires 0 <= p < |a| => a[p] * b[p])
  }

  /** The damping mask of a pattern: the entry stored at position p, in row
    * i and column j, is the out-factor of i times the in-factor of j. */
  ghost function DfMask(n: nat, indptr: seq<int>, indices: seq<int>, alphaOut: real, alphaOutMap: map<nat, real>,
                        alphaIn: real, alphaInMap: map<nat, real>): (m: seq<real>)
    requires Shaped(n, indptr, indices)
    ensures |m| == |indices|
  {
    seq(|indices|, p requires 0 <= p < |indices| =>
      Factor(alphaIn, alphaInMap, indices[p]) * Factor(alphaOut, alphaOutMap, RowOf(n, indptr, p)))
  }

  /** The row-weight loop of the constructor: one sum per row. */
  method ComputeRowWeights(n: nat, indptr: seq<int>, indices: seq<int>, data: array<real>) returns (w: seq<real>)
    requires Shaped(n, indptr, indices) && data.Length == |indices|
    ensures w == RowSums(n, indptr, indices, data[..])
  {
    w := [];
    var rowStart := indptr[0];
    for i := 0 to n
      invariant rowStart == indptr[i]
      invariant |w| == i
      invariant forall k :: 0 <= k < i ==> w[k] == Sum(data[..][indptr[k]..indptr[k + 1]])
    {
      var rowEnd := indptr[i + 1];
      var s := SumRange(data, rowStart, rowEnd);
      w := w + [s];
      rowStart := rowEnd;
    }
  }

  /** The sum of the stored values from position lo up to hi. */
  method SumRange(data: array<real>, lo: nat, hi: nat) returns (s: real)
    requires lo <= hi <= data.Length
    ensures s == Sum(data[lo..hi])
  {
    s := 0.0;
    for p := lo to hi
      invariant s == Sum(data[lo..p])
    {
      assert data[lo..p + 1][..p - lo] == data[lo..p];
      s := s + data[p];
    }
  }

  /** Dividing a row by its own positive sum leaves a row summing to 1. */
  lemma ScaledByOwnSum(row: seq<real>, nrow: seq<real>, k: real)
    requires k > 0.0 && k == Sum(row) && |nrow| == |row|
    requires forall j :: 0 <= j < |row| ==> nrow[j] == row[j] / k
    ensures Sum(nrow) == 1.0
  {
    SumScaled(row, nrow, k);
    QuotientOfEqual(Sum(row), Sum(nrow), k);
  }

  lemma QuotientOfEqual(a: real, b: real, k: real)
    requires k > 0.0 && a == k && b == a / k
    ensures b == 1.0
  {
  }

  /** Row sums are a valid weighting: after dividing each row of positive
    * sum by its sum, that row sums to 1. */
  lemma NormalizedRowSumsToOne(n: nat, indptr: seq<int>, indices: seq<int>, d: seq<real>, i: nat)
    requires Shaped(n, indptr, indices) && |d| == |indices| && i < n
    requires RowSums(n, indptr, indices, d)[i] > 0.0
    ensures Sum(Normalized(n, indptr, indices, RowSums(n, indptr, indices, d), d)[indptr[i]..indptr[i + 1]]) == 1.0
  {
    var w := RowSums(n, indptr, indices, d);
    var t := Normalized(n, indptr, indices, w, d);
    var lo, hi := indptr[i], indptr[i + 1];
    var wi := w[i];
    assert wi == Sum(d[lo..hi]);
    var row, nrow := d[lo..hi], t[lo..hi];
    forall k | 0 <= k < hi - lo ensures nrow[k] == row[k] / wi {
      NormalizedEntry(n, indptr, indices, w, d, i, lo + k);
    }
    ScaledByOwnSum(row, nrow, wi);
  }

  /** A stored value of a row of positive weight is divided by that weight. */
  lemma NormalizedEntry(n: nat, indptr: seq<int>, indices: seq<int>, w: seq<real>, d: seq<real>, i: nat, p: int)
    requires Shaped(n, indptr, indices) && |d| == |indices| && |w| == n
    requires i < n && indptr[i] <= p < indptr[i + 1] && w[i] > 0.0
    ensures 0 <= p < |d| && Normalized(n, indptr, indices, w, d)[p] == d[p] / w[i]
  {
    RowOfUnique(n, indptr, indices, i, p);
  }

  /** Writes `rowValue[i]` into every stored position of row i. */
  method FillRows(mask: array<real>, n: nat, indptr: seq<int>, indices: seq<int>, rowValue: seq<real>)
    requires Shaped(n, indptr, indices) && mask.Length == |indices| && |rowValue| == n
    modifies mask
    ensures forall p :: 0 <= p < mask.Length ==> mask[p] == rowValue[RowOf(n, indptr, p)]
  {
    var rowStart := indptr[0];
    for i := 0 to n
      invariant rowStart == indptr[i]
      invariant forall p :: 0 <= p < indptr[i] ==> mask[p] == rowValue[RowOf(n, indptr, p)]
    {
      var rowEnd := indptr[i + 1];
      for p := rowStart to rowEnd
        invariant forall q :: 0 <= q < indptr[i] ==> mask[q] == rowValue[RowOf(n, indptr, q)]
        invariant forall q :: rowStart <= q < p ==> mask[q] == rowValue[i]
      {
        mask[p] := rowValue[i];
      }
      forall q | rowStart <= q < rowEnd ensures RowOf(n, indptr, q) == i {
        RowOfUnique(n, indptr, indices, i, q);
      }
      rowStart := rowEnd;
    }
  }

  /** The mask loop itself: rows take their out-factor, then every entry is
    * multiplied by the in-factor of its column. */
  method MaskValues(n: nat, indptr: seq<int>, indices: seq<int>, tmpOut: seq<real>, tmpIn: seq<real>)
    returns (m: seq<real>)
    requires Shaped(n, indptr, indices) && |tmpOut| == n && |tmpIn| == n
    ensures |m| == |indices|
    ensures forall p :: 0 <= p < |m| ==> m[p] == tmpIn[indices[p]] * tmpOut[RowOf(n, indptr, p)]
  {
    var mask := new real[|indices|];
    FillRows(mask, n, indptr, indices, tmpOut);
    for p := 0 to mask.Length
      invariant forall q :: 0 <= q < p ==> mask[q] == tmpIn[indices[q]] * tmpOut[RowOf(n, indptr, q)]
      invariant forall q :: p <= q < mask.Length ==> mask[q] == tmpOut[RowOf(n, indptr, q)]
    {
      mask[p] := tmpIn[indices[p]] * mask[p];
    }
    m := mask[..];
  }

  class AdjacencyMatrix {
    const n: nat
    const indptr: seq<int>
    const indices: seq<int>
    /** The stored values: the only part of the matrix updated in place. */
    const data: array<real>
    const diagonalIx: seq<int>
    const nodes: seq<string>
    const rowWeights: seq<real>

    ghost predicate Valid()
      reads this
    {
      && Canonical(n, indptr, indices)
      && DiagonalIndex(n, indptr, indices, diagonalIx)
      && data.Length == |indices|
      && |nodes| == n
      && |rowWeights| == n
    }

    /** Stores the given parts; without row weights, the weight of every row
      * is the sum of its stored values. */
    constructor (values: array<real>, diagonal: seq<int>, nodeNames: seq<string>,
                 order: nat, rowPointers: seq<int>, columns: seq<int>, weights: Option<seq<real>>)
      requires Canonical(order, rowPointers, columns) && DiagonalIndex(order, rowPointers, columns, diagonal)
      requires values.Length == |columns| && |nodeNames| == order
      requires weights.Some? ==> |weights.value| == order
      ensures Valid()
      ensures data == values && diagonalIx == diagonal && nodes == nodeNames
      ensures n == order && indptr == rowPointers && indices == columns
      ensures weights.Some? ==> rowWeights == weights.value
      ensures weights.None? ==> rowWeights == RowSums(order, rowPointers, columns, values[..])
    {
      var w: seq<real>;
      if weights.None? {
        w := ComputeRowWeights(order, rowPointers, columns, values);
      } else {
        w := weights.value;
      }
      n, indptr, indices, data := order, rowPointers, columns, values;
      diagonalIx, nodes, rowWeights := diagonal, nodeNames, w;
    }

    /** A new matrix with its own copy of the stored values; the pattern,
      * diagonal index, nodes and row weights are the same. */
    method Copy() returns (c: AdjacencyMatrix)
      requires Valid()
      ensures fresh(c) && fresh(c.data) && c.Valid()
      ensures c.data[..] == data[..]
      ensures c.n == n && c.indptr == indptr && c.indices == indices
      ensures c.diagonalIx == diagonalIx && c.nodes == nodes && c.rowWeights == rowWeights
    {
      var values := new real[data.Length](i requires 0 <= i < data.Length reads data => data[i]);
      c := new AdjacencyMatrix(values, diagonalIx, nodes, n, indptr, indices, Some(rowWeights));
    }

    /** The damping mask: the entry stored at (i, j) gets the out-factor of
      * row i times the in-factor of column j. A map key that is not a node
      * index is an IndexError. */
    method GetDfMask(alphaOut: real, alphaOutMap: map<nat, real>, alphaIn: real, alphaInMap: map<nat, real>)
      returns (r: Result<seq<real>>)
      requires Valid()
      ensures r.Err? <==> (exists i :: i in alphaOutMap && i >= n) || (exists j :: j in alphaInMap && j >= n)
      ensures r.Ok? ==> |r.value| == data.Length
      ensures r.Ok? ==> forall p :: 0 <= p < |r.value| ==>
                r.value[p] == Factor(alphaIn, alphaInMap, indices[p]) * Factor(alphaOut, alphaOutMap, RowOf(n, indptr, p))
      ensures r.Ok? ==> r.value == DfMask(n, indptr, indices, alphaOut, alphaOutMap, alphaIn, alphaInMap)
    {
      if (exists i :: i in alphaOutMap && i >= n) || (exists j :: j in alphaInMap && j >= n) {
        return Err("IndexError");
      }
      var tmpOut := seq(n, i requires 0 <= i < n => Factor(alphaOut, alphaOutMap, i));
      var tmpIn := seq(n, j requires 0 <= j < n => Factor(alphaIn, alphaInMap, j));
      var mask := MaskValues(n, indptr, indices, tmpOut, tmpIn);
      forall p | 0 <= p < |mask|
        ensures mask[p] == Factor(alphaIn, alphaInMap, indices[p]) * Factor(alphaOut, alphaOutMap, RowOf(n, indptr, p))
      {
        var i, j := RowOf(n, indptr, p), indices[p];
        assert tmpOut[i] == Factor(alphaOut, alphaOutMap, i);
        assert tmpIn[j] == Factor(alphaIn, alphaInMap, j);
      }
      ghost var spec := DfMask(n, indptr, indices, alphaOut, alphaOutMap, alphaIn, alphaInMap);
      assert |mask| == |spec|;
      assert forall p :: 0 <= p < |mask| ==> mask[p] == spec[p];
      return Ok(mask);
    }

    /** Turns the stored values into the transition matrix in place: row i
      * is divided by its weight when that weight is positive. */
    method MakeTransitionMatrix()
      requires Valid()
      modifies data
      ensures data[..] == Normalized(n, indptr, indices, rowWeights, old(data[..]))
    {
      ghost var before := data[..];
      var rowStart := indptr[0];
      for i := 0 to n
        invariant rowStart == indptr[i]
        invariant forall p :: 0 <= p < indptr[i] ==> data[p] == Normalized(n, indptr, indices, rowWeights, before)[p]
        invariant forall p :: indptr[i] <= p < data.Length ==> data[p] == before[p]
      {
        var rowEnd := indptr[i + 1];
        var rowSum := rowWeights[i];
        forall q | rowStart <= q < rowEnd ensures RowOf(n, indptr, q) == i {
          RowOfUnique(n, indptr, indices, i, q);
        }
        if rowSum > 0.0 {
          for p := rowStart to rowEnd
            invariant forall q :: 0 <= q < indptr[i] ==> data[q] == Normalized(n, indptr, indices, rowWeights, before)[q]
            invariant forall q :: rowStart <= q < p ==> data[q] == before[q] / rowSum
            invariant forall q :: p <= q < data.Length ==> data[q] == before[q]
          {
            data[p] := data[p] / rowSum;
          }
        }
        rowStart := rowEnd;
      }
    }
  }
}
