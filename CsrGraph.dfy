/** The read-only graph in compressed form (common/graph/csrgraph.py): the
  * weight matrix is frozen in CSR layout, the node index is rebuilt from
  * the node list, and the edge count is the number of stored entries. */
module CsrGraph {
  import opened Wrappers
  import opened Csr
  import opened Lil
  import opened AdjMatrix
  import opened Digraph
  import opened Indexing

  /** With distinct names the rebuilt index is the inverse of the list,
    * so it agrees with the index the mutable graph keeps. */
  lemma EnumeratedOfGraph(g: Graph)
    requires Inv(g)
    ensures Enumerated(g.nodes) == g.node2index
  {
    var m := Enumerated(g.nodes);
    forall s | s in m ensures s in g.node2index && m[s] == g.node2index[s] {
      var k :| 0 <= k < |g.nodes| && g.nodes[k] == s;
      assert g.node2index[g.nodes[m[s]]] == m[s];
    }
    forall s | s in g.node2index ensures s in m {
      assert g.nodes[g.node2index[s]] == s;
    }
  }

  /** The positive entries of a row with one more entry appended. */
  lemma {:induction false} PositiveSnoc(nodes: seq<string>, row: Row, e: (nat, real))
    requires RowBelow(row, |nodes|) && e.0 < |nodes|
    ensures Positive(nodes, row + [e]) ==
              Positive(nodes, row) + (if e.1 > 0.0 then [(nodes[e.0], e.1)] else [])
  {
    if row != [] {
      assert (row + [e])[1..] == row[1..] + [e];
      PositiveSnoc(nodes, row[1..], e);
    } else {
      assert [e][1..] == [];
    }
  }

  class CsrDirectedGraph {
    const nodes: seq<string>
    const node2index: map<string, nat>
    const n: nat
    const indptr: seq<int>
    const indices: seq<int>
    const data: seq<real>
    const diagonalIx: seq<int>
    /** `nnz`: stored entries, the explicit zeros on the diagonal included. */
    const numEdges: nat
    /** Set from outside: the row weights handed to the adjacency matrix. */
    var nodeWeights: Option<seq<real>>

    ghost predicate Valid()
    {
      && n == |nodes|
      && Canonical(n, indptr, indices) && |data| == |indices|
      && DiagonalIndex(n, indptr, indices, diagonalIx)
      && node2index == Enumerated(nodes)
      && numEdges == |indices|
    }

    /** The stored matrix, row by row. */
    function Rows(): (rows: seq<Row>)
      requires Valid()
      ensures IsLil(rows, n) && DiagonalsKept(rows)
    {
      RowsOfIsLil(n, indptr, indices, data);
      var rows := RowsOf(n, indptr, indices, data);
      CsrRoundTrip(n, indptr, indices, data);
      forall i | 0 <= i < n ensures i in Cols(rows[i]) {
        assert DiagonalAt(indptr, indices, diagonalIx, i);
        EntryFromDiagonal(rows, n, i, diagonalIx[i]);
      }
      rows
    }

    /** The graph as the mutable graph sees it. */
    function View(): (g: Graph)
      requires Valid()
    {
      Graph(nodes, node2index, Rows(), numEdges)
    }

    constructor (names: seq<string>, rowPointers: seq<int>, columns: seq<int>, values: seq<real>, diagonal: seq<int>)
      requires Canonical(|names|, rowPointers, columns) && |values| == |columns|
      requires DiagonalIndex(|names|, rowPointers, columns, diagonal)
      ensures Valid() && nodeWeights.None?
      ensures nodes == names && n == |names| && indptr == rowPointers && indices == columns
      ensures data == values && diagonalIx == diagonal
    {
      nodes, node2index, n := names, Enumerated(names), |names|;
      indptr, indices, data, diagonalIx := rowPointers, columns, values, diagonal;
      numEdges := |columns|;
      nodeWeights := None;
    }

    /** `weighted_adjacency_matrix`: a copy of the matrix with the cached
      * diagonal index, or the transpose with a diagonal index found anew.
      * The transpose keeps every diagonal entry, so its scan never fails. */
    method WeightedAdjacencyMatrix(transpose: bool) returns (a: AdjacencyMatrix)
      requires Valid()
      requires nodeWeights.Some? ==> |nodeWeights.value| == n
      ensures fresh(a) && fresh(a.data) && a.Valid() && a.n == n && a.nodes == nodes
      ensures RowsOf(a.n, a.indptr, a.indices, a.data[..]) == Oriented(Rows(), n, transpose)
      ensures !transpose ==> a.indptr == indptr && a.indices == indices && a.data[..] == data
                             && a.diagonalIx == diagonalIx
    {
      if transpose {
        var m := Oriented(Rows(), n, true);
        ToCsrCanonical(m, n);
        LilRoundTrip(m, n);
        DiagonalsStored(Rows(), n, true);
        var diag := GetDiagonalIx(n, Pointers(m), FlatCols(m));
        var values := ToArray(FlatVals(m));
        a := new AdjacencyMatrix(values, diag.value, nodes, n, Pointers(m), FlatCols(m), nodeWeights);
      } else {
        var values := ToArray(data);
        a := new AdjacencyMatrix(values, diagonalIx, nodes, n, indptr, indices, nodeWeights);
        RowsOfIsLil(n, indptr, indices, data);
      }
    }

    /** `outgoing_edges`: the stored entries of the node's row with a
      * positive weight, as (node, weight) pairs in column order; an
      * unknown node is a KeyError. */
    method OutgoingEdges(node: string) returns (r: Result<seq<(string, real)>>)
      requires Valid()
      ensures r.Err? <==> node !in node2index
      ensures r.Ok? ==> r.value == Positive(nodes, Rows()[node2index[node]])
    {
      if node !in node2index {
        return Err("KeyError");
      }
      var i := node2index[node];
      var row := Rows()[i];
      var out: seq<(string, real)> := [];
      for k := 0 to indptr[i + 1] - indptr[i]
        invariant out == Positive(nodes, row[..k])
      {
        var p := indptr[i] + k;
        assert row[..k + 1] == row[..k] + [(indices[p] as nat, data[p])];
        PositiveSnoc(nodes, row[..k], (indices[p] as nat, data[p]));
        if data[p] > 0.0 {
          out := out + [(nodes[indices[p]], data[p])];
        }
      }
      assert row[..|row|] == row;
      return Ok(out);
    }
  }

  /** `CSRDirectedGraph(adjacency_matrix, nodes)`: the matrix is converted
    * to sorted CSR and its diagonal index is computed, which is an
    * IndexError when a row stores no diagonal entry. */
  method NewCsrGraph(rows: seq<Row>, names: seq<string>) returns (r: Result<CsrDirectedGraph>)
    requires IsLil(rows, |names|)
    ensures r.Err? <==> !DiagonalsKept(rows)
    ensures r.Ok? ==> fresh(r.value) && r.value.Valid() && r.value.nodes == names && r.value.Rows() == rows
  {
    var n := |names|;
    ToCsrCanonical(rows, n);
    LilRoundTrip(rows, n);
    DiagonalsStored(rows, n, false);
    var diag := GetDiagonalIx(n, Pointers(rows), FlatCols(rows));
    if diag.Err? {
      return Err(diag.error);
    }
    var g := new CsrDirectedGraph(names, Pointers(rows), FlatCols(rows), FlatVals(rows), diag.value);
    return Ok(g);
  }

  /** Freezing a mutable graph keeps its nodes, index and weights, so the
    * frozen graph lists the same out-edges. */
  lemma FrozenGraphAgrees(g: Graph, c: CsrDirectedGraph, node: string)
    requires Inv(g) && c.Valid() && c.nodes == g.nodes && c.Rows() == g.rows
    ensures c.View() == g.(numEdges := c.numEdges)
    ensures node in c.node2index <==> node in g.node2index
    ensures node in g.node2index ==> Ok(Positive(c.nodes, c.Rows()[c.node2index[node]])) == Outgoing(g, node)
  {
    EnumeratedOfGraph(g);
  }
}
