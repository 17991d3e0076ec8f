/** The mutable directed graph (common/graph/digraph.py): nodes are names
  * indexed in insertion order, and the edge weights live in a row-of-lists
  * matrix that gains a row, holding an explicit zero on the diagonal, for
  * every new node. */
module Digraph {
  import opened Wrappers
  import opened Csr
  import opened Lil
  import opened AdjMatrix

  /** The state of a graph: the node list, the name-to-index map, the rows
    * of the weight matrix and the edge counter. */
  datatype Graph = Graph(nodes: seq<string>, node2index: map<string, nat>, rows: seq<Row>, numEdges: nat)

  /** The index map inverts the node list, and the matrix is square over
    * the nodes. */
  ghost predicate Inv(g: Graph)
  {
    && IsLil(g.rows, |g.nodes|)
    && (forall i :: 0 <= i < |g.nodes| ==> g.nodes[i] in g.node2index && g.node2index[g.nodes[i]] == i)
    && (forall s :: s in g.node2index ==> g.node2index[s] < |g.nodes| && g.nodes[g.node2index[s]] == s)
  }

  /** The weight of the edge (a, b): what `A[i1, i2]` reads, and zero when
    * either end is not a node. */
  function Weight(g: Graph, a: string, b: string): real
    requires Inv(g)
  {
    if a in g.node2index && b in g.node2index then Get(g.rows[g.node2index[a]], g.node2index[b]) else 0.0
  }

  const Empty := Graph([], map[], [], 0)

  /** `insert_node`: a name not yet present gets the next index and a row
    * holding only an explicit zero on its diagonal. */
  function AddNode(g: Graph, node: string): (h: Graph)
    requires Inv(g)
    ensures Inv(h) && node in h.node2index
    ensures node in g.node2index ==> h == g
    ensures node !in g.node2index ==> h.nodes == g.nodes + [node] && h.numEdges == g.numEdges
    ensures forall s :: s in h.node2index <==> s in g.node2index || s == node
    ensures forall s :: s in g.node2index ==> h.node2index[s] == g.node2index[s]
    ensures forall a, b :: Weight(h, a, b) == Weight(g, a, b)
  {
    if node in g.node2index then g
    else
      var n := |g.nodes|;
      var h := Graph(g.nodes + [node], g.node2index[node := n], g.rows + [[(n, 0.0)]], g.numEdges);
      AddNodeWeights(g, h, node);
      h
  }

  lemma AddNodeWeights(g: Graph, h: Graph, node: string)
    requires Inv(g) && node !in g.node2index
    requires h == Graph(g.nodes + [node], g.node2index[node := |g.nodes|], g.rows + [[(|g.nodes|, 0.0)]], g.numEdges)
    ensures Inv(h)
    ensures forall a, b :: Weight(h, a, b) == Weight(g, a, b)
  {
    var n := |g.nodes|;
    forall a, b ensures Weight(h, a, b) == Weight(g, a, b) {
      if a in g.node2index && b in g.node2index {
        var ia, ib := g.node2index[a], g.node2index[b];
        assert h.node2index[a] == ia && h.node2index[b] == ib && h.rows[ia] == g.rows[ia];
      } else if a in g.node2index && b == node {
        var ia := g.node2index[a];
        assert h.rows[ia] == g.rows[ia] && RowBelow(g.rows[ia], n);
        assert n !in Cols(g.rows[ia]);
        GetAbsent(g.rows[ia], n);
      } else if a == node && b in h.node2index {
        var ib := h.node2index[b];
        assert h.node2index[a] == n && h.rows[n] == [(n, 0.0)];
        assert [(n, 0.0)][1..] == [];
        assert Get([(n, 0.0)], ib) == 0.0;
        assert Weight(g, a, b) == 0.0;
      } else {
        assert Weight(h, a, b) == 0.0;
        assert Weight(g, a, b) == 0.0;
      }
    }
  }

  /** The weight an `insert_edge` adds: 1.0 when none is given, doubled for
    * a self-loop. */
  function EdgeIncrement(s1: string, s2: string, weight: Option<real>): real
  {
    (if weight.None? then 1.0 else weight.value) * (if s1 == s2 then 2.0 else 1.0)
  }

  /** `insert_edge`: both ends are inserted, then `A[i1, i2] += weight`
    * (a sum of zero deletes the stored entry), and the edge counter
    * grows. */
  function AddEdge(g: Graph, s1: string, s2: string, weight: Option<real>): (h: Graph)
    requires Inv(g)
    ensures Inv(h)
  {
    var g1 := AddNode(AddNode(g, s1), s2);
    Accumulate(g1, g1.node2index[s1], g1.node2index[s2], EdgeIncrement(s1, s2, weight))
  }

  /** `A[i, j] += x` and one more edge counted. */
  function Accumulate(g: Graph, i: nat, j: nat, x: real): (h: Graph)
    requires Inv(g) && i < |g.nodes| && j < |g.nodes|
    ensures Inv(h)
  {
    var r := AddAt(g.rows[i], j, x);
    SetRowKeepsLil(g.rows, |g.nodes|, i, j, r);
    g.(rows := g.rows[i := r], numEdges := g.numEdges + 1)
  }


  /** An inserted edge adds its increment to the weight of (s1, s2) and
    * changes no other weight; the nodes are the old ones plus both ends. */
  lemma AddEdgeWeights(g: Graph, s1: string, s2: string, weight: Option<real>)
    requires Inv(g)
    ensures var h := AddEdge(g, s1, s2, weight);
            && (forall s :: s in h.node2index <==> s in g.node2index || s == s1 || s == s2)
            && h.numEdges == g.numEdges + 1
            && forall a, b :: Weight(h, a, b) ==
                 Weight(g, a, b) + (if a == s1 && b == s2 then EdgeIncrement(s1, s2, weight) else 0.0)
  {
    var g1 := AddNode(AddNode(g, s1), s2);
    var h := AddEdge(g, s1, s2, weight);
    var i1, i2 := g1.node2index[s1], g1.node2index[s2];
    forall a, b ensures Weight(h, a, b) ==
                 Weight(g, a, b) + (if a == s1 && b == s2 then EdgeIncrement(s1, s2, weight) else 0.0)
    {
      assert Weight(g1, a, b) == Weight(g, a, b);
      if a in h.node2index && b in h.node2index {
        var ia, ib := h.node2index[a], h.node2index[b];
        assert g1.nodes[ia] == a && g1.nodes[ib] == b;
        assert ia == i1 <==> a == s1;
        assert ib == i2 <==> b == s2;
      }
    }
  }

  /** `set_edge_weight`: a zero weight does nothing; otherwise both ends
    * must be nodes, and `A[i1, i2] = weight` stores the weight whether or
    * not the edge existed. */
  function SetWeight(g: Graph, s1: string, s2: string, weight: real): (r: Result<Graph>)
    requires Inv(g)
    ensures r.Ok? ==> Inv(r.value)
    ensures weight == 0.0 ==> r == Ok(g)
    ensures r.Err? <==> weight != 0.0 && (s1 !in g.node2index || s2 !in g.node2index)
    ensures r.Ok? ==> r.value.nodes == g.nodes && r.value.node2index == g.node2index && r.value.numEdges == g.numEdges
    ensures r.Ok? && weight != 0.0 ==>
              forall a, b :: Weight(r.value, a, b) == if a == s1 && b == s2 then weight else Weight(g, a, b)
  {
    if weight == 0.0 then Ok(g)
    else if s1 !in g.node2index || s2 !in g.node2index then Err("KeyError")
    else
      var i1, i2 := g.node2index[s1], g.node2index[s2];
      var h := g.(rows := g.rows[i1 := Put(g.rows[i1], i2, weight)]);
      SetRowKeepsLil(g.rows, |g.nodes|, i1, i2, Put(g.rows[i1], i2, weight));
      assert forall a :: a in g.node2index && g.node2index[a] == i1 ==> a == s1;
      assert forall b :: b in g.node2index && g.node2index[b] == i2 ==> b == s2;
      Ok(h)
  }

  /** The positive entries of a row, as (node, weight) pairs in column
    * order. */
  function Positive(nodes: seq<string>, row: Row): (out: seq<(string, real)>)
    requires RowBelow(row, |nodes|)
    ensures forall e :: e in out <==> exists p :: 0 <= p < |row| && row[p].1 > 0.0 && e == (nodes[row[p].0], row[p].1)
  {
    if row == [] then []
    else
      var rest := Positive(nodes, row[1..]);
      assert forall p :: 0 < p < |row| ==> row[1..][p - 1] == row[p];
      (if row[0].1 > 0.0 then [(nodes[row[0].0], row[0].1)] else []) + rest
  }

  /** `outgoing_edges`: the pairs (v, w) of the edges out of the node with
    * a positive weight; an unknown node is a KeyError. */
  function Outgoing(g: Graph, node: string): (r: Result<seq<(string, real)>>)
    requires Inv(g)
    ensures r.Err? <==> node !in g.node2index
  {
    if node !in g.node2index then Err("KeyError") else Ok(Positive(g.nodes, g.rows[g.node2index[node]]))
  }

  /** The out-edges listed are exactly the edges of positive weight, each
    * with its weight. */
  lemma OutgoingEdges(g: Graph, node: string, v: string, x: real)
    requires Inv(g) && node in g.node2index
    ensures (v, x) in Outgoing(g, node).value <==> v in g.node2index && x > 0.0 && Weight(g, node, v) == x
  {
    var row := g.rows[g.node2index[node]];
    if (v, x) in Outgoing(g, node).value {
      var p :| 0 <= p < |row| && row[p].1 > 0.0 && (v, x) == (g.nodes[row[p].0], row[p].1);
      GetAt(row, p);
    }
    if v in g.node2index && x > 0.0 && Weight(g, node, v) == x {
      var j := g.node2index[v];
      if j !in Cols(row) {
        GetAbsent(row, j);
      }
      var p :| 0 <= p < |row| && row[p].0 == j;
      GetAt(row, p);
    }
  }

  /** No two listed edges share their end node. */
  ghost predicate DistinctEnds(out: seq<(string, real)>)
  {
    forall k, l :: 0 <= k < l < |out| ==> out[k].0 != out[l].0
  }

  /** The edges of positive weight out of a node are listed once each. */
  lemma OutgoingDistinct(g: Graph, node: string)
    requires Inv(g) && node in g.node2index
    ensures DistinctEnds(Outgoing(g, node).value)
  {
    PositiveDistinct(g, g.rows[g.node2index[node]]);
  }

  lemma {:induction false} PositiveDistinct(g: Graph, row: Row)
    requires Inv(g) && SortedRow(row) && RowBelow(row, |g.nodes|)
    ensures DistinctEnds(Positive(g.nodes, row))
  {
    if row != [] {
      var tail := row[1..];
      SortedTail(row);
      assert RowBelow(tail, |g.nodes|) by {
        forall p | 0 <= p < |tail| ensures tail[p].0 < |g.nodes| {
          assert tail[p] == row[p + 1];
        }
      }
      PositiveDistinct(g, tail);
      var rest := Positive(g.nodes, tail);
      var head := g.nodes[row[0].0];
      assert g.node2index[head] == row[0].0;
      forall e | e in rest ensures e.0 != head {
        var p :| 0 <= p < |tail| && tail[p].1 > 0.0 && e == (g.nodes[tail[p].0], tail[p].1);
        assert tail[p] == row[p + 1];
        assert row[0].0 < row[p + 1].0;
        assert g.node2index[g.nodes[row[p + 1].0]] == row[p + 1].0;
      }
      if row[0].1 > 0.0 {
        var out := [(head, row[0].1)] + rest;
        assert Positive(g.nodes, row) == out;
        forall k, l | 0 <= k < l < |out| ensures out[k].0 != out[l].0 {
          assert out[l] == rest[l - 1];
          if k > 0 {
            assert out[k] == rest[k - 1];
          } else {
            assert out[l] in rest;
          }
        }
      } else {
        assert Positive(g.nodes, row) == rest;
      }
    }
  }

  /** `get_edge_weight`: both ends must be nodes. */
  function GetEdgeWeight(g: Graph, s1: string, s2: string): (r: Result<real>)
    requires Inv(g)
    ensures r.Err? <==> s1 !in g.node2index || s2 !in g.node2index
    ensures r.Ok? ==> r.value == Weight(g, s1, s2)
  {
    if s1 !in g.node2index || s2 !in g.node2index then Err("KeyError") else Ok(Weight(g, s1, s2))
  }

  // ---------------------------------------------------------------------
  // Copying edges between graphs (`extend`, `extract_nodes`)

  /** Inserting, one after the other, the listed out-edges of `src` whose
    * end is kept. */
  function InsertEdges(acc: Graph, src: string, edges: seq<(string, real)>, keep: set<string>): (h: Graph)
    requires Inv(acc)
    ensures Inv(h)
  {
    if edges == [] then acc
    else
      var e := edges[|edges| - 1];
      var pre := InsertEdges(acc, src, edges[..|edges| - 1], keep);
      if e.0 in keep then AddEdge(pre, src, e.0, Some(e.1)) else pre
  }

  /** For each listed node in turn, its positive out-edges to kept nodes
    * are inserted into `acc`; a listed name that is not a node of `g` is a
    * KeyError. */
  function CopyEdges(acc: Graph, g: Graph, names: seq<string>, keep: set<string>): (r: Result<Graph>)
    requires Inv(acc) && Inv(g)
    ensures r.Ok? ==> Inv(r.value)
    ensures r.Err? <==> exists k :: 0 <= k < |names| && names[k] !in g.node2index
  {
    if names == [] then Ok(acc)
    else
      var last := names[|names| - 1];
      var pre := CopyEdges(acc, g, names[..|names| - 1], keep);
      assert forall k :: 0 <= k < |names| - 1 ==> names[..|names| - 1][k] == names[k];
      if pre.Err? then pre
      else if last !in g.node2index then Err("KeyError")
      else Ok(InsertEdges(pre.value, last, Outgoing(g, last).value, keep))
  }

  /** After inserting the kept out-edges of `src`, every weight out of
    * `src` to a kept node has grown by its listed weight (doubled on the
    * diagonal), and nothing else has changed. */
  lemma {:induction false} InsertEdgesWeights(acc: Graph, src: string, edges: seq<(string, real)>,
                                              keep: set<string>, a: string, b: string)
    requires Inv(acc)
    requires forall k, l :: 0 <= k < l < |edges| ==> edges[k].0 != edges[l].0
    ensures var h := InsertEdges(acc, src, edges, keep);
            Weight(h, a, b) == Weight(acc, a, b) + Gain(src, edges, keep, a, b)
  {
    if edges != [] {
      var e := edges[|edges| - 1];
      var init := edges[..|edges| - 1];
      var pre := InsertEdges(acc, src, init, keep);
      InsertEdgesWeights(acc, src, init, keep, a, b);
      if e.0 in keep {
        AddEdgeWeights(pre, src, e.0, Some(e.1));
      }
      GainStep(src, edges, keep, a, b);
    }
  }

  /** The weight `InsertEdges` adds to (a, b): the listed weight of the
    * edge to b when a is the source and b is kept, doubled for a
    * self-loop. */
  function Gain(src: string, edges: seq<(string, real)>, keep: set<string>, a: string, b: string): real
  {
    if edges == [] then 0.0
    else
      var e := edges[|edges| - 1];
      Gain(src, edges[..|edges| - 1], keep, a, b)
      + (if a == src && b == e.0 && e.0 in keep then EdgeIncrement(src, e.0, Some(e.1)) else 0.0)
  }

  lemma GainStep(src: string, edges: seq<(string, real)>, keep: set<string>, a: string, b: string)
    requires edges != []
    ensures Gain(src, edges, keep, a, b) ==
              Gain(src, edges[..|edges| - 1], keep, a, b)
              + (if a == src && b == edges[|edges| - 1].0 && edges[|edges| - 1].0 in keep
                 then EdgeIncrement(src, edges[|edges| - 1].0, Some(edges[|edges| - 1].1)) else 0.0)
  {
  }

  /** With distinct ends, the gain is the listed weight of the one edge
    * to b, or zero when none is listed. */
  lemma {:induction false} GainOfListed(src: string, edges: seq<(string, real)>, keep: set<string>, a: string, b: string)
    requires forall k, l :: 0 <= k < l < |edges| ==> edges[k].0 != edges[l].0
    ensures (a != src || b !in keep || forall k :: 0 <= k < |edges| ==> edges[k].0 != b)
              ==> Gain(src, edges, keep, a, b) == 0.0
    ensures forall k :: 0 <= k < |edges| && a == src && b == edges[k].0 && b in keep
              ==> Gain(src, edges, keep, a, b) == EdgeIncrement(src, b, Some(edges[k].1))
  {
    if edges != [] {
      var init := edges[..|edges| - 1];
      assert forall k :: 0 <= k < |init| ==> init[k] == edges[k];
      GainOfListed(src, init, keep, a, b);
    }
  }

  // ---------------------------------------------------------------------
  // Reachability

  /** Every positive out-edge of a node of s ends in s. */
  ghost predicate Closed(g: Graph, s: set<string>)
    requires Inv(g)
  {
    forall u, v :: u in s && Weight(g, u, v) > 0.0 ==> v in s
  }

  /** v is reached from the start nodes along positive edges: it lies in
    * every closed set holding them. */
  ghost predicate Reachable(g: Graph, starts: set<string>, v: string)
    requires Inv(g)
  {
    forall s: set<string> {:trigger Closed(g, s)} :: starts <= s && Closed(g, s) ==> v in s
  }

  // ---------------------------------------------------------------------
  // get_diagonal_ix

  /** Every row of the list form still stores its diagonal entry, which
    * `insert_node` creates and a later zero assignment deletes. */
  ghost predicate DiagonalsKept(rows: seq<Row>)
  {
    forall i :: 0 <= i < |rows| ==> i in Cols(rows[i])
  }

  /** Every row of a CSR pattern stores its diagonal. */
  ghost predicate AllDiagonals(n: nat, indptr: seq<int>, indices: seq<int>)
    requires Shaped(n, indptr, indices)
  {
    forall i :: 0 <= i < n ==> HasDiagonal(n, indptr, indices, i)
  }

  /** Row i stores its diagonal. */
  ghost predicate HasDiagonal(n: nat, indptr: seq<int>, indices: seq<int>, i: nat)
    requires Shaped(n, indptr, indices) && i < n
  {
    exists p :: indptr[i] <= p < indptr[i + 1] && indices[p] == i
  }

  /** `get_diagonal_ix`: for every row, the first stored position whose
    * column is the row itself; a row without one is an IndexError. */
  method GetDiagonalIx(n: nat, indptr: seq<int>, indices: seq<int>) returns (r: Result<seq<int>>)
    requires Shaped(n, indptr, indices)
    ensures r.Ok? <==> AllDiagonals(n, indptr, indices)
    ensures r.Ok? ==> |r.value| == n && forall i :: 0 <= i < n ==> FirstDiagonal(indptr, indices, r.value, i)
    ensures r.Ok? ==> DiagonalIndex(n, indptr, indices, r.value)
  {
    var diagonal: seq<int> := [];
    var rowStart := indptr[0];
    for i := 0 to n
      invariant rowStart == indptr[i] && |diagonal| == i
      invariant forall k :: 0 <= k < i ==> HasDiagonal(n, indptr, indices, k)
      invariant forall k :: 0 <= k < i ==> FirstDiagonal(indptr, indices, diagonal, k)
    {
      var rowEnd := indptr[i + 1];
      var p := rowStart;
      while p < rowEnd && indices[p] != i
        invariant rowStart <= p <= rowEnd
        invariant forall q :: rowStart <= q < p ==> indices[q] != i
      {
        p := p + 1;
      }
      if p == rowEnd {
        assert !HasDiagonal(n, indptr, indices, i);
        return Err("IndexError");
      }
      ghost var prev := diagonal;
      diagonal := diagonal + [p];
      forall k | 0 <= k <= i ensures FirstDiagonal(indptr, indices, diagonal, k) {
        if k < i {
          assert FirstDiagonal(indptr, indices, prev, k) && diagonal[k] == prev[k];
        }
      }
      rowStart := rowEnd;
    }
    assert forall k :: 0 <= k < n ==> DiagonalAt(indptr, indices, diagonal, k) by {
      forall k | 0 <= k < n ensures DiagonalAt(indptr, indices, diagonal, k) {
        assert FirstDiagonal(indptr, indices, diagonal, k);
      }
    }
    return Ok(diagonal);
  }

  /** `d[i]` is the first stored position of row i whose column is i. */
  ghost predicate FirstDiagonal(indptr: seq<int>, indices: seq<int>, d: seq<int>, i: int)
  {
    && DiagonalAt(indptr, indices, d, i)
    && forall p :: 0 <= indptr[i] <= p < d[i] ==> indices[p] != i
  }

  /** The graph object. */
  class DirectedGraph {
    var nodes: seq<string>
    var node2index: map<string, nat>
    var numEdges: nat
    var rows: seq<Row>
    /** Set from outside: the row weights handed to the adjacency matrix. */
    var nodeWeights: Option<seq<real>>

    function State(): Graph
      reads this
    {
      Graph(nodes, node2index, rows, numEdges)
    }

    ghost predicate Valid()
      reads this
    {
      Inv(State())
    }

    /** An empty graph. */
    constructor ()
      ensures Valid() && State() == Empty && nodeWeights.None?
    {
      nodes, node2index, numEdges, rows := [], map[], 0, [];
      nodeWeights := None;
    }

    method InsertNode(node: string) returns (r: string)
      requires Valid()
      modifies this
      ensures Valid() && r == node
      ensures State() == AddNode(old(State()), node) && nodeWeights == old(nodeWeights)
    {
      if node !in node2index {
        node2index := node2index[node := |nodes|];
        rows := rows + [[(|nodes|, 0.0)]];
        nodes := nodes + [node];
      }
      return node;
    }

    method InsertEdge(s1: string, s2: string, weight: Option<real>)
      requires Valid()
      modifies this
      ensures Valid()
      ensures State() == AddEdge(old(State()), s1, s2, weight) && nodeWeights == old(nodeWeights)
    {
      var p1 := InsertNode(s1);
      var p2 := InsertNode(s2);
      var i1, i2 := node2index[p1], node2index[p2];
      var w := if weight.None? then 1.0 else weight.value;
      if p1 == p2 {
        w := w * 2.0;
      }
      assert w == EdgeIncrement(s1, s2, weight);
      AddToEntry(i1, i2, w);
    }

    /** `A[i, j] += x`, then the edge counter grows. */
    method AddToEntry(i: nat, j: nat, x: real)
      requires Valid() && i < |nodes| && j < |nodes|
      modifies this
      ensures State() == Accumulate(old(State()), i, j, x)
      ensures Valid() && nodeWeights == old(nodeWeights)
    {
      rows, numEdges := rows[i := AddAt(rows[i], j, x)], numEdges + 1;
    }

    method SetEdgeWeight(s1: string, s2: string, weight: real) returns (r: Result<()>)
      requires Valid()
      modifies this
      ensures Valid() && nodeWeights == old(nodeWeights)
      ensures r.Err? <==> SetWeight(old(State()), s1, s2, weight).Err?
      ensures r.Ok? ==> State() == SetWeight(old(State()), s1, s2, weight).value
      ensures r.Err? ==> State() == old(State())
    {
      if weight != 0.0 {
        if s1 !in node2index || s2 !in node2index {
          return Err("KeyError");
        }
        var i1, i2 := node2index[s1], node2index[s2];
        SetRowKeepsLil(rows, |nodes|, i1, i2, Put(rows[i1], i2, weight));
        rows := rows[i1 := Put(rows[i1], i2, weight)];
      }
      return Ok(());
    }

    method InsertUndirectedEdge(s1: string, s2: string, weight: Option<real>)
      requires Valid()
      modifies this
      ensures Valid() && nodeWeights == old(nodeWeights)
      ensures State() == AddEdge(AddEdge(old(State()), s1, s2, weight), s2, s1, weight)
    {
      InsertEdge(s1, s2, weight);
      InsertEdge(s2, s1, weight);
    }

    /** `extend`: every positive edge of `other`, node by node, inserted
      * with its weight. */
    method Extend(other: DirectedGraph)
      requires Valid() && other.Valid() && other != this
      modifies this
      ensures Valid() && nodeWeights == old(nodeWeights)
      ensures CopyEdges(old(State()), other.State(), other.nodes, other.node2index.Keys) == Ok(State())
    {
      ghost var start := State();
      var keep := other.node2index.Keys;
      for k := 0 to |other.nodes|
        invariant Valid() && nodeWeights == old(nodeWeights)
        invariant CopyEdges(start, other.State(), other.nodes[..k], keep) == Ok(State())
      {
        var p1 := other.nodes[k];
        var out := Outgoing(other.State(), p1).value;
        assert other.nodes[..k + 1][..k] == other.nodes[..k];
        InsertOutgoing(p1, out, keep);
      }
      assert other.nodes[..|other.nodes|] == other.nodes;
    }

    /** Inserts the listed out-edges of `src` whose end is kept. */
    method InsertOutgoing(src: string, out: seq<(string, real)>, keep: set<string>)
      requires Valid()
      modifies this
      ensures Valid() && nodeWeights == old(nodeWeights)
      ensures State() == InsertEdges(old(State()), src, out, keep)
    {
      ghost var start := State();
      for t := 0 to |out|
        invariant Valid() && nodeWeights == old(nodeWeights)
        invariant State() == InsertEdges(start, src, out[..t], keep)
      {
        assert out[..t + 1][..t] == out[..t];
        var (p2, w) := out[t];
        if p2 in keep {
          InsertEdge(src, p2, Some(w));
        }
      }
      assert out[..|out|] == out;
    }

    /** `extract_nodes`: a new graph holding the positive edges between
      * the listed nodes, inserted node by node in list order. */
    method ExtractNodes(names: seq<string>) returns (r: Result<DirectedGraph>)
      requires Valid()
      ensures r.Err? <==> exists k :: 0 <= k < |names| && names[k] !in node2index
      ensures r.Ok? ==> fresh(r.value) && r.value.Valid()
      ensures r.Ok? ==> Ok(r.value.State()) == CopyEdges(Empty, State(), names, set k | 0 <= k < |names| :: names[k])
    {
      var keep := set k | 0 <= k < |names| :: names[k];
      var sub := new DirectedGraph();
      for k := 0 to |names|
        invariant sub.Valid() && sub != this
        invariant CopyEdges(Empty, State(), names[..k], keep) == Ok(sub.State())
      {
        var p1 := names[k];
        assert names[..k + 1][..k] == names[..k];
        if p1 !in node2index {
          assert names[..k + 1][k] == p1;
          assert CopyEdges(Empty, State(), names[..k + 1], keep).Err?;
          CopyEdgesErrExtends(Empty, State(), names, keep, k + 1);
          return Err("KeyError");
        }
        var out := Outgoing(State(), p1).value;
        sub.InsertOutgoing(p1, out, keep);
      }
      assert names[..|names|] == names;
      return Ok(sub);
    }

    /** `weighted_adjacency_matrix`: the rows converted to CSR (transposed
      * first when asked), with the diagonal index; a node whose diagonal
      * entry is no longer stored makes it an IndexError. */
    method WeightedAdjacencyMatrix(transpose: bool) returns (r: Result<AdjacencyMatrix>)
      requires Valid()
      requires nodeWeights.Some? ==> |nodeWeights.value| == |nodes|
      ensures r.Ok? <==> DiagonalsKept(rows)
      ensures r.Ok? ==> var m := Oriented(rows, |nodes|, transpose);
                        && fresh(r.value) && fresh(r.value.data) && r.value.Valid()
                        && r.value.n == |nodes| && r.value.nodes == nodes
                        && r.value.indptr == Pointers(m) && r.value.indices == FlatCols(m)
                        && r.value.data[..] == FlatVals(m)
                        && RowsOf(r.value.n, r.value.indptr, r.value.indices, r.value.data[..]) == m
    {
      var n := |nodes|;
      var m := Oriented(rows, n, transpose);
      ToCsrCanonical(m, n);
      LilRoundTrip(m, n);
      var indptr, indices := Pointers(m), FlatCols(m);
      var diag := GetDiagonalIx(n, indptr, indices);
      DiagonalsStored(rows, n, transpose);
      if diag.Err? {
        return Err(diag.error);
      }
      var data := ToArray(FlatVals(m));
      var a := new AdjacencyMatrix(data, diag.value, nodes, n, indptr, indices, nodeWeights);
      return Ok(a);
    }
  }

  /** `transitive_closure`: the nodes reached from the given ones along
    * positive edges, found with a work set; a start that is not a node
    * is a KeyError. The graph is read, never changed. */
  method TransitiveClosure(g: Graph, starts: seq<string>) returns (r: Result<set<string>>)
    requires Inv(g)
    ensures r.Err? <==> exists k :: 0 <= k < |starts| && starts[k] !in g.node2index
    ensures r.Ok? ==> var s := set k | 0 <= k < |starts| :: starts[k];
                      && s <= r.value && Closed(g, r.value)
                      && forall v :: v in r.value ==> Reachable(g, s, v)
  {
    var visited: set<string> := {};
    var unvisited := set k | 0 <= k < |starts| :: starts[k];
    ghost var s0 := unvisited;
    FrontierInit(g, s0);
    while unvisited != {}
      invariant Frontier(g, s0, visited, unvisited)
      decreases |g.node2index.Keys - visited|
    {
      var u :| u in unvisited;
      ghost var before := visited;
      if u !in g.node2index {
        FrontierOutside(g, s0, visited, unvisited, u);
        return Err("KeyError");
      }
      FrontierStep(g, s0, visited, unvisited, u);
      visited := visited + {u};
      unvisited := PushSuccessors(g, u, visited, unvisited - {u});
      assert g.node2index.Keys - visited < g.node2index.Keys - before by {
        assert u in g.node2index.Keys - before;
      }
    }
    FrontierDone(g, s0, visited);
    return Ok(visited);
  }

  /** The loop invariant of `transitive_closure`: the visited nodes are
    * nodes; every start is visited or waiting; the positive successors of
    * a visited node are visited or waiting; and all of them are
    * reachable. */
  ghost predicate Frontier(g: Graph, s0: set<string>, visited: set<string>, unvisited: set<string>)
    requires Inv(g)
  {
    && visited !! unvisited && visited <= g.node2index.Keys
    && unvisited <= s0 + g.node2index.Keys
    && s0 <= visited + unvisited
    && (forall u, v :: u in visited && Weight(g, u, v) > 0.0 ==> v in visited + unvisited)
    && (forall v :: v in visited + unvisited ==> Reachable(g, s0, v))
  }

  lemma FrontierInit(g: Graph, s0: set<string>)
    requires Inv(g)
    ensures Frontier(g, s0, {}, s0)
  {
    forall v | v in s0 ensures Reachable(g, s0, v) {
    }
  }

  lemma FrontierStep(g: Graph, s0: set<string>, visited: set<string>, unvisited: set<string>, u: string)
    requires Inv(g) && Frontier(g, s0, visited, unvisited) && u in unvisited && u in g.node2index
    ensures Frontier(g, s0, visited + {u}, (unvisited - {u}) + (Successors(g, u) - (visited + {u})))
  {
    var v1, u1 := visited + {u}, (unvisited - {u}) + (Successors(g, u) - (visited + {u}));
    forall v | v in v1 + u1 ensures Reachable(g, s0, v) {
      if v !in visited + unvisited {
        ReachableStep(g, s0, u, v);
      }
    }
  }

  lemma FrontierOutside(g: Graph, s0: set<string>, visited: set<string>, unvisited: set<string>, u: string)
    requires Inv(g) && Frontier(g, s0, visited, unvisited) && u in unvisited && u !in g.node2index
    ensures u in s0
  {
  }

  lemma FrontierDone(g: Graph, s0: set<string>, visited: set<string>)
    requires Inv(g) && Frontier(g, s0, visited, {})
    ensures s0 <= visited && visited <= g.node2index.Keys && Closed(g, visited)
    ensures forall v :: v in visited ==> Reachable(g, s0, v)
  {
  }

  /** The rows the CSR form is built from: the matrix, or its transpose. */
  function Oriented(rows: seq<Row>, n: nat, transpose: bool): (m: seq<Row>)
    requires IsLil(rows, n)
    ensures IsLil(m, n)
  {
    if transpose then
      var t := Transpose(rows, n);
      assert IsLil(t, n) by {
        if n > 0 {
          TransposeMirrors(rows, n, 0, 0);
        }
      }
      t
    else rows
  }

  /** A new array holding the given values. */
  method ToArray(values: seq<real>) returns (a: array<real>)
    ensures fresh(a) && a[..] == values
  {
    a := new real[|values|](p requires 0 <= p < |values| => values[p]);
  }

  /** The successors of u along positive edges. */
  ghost function Successors(g: Graph, u: string): (s: set<string>)
    requires Inv(g)
    ensures s <= g.node2index.Keys
    ensures forall v :: v in s <==> Weight(g, u, v) > 0.0
  {
    set v | v in g.node2index && Weight(g, u, v) > 0.0
  }

  /** One step of the closure: the positive successors of u not yet
    * visited join the work set. */
  method PushSuccessors(g: Graph, u: string, visited: set<string>, unvisited: set<string>) returns (next: set<string>)
    requires Inv(g) && u in g.node2index
    ensures next == unvisited + (Successors(g, u) - visited)
  {
    var out := Outgoing(g, u).value;
    next := unvisited;
    for k := 0 to |out|
      invariant next == unvisited + ((set l | 0 <= l < k :: out[l].0) - visited)
    {
      assert (set l | 0 <= l < k + 1 :: out[l].0) == (set l | 0 <= l < k :: out[l].0) + {out[k].0};
      var v := out[k].0;
      if v !in visited {
        next := next + {v};
      }
    }
    assert (set l | 0 <= l < |out| :: out[l].0) == Successors(g, u) by {
      forall v | v in Successors(g, u) ensures v in (set l | 0 <= l < |out| :: out[l].0) {
        OutgoingEdges(g, u, v, Weight(g, u, v));
        var l :| 0 <= l < |out| && out[l] == (v, Weight(g, u, v));
      }
      forall l | 0 <= l < |out| ensures out[l].0 in Successors(g, u) {
        assert out[l] in out;
        OutgoingEdges(g, u, out[l].0, out[l].1);
      }
    }
  }

  /** Row i of the CSR form stores its diagonal exactly when row i of the
    * list form does. */
  lemma DiagonalStored(m: seq<Row>, n: nat, i: nat)
    requires IsLil(m, n) && i < n
    ensures Shaped(n, Pointers(m), FlatCols(m))
    ensures HasDiagonal(n, Pointers(m), FlatCols(m), i) <==> i in Cols(m[i])
  {
    ToCsrCanonical(m, n);
    var ip, ix := Pointers(m), FlatCols(m);
    RowLength(m, i);
    if HasDiagonal(n, ip, ix, i) {
      var p :| ip[i] <= p < ip[i + 1] && ix[p] == i;
      EntryFromDiagonal(m, n, i, p);
    }
    if i in Cols(m[i]) {
      var k :| 0 <= k < |m[i]| && m[i][k].0 == i;
      DiagonalFromEntry(m, n, i, k);
    }
  }

  lemma EntryFromDiagonal(m: seq<Row>, n: nat, i: nat, p: int)
    requires IsLil(m, n) && i < n
    requires Pointers(m)[i] <= p < Pointers(m)[i + 1] && 0 <= p < |FlatCols(m)| && FlatCols(m)[p] == i
    ensures i in Cols(m[i])
  {
    RowLength(m, i);
    var k := p - Pointers(m)[i];
    FlatLayout(m, i, k);
    assert m[i][k].0 == i;
  }

  lemma DiagonalFromEntry(m: seq<Row>, n: nat, i: nat, k: nat)
    requires IsLil(m, n) && i < n && k < |m[i]| && m[i][k].0 == i
    ensures Shaped(n, Pointers(m), FlatCols(m)) && HasDiagonal(n, Pointers(m), FlatCols(m), i)
  {
    ToCsrCanonical(m, n);
    FlatLayout(m, i, k);
    var p := Pointers(m)[i] + k;
    assert Pointers(m)[i] <= p < Pointers(m)[i + 1] && FlatCols(m)[p] == i;
  }

  /** Every row of the CSR form stores its diagonal exactly when every row
    * of the graph does; transposing changes nothing to that. */
  lemma DiagonalsStored(rows: seq<Row>, n: nat, transpose: bool)
    requires IsLil(rows, n)
    ensures Shaped(n, Pointers(Oriented(rows, n, transpose)), FlatCols(Oriented(rows, n, transpose)))
    ensures AllDiagonals(n, Pointers(Oriented(rows, n, transpose)), FlatCols(Oriented(rows, n, transpose)))
            <==> DiagonalsKept(rows)
  {
    var m := Oriented(rows, n, transpose);
    ToCsrCanonical(m, n);
    forall i | 0 <= i < n
      ensures HasDiagonal(n, Pointers(m), FlatCols(m), i) <==> i in Cols(rows[i])
    {
      DiagonalStored(m, n, i);
      if transpose {
        TransposeMirrors(rows, n, i, i);
        assert m[i] == Transpose(rows, n)[i];
      }
    }
  }

  /** A positive successor of a reached node is reached. */
  lemma ReachableStep(g: Graph, starts: set<string>, u: string, v: string)
    requires Inv(g) && Reachable(g, starts, u) && Weight(g, u, v) > 0.0
    ensures Reachable(g, starts, v)
  {
    forall s | starts <= s && Closed(g, s) ensures v in s {
      assert u in s;
    }
  }

  /** An error in a prefix of the list is an error of the whole list. */
  lemma CopyEdgesErrExtends(acc: Graph, g: Graph, names: seq<string>, keep: set<string>, k: nat)
    requires Inv(acc) && Inv(g) && k <= |names|
    requires CopyEdges(acc, g, names[..k], keep).Err?
    ensures CopyEdges(acc, g, names, keep).Err?
  {
    var j :| 0 <= j < k && names[..k][j] !in g.node2index;
    assert names[j] !in g.node2index;
  }
}
