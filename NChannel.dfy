/** Normalized channel mode: random walks start at the source nodes and are
  * kept only if they end at one of the sink nodes. Column i of F holds, for
  * every node, the probability that a walk from it is absorbed at sink i;
  * column j of H holds the expected number of visits to every node by the
  * walks from source j. Matrices are lists of columns, so `f[i]` is the
  * column of sink i and `h[j]` the column of source j. */
module NChannel {
  import opened Wrappers
  import opened Csr
  import opened Dense
  import opened AdjMatrix
  import opened Laplacian
  import opened Newton
  import opened BoundaryProblem
  import opened PriorityDict
  import opened DMatrix
  import Emitting

  // ---------------------------------------------------------------------
  // The context: F and H from the boundary rows and columns

  /** The last position of r in s: the position whose write is left
    * standing when the entries of s are written in order. */
  function LastIndex(s: seq<nat>, r: nat): (k: nat)
    requires r in s
    ensures k < |s| && s[k] == r && forall l :: k < l < |s| ==> s[l] != r
  {
    if s[|s| - 1] == r then |s| - 1 else LastIndex(s[..|s| - 1], r)
  }

  lemma LastIndexExtend(s: seq<nat>, j: nat, r: nat)
    requires j < |s| && r in s[..j + 1]
    ensures s[j] == r ==> LastIndex(s[..j + 1], r) == j
    ensures s[j] != r ==> r in s[..j] && LastIndex(s[..j + 1], r) == LastIndex(s[..j], r)
  {
    assert s[..j + 1][..j] == s[..j];
  }

  /** `G_SK = P_S F + P_S[:, sinks]`: entry (j, i) adds the product of the
    * transition row of source j with the cleared column i of F to the
    * one-step probability from source j to sink i. */
  function SourceSinkBlock(n: nat, rows: seq<seq<real>>, f: seq<seq<real>>, sinks: seq<nat>): (g: seq<seq<real>>)
    requires |f| == |sinks| && forall i :: 0 <= i < |sinks| ==> |f[i]| == n && sinks[i] < n
    requires forall j :: 0 <= j < |rows| ==> |rows[j]| == n
    ensures |g| == |rows| && forall j :: 0 <= j < |rows| ==> |g[j]| == |sinks|
  {
    seq(|rows|, j requires 0 <= j < |rows| =>
      seq(|sinks|, i requires 0 <= i < |sinks| => Dot(rows[j], f[i]) + rows[j][sinks[i]]))
  }

  /** Column i of F built from the solution x: the sources and sinks are
    * cleared, its own sink k_i holds 1, and each source holds its entry of
    * G. The sources are written last, so a source that is also a sink
    * holds G, and a repeated source holds the entry of its last position. */
  ghost predicate SinkColumnOf(col: seq<real>, x: seq<real>, g: seq<seq<real>>,
                               sources: seq<nat>, sinks: seq<nat>, i: nat)
    requires i < |sinks| && |g| == |sources| && forall j :: 0 <= j < |g| ==> |g[j]| == |sinks|
  {
    |col| == |x| &&
    forall r :: 0 <= r < |x| ==>
      col[r] == if r in sources then g[LastIndex(sources, r)][i]
                else if r == sinks[i] then 1.0
                else if r in sinks then 0.0
                else x[r]
  }

  /** Column j of H built from the solution y: the sources and sinks are
    * cleared, each sink holds its entry of G, and its own source s_j holds
    * 1. The own source is written last, so it holds 1 even when it is also
    * a sink; a repeated sink holds the entry of its last position. */
  ghost predicate SourceColumnOf(col: seq<real>, y: seq<real>, g: seq<seq<real>>,
                                 sources: seq<nat>, sinks: seq<nat>, j: nat)
    requires j < |sources| && j < |g| && |g[j]| == |sinks|
  {
    |col| == |y| &&
    forall r :: 0 <= r < |y| ==>
      col[r] == if r == sources[j] then 1.0
                else if r in sinks then g[j][LastIndex(sinks, r)]
                else if r in sources then 0.0
                else y[r]
  }

  /** F and H of the context, given the transition rows of the sources,
    * the solutions xs for the sink columns and ys for the source rows. */
  ghost predicate Channel(n: nat, rows: seq<seq<real>>, xs: seq<seq<real>>, ys: seq<seq<real>>,
                          sources: seq<nat>, sinks: seq<nat>, f: seq<seq<real>>, h: seq<seq<real>>)
  {
    && |rows| == |ys| == |sources| && |xs| == |sinks|
    && (forall j :: 0 <= j < |sources| ==> sources[j] < n && |rows[j]| == n && |ys[j]| == n)
    && (forall i :: 0 <= i < |sinks| ==> sinks[i] < n && |xs[i]| == n)
    && var g := SourceSinkBlock(n, rows, seq(|xs|, i requires 0 <= i < |xs| => Reset(xs[i], sources + sinks)), sinks);
       && |f| == |sinks| && |h| == |sources|
       && (forall i :: 0 <= i < |sinks| ==> SinkColumnOf(f[i], xs[i], g, sources, sinks, i))
       && (forall j :: 0 <= j < |sources| ==> SourceColumnOf(h[j], ys[j], g, sources, sinks, j))
  }

  /** The loop over the sources for column i of F: `F[k_i, i] = 1`, then
    * `F[s_j, i] = G[j, i]` for every source in order, on the column c
    * already cleared at the sources and sinks. */
  method FinishSinkColumn(c: seq<real>, ghost x: seq<real>, g: seq<seq<real>>,
                          sources: seq<nat>, sinks: seq<nat>, i: nat)
    returns (col: seq<real>)
    requires i < |sinks| && |g| == |sources| && forall j :: 0 <= j < |g| ==> |g[j]| == |sinks|
    requires c == Reset(x, sources + sinks)
    requires (forall j :: 0 <= j < |sources| ==> sources[j] < |x|) && sinks[i] < |x|
    ensures SinkColumnOf(col, x, g, sources, sinks, i)
  {
    var a := new real[|c|](r requires 0 <= r < |c| => c[r]);
    a[sinks[i]] := 1.0;
    for j := 0 to |sources|
      invariant forall r :: 0 <= r < |x| ==>
                  a[r] == if r in sources[..j] then g[LastIndex(sources[..j], r)][i]
                          else if r == sinks[i] then 1.0
                          else c[r]
    {
      a[sources[j]] := g[j][i];
      forall r | 0 <= r < |x| && r in sources[..j + 1]
        ensures a[r] == g[LastIndex(sources[..j + 1], r)][i]
      {
        LastIndexExtend(sources, j, r);
      }
      forall r | 0 <= r < |x| && r !in sources[..j + 1]
        ensures r !in sources[..j]
      {
        assert sources[..j + 1] == sources[..j] + [sources[j]];
      }
    }
    assert sources[..|sources|] == sources;
    col := a[..];
  }

  /** The loop over the sinks for column j of H: `H[k_i, j] = G[j, i]` for
    * every sink in order, then `H[s_j, j] = 1`, on the column c already
    * cleared at the sources and sinks. */
  method FinishSourceColumn(c: seq<real>, ghost y: seq<real>, g: seq<seq<real>>,
                            sources: seq<nat>, sinks: seq<nat>, j: nat)
    returns (col: seq<real>)
    requires j < |sources| && j < |g| && |g[j]| == |sinks|
    requires c == Reset(y, sources + sinks)
    requires (forall i :: 0 <= i < |sinks| ==> sinks[i] < |y|) && sources[j] < |y|
    ensures SourceColumnOf(col, y, g, sources, sinks, j)
  {
    var a := new real[|c|](r requires 0 <= r < |c| => c[r]);
    for i := 0 to |sinks|
      invariant forall r :: 0 <= r < |y| ==>
                  a[r] == if r in sinks[..i] then g[j][LastIndex(sinks[..i], r)] else c[r]
    {
      a[sinks[i]] := g[j][i];
      forall r | 0 <= r < |y| && r in sinks[..i + 1]
        ensures a[r] == g[j][LastIndex(sinks[..i + 1], r)]
      {
        LastIndexExtend(sinks, i, r);
      }
      forall r | 0 <= r < |y| && r !in sinks[..i + 1]
        ensures r !in sinks[..i]
      {
        assert sinks[..i + 1] == sinks[..i] + [sinks[i]];
      }
    }
    assert sinks[..|sinks|] == sinks;
    a[sources[j]] := 1.0;
    col := a[..];
  }

  /** The operator has a boundary column for every sink, and every sink
    * is a node. */
  ghost predicate HasSinkCols(spl: SparseLaplacian, sinks: seq<nat>)
    reads spl, spl.w
  {
    forall i :: 0 <= i < |sinks| ==> sinks[i] < spl.w.n && (spl.full || sinks[i] in spl.boundaryCols)
  }

  /** The context of the operator in the setup st with stored values m:
    * the rows are the transition rows of the sources, xs[i] solves
    * L x = (transition column of sink i) and ys[j] solves
    * L^T y = (transition row of source j). */
  ghost predicate IsChannel(spl: SparseLaplacian, st: Setup, m: CsrMatrix, sources: seq<nat>, sinks: seq<nat>,
                            f: seq<seq<real>>, h: seq<seq<real>>)
    requires spl.Solvable(st)
  {
    var n := spl.w.n;
    && (forall j :: 0 <= j < |sources| ==> sources[j] < n)
    && (forall i :: 0 <= i < |sinks| ==> sinks[i] < n)
    && Channel(n,
               seq(|sources|, j requires 0 <= j < |sources| && sources[j] < n =>
                 DenseRow(n, spl.w.indptr, spl.w.indices, spl.transition, sources[j])),
               seq(|sinks|, i requires 0 <= i < |sinks| && sinks[i] < n =>
                 spl.SolutionOf(st, m, DenseCol(n, spl.w.indptr, spl.w.indices, spl.transition, sinks[i]), true)),
               seq(|sources|, j requires 0 <= j < |sources| && sources[j] < n =>
                 spl.SolutionOf(st, m, DenseRow(n, spl.w.indptr, spl.w.indices, spl.transition, sources[j]), false)),
               sources, sinks, f, h)
  }

  /** `evaluate_context` for the channel: F from the solutions for the sink
    * columns, H from the solutions for the source rows, sharing the block
    * G. A source without a boundary row, or a sink without a boundary
    * column, is an error. */
  method EvaluateContext(spl: SparseLaplacian, sources: seq<nat>, sinks: seq<nat>)
    returns (r: Result<(seq<seq<real>>, seq<seq<real>>)>)
    requires spl.Valid() && spl.Ready()
    modifies spl
    ensures spl.Valid() && spl.Ready() && spl.State() == old(spl.State())
    ensures r.Ok? <==> Emitting.HasRows(spl, sources) && HasSinkCols(spl, sinks)
    ensures r.Ok? ==> IsChannel(spl, spl.State(), spl.Current(), sources, sinks, r.value.0, r.value.1)
  {
    var rows := SourceRows(spl, sources);
    if rows.Err? {
      return Err(rows.error);
    }
    var xs := SinkSolutions(spl, sources, sinks);
    if xs.Err? {
      return Err(xs.error);
    }
    var f, h := Assemble(spl, sources, sinks, rows.value, xs.value);
    return Ok((f, h));
  }

  /** G from the source rows and the cleared sink solutions, then the
    * columns of F and of H. */
  method Assemble(spl: SparseLaplacian, sources: seq<nat>, sinks: seq<nat>, rows: seq<seq<real>>, xs: seq<seq<real>>)
    returns (f: seq<seq<real>>, h: seq<seq<real>>)
    requires spl.Valid() && spl.Ready() && Emitting.HasRows(spl, sources)
    requires |rows| == |sources| && forall j :: 0 <= j < |sources| ==>
               sources[j] < spl.w.n &&
               rows[j] == DenseRow(spl.w.n, spl.w.indptr, spl.w.indices, spl.transition, sources[j])
    requires |xs| == |sinks| && forall i :: 0 <= i < |sinks| ==>
               sinks[i] < spl.w.n &&
               xs[i] == spl.SolutionOf(spl.State(), spl.Current(),
                                       DenseCol(spl.w.n, spl.w.indptr, spl.w.indices, spl.transition, sinks[i]), true)
    modifies spl
    ensures spl.Valid() && spl.Ready() && spl.State() == old(spl.State()) && spl.Current() == old(spl.Current())
    ensures IsChannel(spl, spl.State(), spl.Current(), sources, sinks, f, h)
  {
    var n := spl.w.n;
    ghost var st, m := spl.State(), spl.Current();
    var cleared := seq(|sinks|, i requires 0 <= i < |sinks| => Reset(xs[i], sources + sinks));
    var g := SourceSinkBlock(n, rows, cleared, sinks);
    f := SinkColumns(cleared, xs, g, sources, sinks);
    h := SourceColumns(spl, sources, sinks, rows, g);
    ChannelAssembled(spl, st, m, sources, sinks, rows, xs, f, h);
  }

  /** The loop finishing every column of F. */
  method SinkColumns(cleared: seq<seq<real>>, ghost xs: seq<seq<real>>, g: seq<seq<real>>,
                     sources: seq<nat>, sinks: seq<nat>)
    returns (f: seq<seq<real>>)
    requires |cleared| == |xs| == |sinks| && |g| == |sources| && forall j :: 0 <= j < |g| ==> |g[j]| == |sinks|
    requires forall i :: 0 <= i < |sinks| ==> cleared[i] == Reset(xs[i], sources + sinks) && sinks[i] < |xs[i]|
    requires forall i, j :: 0 <= i < |sinks| && 0 <= j < |sources| ==> sources[j] < |xs[i]|
    ensures |f| == |sinks| && forall i :: 0 <= i < |sinks| ==> SinkColumnOf(f[i], xs[i], g, sources, sinks, i)
  {
    f := [];
    for i := 0 to |sinks|
      invariant |f| == i && forall l :: 0 <= l < i ==> SinkColumnOf(f[l], xs[l], g, sources, sinks, l)
    {
      var col := FinishSinkColumn(cleared[i], xs[i], g, sources, sinks, i);
      f := f + [col];
    }
  }

  /** Column j of H is built from the solution for the transition row of
    * source j, in the setup st with stored values m. */
  ghost predicate SourceSolved(spl: SparseLaplacian, st: Setup, m: CsrMatrix, g: seq<seq<real>>,
                               sources: seq<nat>, sinks: seq<nat>, col: seq<real>, j: nat)
    requires spl.Solvable(st) && j < |sources| && j < |g| && |g[j]| == |sinks|
  {
    && sources[j] < spl.w.n
    && SourceColumnOf(col, spl.SolutionOf(st, m, DenseRow(spl.w.n, spl.w.indptr, spl.w.indices, spl.transition,
                                                          sources[j]), false),
                      g, sources, sinks, j)
  }

  ghost predicate SourcesSolved(spl: SparseLaplacian, st: Setup, m: CsrMatrix, g: seq<seq<real>>,
                                sources: seq<nat>, sinks: seq<nat>, h: seq<seq<real>>)
    requires spl.Solvable(st) && |g| == |sources| && forall j :: 0 <= j < |g| ==> |g[j]| == |sinks|
  {
    |h| <= |sources| && forall l :: 0 <= l < |h| ==> SourceSolved(spl, st, m, g, sources, sinks, h[l], l)
  }

  lemma SourcesSolvedExtend(spl: SparseLaplacian, st: Setup, m: CsrMatrix, g: seq<seq<real>>,
                            sources: seq<nat>, sinks: seq<nat>, h: seq<seq<real>>, col: seq<real>)
    requires spl.Solvable(st) && |g| == |sources| && forall j :: 0 <= j < |g| ==> |g[j]| == |sinks|
    requires SourcesSolved(spl, st, m, g, sources, sinks, h) && |h| < |sources|
    requires SourceSolved(spl, st, m, g, sources, sinks, col, |h|)
    ensures SourcesSolved(spl, st, m, g, sources, sinks, h + [col])
  {
    assert forall l :: 0 <= l < |h| + 1 ==> (h + [col])[l] == if l < |h| then h[l] else col;
  }

  /** The loop over the sources building H: the row of source j is looked
    * up again and solved for, the column is cleared at the sources and
    * sinks and finished with G. */
  method SourceColumns(spl: SparseLaplacian, sources: seq<nat>, sinks: seq<nat>, ghost rows: seq<seq<real>>,
                       g: seq<seq<real>>)
    returns (h: seq<seq<real>>)
    requires spl.Valid() && spl.Ready() && Emitting.HasRows(spl, sources)
    requires forall i :: 0 <= i < |sinks| ==> sinks[i] < spl.w.n
    requires |g| == |sources| && forall j :: 0 <= j < |g| ==> |g[j]| == |sinks|
    modifies spl
    ensures spl.Valid() && spl.Ready() && spl.State() == old(spl.State()) && spl.Current() == old(spl.Current())
    ensures |h| == |sources| && SourcesSolved(spl, spl.State(), spl.Current(), g, sources, sinks, h)
  {
    ghost var st, m := spl.State(), spl.Current();
    h := [];
    for j := 0 to |sources|
      invariant spl.Valid() && spl.Ready() && spl.State() == st && spl.Current() == m
      invariant |h| == j && SourcesSolved(spl, st, m, g, sources, sinks, h)
    {
      var col := SourceColumn(spl, sources, sinks, g, j);
      SourcesSolvedExtend(spl, st, m, g, sources, sinks, h, col);
      h := h + [col];
    }
  }

  /** One pass of the loop over the sources: column j of H. */
  method SourceColumn(spl: SparseLaplacian, sources: seq<nat>, sinks: seq<nat>, g: seq<seq<real>>, j: nat)
    returns (col: seq<real>)
    requires spl.Valid() && spl.Ready() && Emitting.HasRows(spl, sources)
    requires forall i :: 0 <= i < |sinks| ==> sinks[i] < spl.w.n
    requires j < |sources| && |g| == |sources| && forall l :: 0 <= l < |g| ==> |g[l]| == |sinks|
    modifies spl
    ensures spl.Valid() && spl.Ready() && spl.State() == old(spl.State()) && spl.Current() == old(spl.Current())
    ensures SourceSolved(spl, spl.State(), spl.Current(), g, sources, sinks, col, j)
  {
    var row := spl.GetBoundaryRow(sources[j]);
    BoundaryIsNode(spl, sources[j]);
    var y := spl.Solve(row.value, false);
    col := FinishSourceColumn(Reset(y, sources + sinks), y, g, sources, sinks, j);
  }

  /** The pieces computed by `EvaluateContext` make up the channel context. */
  lemma ChannelAssembled(spl: SparseLaplacian, st: Setup, m: CsrMatrix, sources: seq<nat>, sinks: seq<nat>,
                         rows: seq<seq<real>>, xs: seq<seq<real>>, f: seq<seq<real>>, h: seq<seq<real>>)
    requires spl.Solvable(st)
    requires |rows| == |sources| && forall j :: 0 <= j < |sources| ==>
               sources[j] < spl.w.n && |rows[j]| == spl.w.n &&
               rows[j] == DenseRow(spl.w.n, spl.w.indptr, spl.w.indices, spl.transition, sources[j])
    requires |xs| == |sinks| && forall i :: 0 <= i < |sinks| ==>
               sinks[i] < spl.w.n && |xs[i]| == spl.w.n &&
               xs[i] == spl.SolutionOf(st, m, DenseCol(spl.w.n, spl.w.indptr, spl.w.indices, spl.transition,
                                                       sinks[i]), true)
    requires var g := SourceSinkBlock(spl.w.n, rows, seq(|sinks|, i requires 0 <= i < |sinks| =>
                                                           Reset(xs[i], sources + sinks)), sinks);
             && |f| == |sinks| && (forall i :: 0 <= i < |sinks| ==> SinkColumnOf(f[i], xs[i], g, sources, sinks, i))
             && |h| == |sources| && SourcesSolved(spl, st, m, g, sources, sinks, h)
    ensures IsChannel(spl, st, m, sources, sinks, f, h)
  {
    var n := spl.w.n;
    var g := SourceSinkBlock(n, rows, seq(|sinks|, i requires 0 <= i < |sinks| => Reset(xs[i], sources + sinks)), sinks);
    var ys := seq(|sources|, j requires 0 <= j < |sources| && sources[j] < n =>
                spl.SolutionOf(st, m, DenseRow(n, spl.w.indptr, spl.w.indices, spl.transition, sources[j]), false));
    forall j | 0 <= j < |sources| ensures SourceColumnOf(h[j], ys[j], g, sources, sinks, j) {
      assert SourceSolved(spl, st, m, g, sources, sinks, h[j], j);
    }
    assert Channel(n, rows, xs, ys, sources, sinks, f, h);
  }

  /** The loop filling `P_S`: the transition row of every source, looked
    * up in order; the first source without a boundary row is an error. */
  method SourceRows(spl: SparseLaplacian, sources: seq<nat>) returns (r: Result<seq<seq<real>>>)
    requires spl.Valid()
    ensures r.Ok? <==> Emitting.HasRows(spl, sources)
    ensures r.Ok? ==> |r.value| == |sources| && forall j :: 0 <= j < |sources| ==>
              sources[j] < spl.w.n &&
              r.value[j] == DenseRow(spl.w.n, spl.w.indptr, spl.w.indices, spl.transition, sources[j])
  {
    var rows: seq<seq<real>> := [];
    for j := 0 to |sources|
      invariant |rows| == j && RowsFetched(spl, rows, sources)
    {
      var row := spl.GetBoundaryRow(sources[j]);
      if row.Err? {
        NoRowAt(spl, sources, j);
        return Err(row.error);
      }
      BoundaryIsNode(spl, sources[j]);
      RowsFetchedExtend(spl, rows, row.value, sources);
      rows := rows + [row.value];
    }
    AllRowsFetched(spl, rows, sources);
    return Ok(rows);
  }

  lemma AllRowsFetched(spl: SparseLaplacian, rows: seq<seq<real>>, sources: seq<nat>)
    requires spl.Valid() && RowsFetched(spl, rows, sources) && |rows| == |sources|
    ensures Emitting.HasRows(spl, sources)
    ensures forall j :: 0 <= j < |sources| ==>
              sources[j] < spl.w.n &&
              rows[j] == DenseRow(spl.w.n, spl.w.indptr, spl.w.indices, spl.transition, sources[j])
  {
    assert forall j :: 0 <= j < |sources| ==> RowFetched(spl, rows[j], sources[j]);
  }

  lemma NoRowAt(spl: SparseLaplacian, sources: seq<nat>, j: nat)
    requires spl.Valid() && j < |sources| && spl.GetBoundaryRow(sources[j]).Err?
    ensures !Emitting.HasRows(spl, sources)
  {
  }

  /** The first |rows| sources have boundary rows, which rows holds. */
  ghost predicate RowsFetched(spl: SparseLaplacian, rows: seq<seq<real>>, sources: seq<nat>)
    reads spl, spl.w, spl.w.data
    requires spl.Valid()
  {
    |rows| <= |sources| && forall l :: 0 <= l < |rows| ==> RowFetched(spl, rows[l], sources[l])
  }

  lemma RowsFetchedExtend(spl: SparseLaplacian, rows: seq<seq<real>>, row: seq<real>, sources: seq<nat>)
    requires spl.Valid() && RowsFetched(spl, rows, sources) && |rows| < |sources|
    requires RowFetched(spl, row, sources[|rows|])
    ensures RowsFetched(spl, rows + [row], sources)
  {
    assert forall l :: 0 <= l < |rows| + 1 ==> (rows + [row])[l] == if l < |rows| then rows[l] else row;
  }

  /** `row` is the transition row of the node s, which has a boundary row. */
  ghost predicate RowFetched(spl: SparseLaplacian, row: seq<real>, s: nat)
    reads spl, spl.w, spl.w.data
    requires spl.Valid()
  {
    && s < spl.w.n && (spl.full || s in spl.boundaryRows)
    && row == DenseRow(spl.w.n, spl.w.indptr, spl.w.indices, spl.transition, s)
  }

  /** The boundary rows and columns of the basic variant are nodes. */
  lemma BoundaryIsNode(spl: SparseLaplacian, i: nat)
    requires spl.Valid()
    ensures !spl.full && (i in spl.boundaryRows || i in spl.boundaryCols) ==> i < spl.w.n
  {
    if i in spl.boundaryRows {
      var k :| 0 <= k < |spl.boundaryRows| && spl.boundaryRows[k] == i;
    }
    if i in spl.boundaryCols {
      var k :| 0 <= k < |spl.boundaryCols| && spl.boundaryCols[k] == i;
    }
  }

  /** The first loop over the sinks: the solution of L x = (transition
    * column of sink i), for every sink in order; the first sink without a
    * boundary column is an error. */
  method SinkSolutions(spl: SparseLaplacian, sources: seq<nat>, sinks: seq<nat>)
    returns (r: Result<seq<seq<real>>>)
    requires spl.Valid() && spl.Ready()
    modifies spl
    ensures spl.Valid() && spl.Ready() && spl.State() == old(spl.State()) && spl.Current() == old(spl.Current())
    ensures r.Ok? <==> HasSinkCols(spl, sinks)
    ensures r.Ok? ==> |r.value| == |sinks| && forall i :: 0 <= i < |sinks| ==>
              sinks[i] < spl.w.n &&
              r.value[i] == spl.SolutionOf(spl.State(), spl.Current(),
                                           DenseCol(spl.w.n, spl.w.indptr, spl.w.indices, spl.transition, sinks[i]),
                                           true)
  {
    ghost var st, m := spl.State(), spl.Current();
    var xs: seq<seq<real>> := [];
    for i := 0 to |sinks|
      invariant spl.Valid() && spl.Ready() && spl.State() == st && spl.Current() == m
      invariant |xs| == i
      invariant ColumnsSolved(spl, st, m, xs, sinks)
    {
      var col := spl.GetBoundaryCol(sinks[i]);
      if col.Err? {
        NoColAt(spl, sinks, i);
        return Err(col.error);
      }
      BoundaryIsNode(spl, sinks[i]);
      var x := spl.Solve(col.value, true);
      ColumnsSolvedExtend(spl, st, m, xs, x, sinks);
      xs := xs + [x];
    }
    AllColumnsSolved(spl, st, m, xs, sinks);
    return Ok(xs);
  }

  lemma NoColAt(spl: SparseLaplacian, sinks: seq<nat>, i: nat)
    requires spl.Valid() && i < |sinks| && spl.GetBoundaryCol(sinks[i]).Err?
    ensures !HasSinkCols(spl, sinks)
  {
  }

  lemma AllColumnsSolved(spl: SparseLaplacian, st: Setup, m: CsrMatrix, xs: seq<seq<real>>, sinks: seq<nat>)
    requires spl.Solvable(st) && ColumnsSolved(spl, st, m, xs, sinks) && |xs| == |sinks|
    requires spl.full == false ==> st.cols == spl.boundaryCols
    ensures HasSinkCols(spl, sinks)
    ensures forall i :: 0 <= i < |sinks| ==>
              sinks[i] < spl.w.n &&
              xs[i] == spl.SolutionOf(st, m, DenseCol(spl.w.n, spl.w.indptr, spl.w.indices, spl.transition, sinks[i]),
                                      true)
  {
    assert forall i :: 0 <= i < |sinks| ==> ColumnSolved(spl, st, m, xs[i], sinks[i]);
  }

  /** The first |xs| sinks have boundary columns, whose solutions xs holds. */
  ghost predicate ColumnsSolved(spl: SparseLaplacian, st: Setup, m: CsrMatrix, xs: seq<seq<real>>, sinks: seq<nat>)
    requires spl.Solvable(st)
  {
    |xs| <= |sinks| && forall l :: 0 <= l < |xs| ==> ColumnSolved(spl, st, m, xs[l], sinks[l])
  }

  lemma ColumnsSolvedExtend(spl: SparseLaplacian, st: Setup, m: CsrMatrix, xs: seq<seq<real>>, x: seq<real>,
                            sinks: seq<nat>)
    requires spl.Solvable(st) && ColumnsSolved(spl, st, m, xs, sinks) && |xs| < |sinks|
    requires ColumnSolved(spl, st, m, x, sinks[|xs|])
    ensures ColumnsSolved(spl, st, m, xs + [x], sinks)
  {
    assert forall l :: 0 <= l < |xs| + 1 ==> (xs + [x])[l] == if l < |xs| then xs[l] else x;
  }

  /** x is the solution for the transition column of the node k, which has
    * a boundary column. */
  ghost predicate ColumnSolved(spl: SparseLaplacian, st: Setup, m: CsrMatrix, x: seq<real>, k: nat)
    requires spl.Solvable(st)
  {
    && k < spl.w.n && (spl.full || k in st.cols)
    && x == spl.SolutionOf(st, m, DenseCol(spl.w.n, spl.w.indptr, spl.w.indices, spl.transition, k), true)
  }

  // ---------------------------------------------------------------------
  // The connectivity check

  /** Every entry of s is a node of an n-node matrix. */
  predicate AllBelow(s: seq<nat>, n: nat)
  {
    forall k :: 0 <= k < |s| ==> s[k] < n
  }

  /** The link lengths of the searches: a link the mask switches off is
    * infinitely long, every other link has length 1. */
  function SearchLengths(mask: seq<real>): (lengths: seq<Dist>)
    ensures |lengths| == |mask| && NonNegative(lengths)
    ensures forall p :: 0 <= p < |mask| ==> (lengths[p].Fin? <==> mask[p] != 0.0)
    ensures forall p :: 0 <= p < |mask| && lengths[p].Fin? ==> lengths[p].v == 1.0
  {
    seq(|mask|, p requires 0 <= p < |mask| => if mask[p] == 0.0 then Inf else Fin(1.0))
  }

  /** The cut on the copy of the values: the links into the sources and
    * the links out of the sinks are zeroed; a source or sink outside the
    * matrix is an index error. The lengths the searches use are taken
    * from the mask alone, so the cut values are not read afterwards. */
  method CutLinks(a: array<real>, n: nat, indptr: seq<int>, indices: seq<int>, sources: seq<nat>, sinks: seq<nat>)
    returns (ok: bool)
    requires Shaped(n, indptr, indices) && a.Length == |indices|
    modifies a
    ensures ok <==> AllBelow(sources, n) && AllBelow(sinks, n)
    ensures ok ==> forall u, p :: 0 <= u < n && indptr[u] <= p < indptr[u + 1] ==>
                     a[p] == if u in sinks || indices[p] in sources then 0.0 else old(a[p])
  {
    if !AllBelow(sources, n) {
      return false;
    }
    forall p | 0 <= p < a.Length && indices[p] in sources {
      a[p] := 0.0;
    }
    for k := 0 to |sinks|
      invariant AllBelow(sinks[..k], n)
      invariant forall u, p :: 0 <= u < n && indptr[u] <= p < indptr[u + 1] ==>
                  a[p] == if u in sinks[..k] || indices[p] in sources then 0.0 else old(a[p])
    {
      if sinks[k] >= n {
        return false;
      }
      forall p | indptr[sinks[k]] <= p < indptr[sinks[k] + 1] {
        a[p] := 0.0;
      }
      assert forall u :: u in sinks[..k + 1] <==> u in sinks[..k] || u == sinks[k];
    }
    assert sinks[..|sinks|] == sinks;
    return true;
  }

  /** d is the outcome of a search from start that ran to exhaustion: its
    * keys are the nodes reachable along stored links, and a node has a
    * finite distance exactly when it is reached along finite links. */
  ghost predicate Searched(n: nat, indptr: seq<int>, indices: seq<int>, lengths: seq<Dist>, start: nat,
                           d: map<int, Dist>)
    requires Shaped(n, indptr, indices)
  {
    && (exists pred, rank, via :: DMatrix.Outcome(n, indptr, indices, lengths, start, None, d, pred, rank, via))
    && (forall w :: w in d ==> 0 <= w < n)
    && (forall w :: w in d <==> Reachable(n, indptr, indices, start, w))
    && (forall w :: FinReachable(n, indptr, indices, lengths, start, w) <==> w in d && d[w].Fin?)
    && (forall w :: w in d && d[w].Fin? ==> d[w].v >= 0.0)
  }

  /** w is reachable from one of the starts. */
  ghost predicate ReachedBy(n: nat, indptr: seq<int>, indices: seq<int>, starts: seq<nat>, w: int)
    requires Shaped(n, indptr, indices)
  {
    exists j :: 0 <= j < |starts| && Reachable(n, indptr, indices, starts[j], w)
  }

  /** The nodes reachable from one of the starts. */
  ghost function ReachedFrom(n: nat, indptr: seq<int>, indices: seq<int>, starts: seq<nat>): (s: set<int>)
    requires Shaped(n, indptr, indices)
  {
    set w | 0 <= w < n && ReachedBy(n, indptr, indices, starts, w)
  }

  /** The search from `start`, with the facts about its outcome. */
  method Search(n: nat, indptr: seq<int>, indices: seq<int>, lengths: seq<Dist>, start: nat)
    returns (d: map<int, Dist>)
    requires Shaped(n, indptr, indices) && |lengths| == |indices| && NonNegative(lengths) && start < n
    ensures Searched(n, indptr, indices, lengths, start, d)
  {
    var res, rank, via := Dijkstra(n, indptr, indices, lengths, start, None);
    assert res.Ok?;
    d := res.value.0;
    FiniteDistances(n, indptr, indices, lengths, start, d, res.value.1, rank, via);
    forall w | w in d && d[w].Fin? ensures d[w].v >= 0.0 {
      DistancesNonNegative(n, indptr, indices, lengths, start, d, res.value.1, rank, via, w);
    }
  }

  lemma ReachedExtend(n: nat, indptr: seq<int>, indices: seq<int>, lengths: seq<Dist>, starts: seq<nat>, j: nat,
                      d: map<int, Dist>)
    requires Shaped(n, indptr, indices) && j < |starts| && Searched(n, indptr, indices, lengths, starts[j], d)
    ensures ReachedFrom(n, indptr, indices, starts[..j + 1]) == ReachedFrom(n, indptr, indices, starts[..j]) + d.Keys
  {
    var prefix := starts[..j + 1];
    forall w | w in d.Keys ensures w in ReachedFrom(n, indptr, indices, prefix) {
      assert prefix[j] == starts[j];
    }
    forall w | w in ReachedFrom(n, indptr, indices, prefix)
      ensures w in ReachedFrom(n, indptr, indices, starts[..j]) + d.Keys
    {
      var l :| 0 <= l < |prefix| && Reachable(n, indptr, indices, prefix[l], w);
      if l < j {
        assert starts[..j][l] == prefix[l];
      }
    }
    forall w | w in ReachedFrom(n, indptr, indices, starts[..j])
      ensures w in ReachedFrom(n, indptr, indices, prefix)
    {
      var l :| 0 <= l < j && Reachable(n, indptr, indices, starts[..j][l], w);
      assert prefix[l] == starts[..j][l];
    }
  }

  /** `D.get(k, inf)`. */
  function Lookup(d: map<int, Dist>, k: int): Dist
  {
    if k in d then d[k] else Inf
  }

  /** `min(D.get(k, inf) for k in sinks)`: the least distance of a sink,
    * infinite when the search reached no sink at finite distance. */
  function NearestSink(d: map<int, Dist>, sinks: seq<nat>): (m: Dist)
    requires sinks != []
    ensures forall i :: 0 <= i < |sinks| ==> AtMost(m, Lookup(d, sinks[i]))
    ensures exists i :: 0 <= i < |sinks| && m == Lookup(d, sinks[i])
    ensures m.Fin? <==> exists i :: 0 <= i < |sinks| && sinks[i] in d && d[sinks[i]].Fin?
  {
    if |sinks| == 1 then Lookup(d, sinks[0])
    else
      var rest := NearestSink(d, sinks[1..]);
      assert forall i :: 1 <= i < |sinks| ==> sinks[i] == sinks[1..][i - 1];
      if Less(rest, Lookup(d, sinks[0])) then rest else Lookup(d, sinks[0])
  }

  /** The running total of the nearest-sink distances of the searches. */
  function TotalNearest(ds: seq<map<int, Dist>>, sinks: seq<nat>): Dist
    requires ds != [] ==> sinks != []
  {
    if ds == [] then Fin(0.0) else Add(TotalNearest(ds[..|ds| - 1], sinks), NearestSink(ds[|ds| - 1], sinks))
  }

  /** The total is finite exactly when every search reached a sink at
    * finite distance, and then it is not negative. */
  lemma {:induction false} TotalNearestFinite(ds: seq<map<int, Dist>>, sinks: seq<nat>)
    requires ds != [] ==> sinks != []
    requires forall j, w :: 0 <= j < |ds| && w in ds[j] && ds[j][w].Fin? ==> ds[j][w].v >= 0.0
    ensures TotalNearest(ds, sinks).Fin? <==> forall j :: 0 <= j < |ds| ==> NearestSink(ds[j], sinks).Fin?
    ensures TotalNearest(ds, sinks).Fin? ==> TotalNearest(ds, sinks).v >= 0.0
  {
    if ds != [] {
      var prefix := ds[..|ds| - 1];
      assert forall j :: 0 <= j < |prefix| ==> prefix[j] == ds[j];
      TotalNearestFinite(prefix, sinks);
    }
  }

  /** The loop over the sources: a search from each, collecting the nodes
    * it reaches and adding up the distances of the nearest sinks; with no
    * sinks, the first source fails on the empty minimum. */
  method SourceSearches(n: nat, indptr: seq<int>, indices: seq<int>, lengths: seq<Dist>,
                        sources: seq<nat>, sinks: seq<nat>)
    returns (r: Result<(set<int>, Dist)>, ghost ds: seq<map<int, Dist>>)
    requires Shaped(n, indptr, indices) && |lengths| == |indices| && NonNegative(lengths) && AllBelow(sources, n)
    ensures r.Ok? <==> sources == [] || sinks != []
    ensures r.Err? ==> r.error == "ValueError"
    ensures r.Ok? ==> && |ds| == |sources| && AllSearched(n, indptr, indices, lengths, sources, ds)
                      && r.value.0 == ReachedFrom(n, indptr, indices, sources)
                      && r.value.1 == TotalNearest(ds, sinks)
  {
    var reached: set<int> := {};
    var total := Fin(0.0);
    ds := [];
    for j := 0 to |sources|
      invariant |ds| == j && AllSearched(n, indptr, indices, lengths, sources, ds)
      invariant j > 0 ==> sinks != []
      invariant reached == ReachedFrom(n, indptr, indices, sources[..j])
      invariant total == TotalNearest(ds, sinks)
    {
      var d := Search(n, indptr, indices, lengths, sources[j]);
      ReachedExtend(n, indptr, indices, lengths, sources, j, d);
      reached := reached + d.Keys;
      if sinks == [] {
        return Err("ValueError"), ds;
      }
      total := Add(total, NearestSink(d, sinks));
      assert (ds + [d])[..j] == ds;
      AllSearchedExtend(n, indptr, indices, lengths, sources, ds, d);
      ds := ds + [d];
    }
    ReachedFromAll(n, indptr, indices, sources);
    return Ok((reached, total)), ds;
  }

  /** The first |ds| sources have the searches ds. */
  ghost predicate AllSearched(n: nat, indptr: seq<int>, indices: seq<int>, lengths: seq<Dist>, sources: seq<nat>,
                              ds: seq<map<int, Dist>>)
    requires Shaped(n, indptr, indices)
  {
    |ds| <= |sources| && forall l :: 0 <= l < |ds| ==> Searched(n, indptr, indices, lengths, sources[l], ds[l])
  }

  lemma AllSearchedExtend(n: nat, indptr: seq<int>, indices: seq<int>, lengths: seq<Dist>, sources: seq<nat>,
                          ds: seq<map<int, Dist>>, d: map<int, Dist>)
    requires Shaped(n, indptr, indices) && AllSearched(n, indptr, indices, lengths, sources, ds) && |ds| < |sources|
    requires Searched(n, indptr, indices, lengths, sources[|ds|], d)
    ensures AllSearched(n, indptr, indices, lengths, sources, ds + [d])
  {
    assert forall l :: 0 <= l < |ds| + 1 ==> (ds + [d])[l] == if l < |ds| then ds[l] else d;
  }

  /** The loop over the sinks on the transposed matrix: the nodes reached
    * from some sink. */
  method ReachedSet(n: nat, indptr: seq<int>, indices: seq<int>, lengths: seq<Dist>, starts: seq<nat>)
    returns (reached: set<int>)
    requires Shaped(n, indptr, indices) && |lengths| == |indices| && NonNegative(lengths) && AllBelow(starts, n)
    ensures reached == ReachedFrom(n, indptr, indices, starts)
  {
    reached := {};
    for j := 0 to |starts|
      invariant reached == ReachedFrom(n, indptr, indices, starts[..j])
    {
      var d := Search(n, indptr, indices, lengths, starts[j]);
      ReachedExtend(n, indptr, indices, lengths, starts, j, d);
      reached := reached + d.Keys;
    }
    ReachedFromAll(n, indptr, indices, starts);
  }

  lemma ReachedFromAll(n: nat, indptr: seq<int>, indices: seq<int>, starts: seq<nat>)
    requires Shaped(n, indptr, indices)
    ensures ReachedFrom(n, indptr, indices, starts[..|starts|]) == ReachedFrom(n, indptr, indices, starts)
  {
    assert starts[..|starts|] == starts;
  }

  /** The pattern and the values of the transposed matrix. */
  datatype Transposed = Transposed(indptr: seq<int>, indices: seq<int>, data: seq<Dist>)

  /** `A.T.tocsr()` followed by `sort_indices()`, computed by scipy. */
  type Transposer = (nat, seq<int>, seq<int>, seq<Dist>) -> Transposed

  /** t is the transpose of the matrix: a well-formed pattern of the same
    * size holding every link reversed, with lengths that stay
    * non-negative. */
  ghost predicate Transposes(n: nat, indptr: seq<int>, indices: seq<int>, data: seq<Dist>, t: Transposed)
  {
    && Shaped(n, t.indptr, t.indices) && |t.indices| == |indices| && |t.data| == |t.indices|
    && (forall u, w :: Edge(indptr, indices, u, w) <==> Edge(t.indptr, t.indices, w, u))
    && (NonNegative(data) ==> NonNegative(t.data))
  }

  ghost predicate IsTransposer(transpose: Transposer)
  {
    forall n, indptr, indices, data :: Shaped(n, indptr, indices) && |data| == |indices| ==>
      Transposes(n, indptr, indices, data, transpose(n, indptr, indices, data))
  }

  /** Every node with a link into s is in s. */
  ghost predicate BackClosed(n: nat, indptr: seq<int>, indices: seq<int>, s: set<int>)
    requires Shaped(n, indptr, indices)
  {
    forall u, p :: 0 <= u < n && indptr[u] <= p < indptr[u + 1] && indices[p] in s ==> u in s
  }

  /** w reaches target along stored links: it lies in every set holding
    * the target that is closed under following links backwards. */
  ghost predicate Reaches(n: nat, indptr: seq<int>, indices: seq<int>, w: int, target: int)
    requires Shaped(n, indptr, indices)
  {
    forall s: set<int> {:trigger BackClosed(n, indptr, indices, s)} ::
      target in s && BackClosed(n, indptr, indices, s) ==> w in s
  }

  ghost predicate ReachesSome(n: nat, indptr: seq<int>, indices: seq<int>, targets: seq<nat>, w: int)
    requires Shaped(n, indptr, indices)
  {
    exists i :: 0 <= i < |targets| && Reaches(n, indptr, indices, w, targets[i])
  }

  /** The nodes that reach one of the targets. */
  ghost function Reaching(n: nat, indptr: seq<int>, indices: seq<int>, targets: seq<nat>): set<int>
    requires Shaped(n, indptr, indices)
  {
    set w | 0 <= w < n && ReachesSome(n, indptr, indices, targets, w)
  }

  /** A set is closed in the transpose exactly when it is closed backwards
    * in the matrix. */
  lemma ClosedTransposed(n: nat, indptr: seq<int>, indices: seq<int>, data: seq<Dist>, t: Transposed, s: set<int>)
    requires Shaped(n, indptr, indices) && Transposes(n, indptr, indices, data, t)
    ensures ClosedSet(n, t.indptr, t.indices, s) <==> BackClosed(n, indptr, indices, s)
  {
    if ClosedSet(n, t.indptr, t.indices, s) {
      forall u, p | 0 <= u < n && indptr[u] <= p < indptr[u + 1] && indices[p] in s ensures u in s {
        assert Step(indptr, indices, u, indices[p], p);
        assert Edge(t.indptr, t.indices, indices[p], u);
      }
    }
    if BackClosed(n, indptr, indices, s) {
      forall v, p | v in s && 0 <= v < n && t.indptr[v] <= p < t.indptr[v + 1]
        ensures t.indices[p] in s
      {
        assert Step(t.indptr, t.indices, v, t.indices[p], p);
        assert Edge(indptr, indices, t.indices[p], v);
        var q :| Step(indptr, indices, t.indices[p], v, q);
      }
    }
  }

  /** The searches on the transpose reach exactly the nodes that reach a
    * target in the matrix. */
  lemma ReachedBackwards(n: nat, indptr: seq<int>, indices: seq<int>, data: seq<Dist>, t: Transposed,
                         targets: seq<nat>)
    requires Shaped(n, indptr, indices) && Transposes(n, indptr, indices, data, t)
    ensures ReachedFrom(n, t.indptr, t.indices, targets) == Reaching(n, indptr, indices, targets)
  {
    forall s ensures ClosedSet(n, t.indptr, t.indices, s) <==> BackClosed(n, indptr, indices, s) {
      ClosedTransposed(n, indptr, indices, data, t, s);
    }
    forall w, k ensures Reachable(n, t.indptr, t.indices, k, w) <==> Reaches(n, indptr, indices, w, k) {
    }
  }

  /** The nodes that are on some path from a source to a sink: reached from
    * a source and reaching a sink. */
  ghost function ValidNodes(n: nat, indptr: seq<int>, indices: seq<int>, sources: seq<nat>, sinks: seq<nat>): set<int>
    requires Shaped(n, indptr, indices)
  {
    ReachedFrom(n, indptr, indices, sources) * Reaching(n, indptr, indices, sinks)
  }

  /** The nodes of the matrix that are on no path from a source to a sink. */
  ghost function Disconnected(n: nat, indptr: seq<int>, indices: seq<int>, sources: seq<nat>, sinks: seq<nat>)
    : (disc: set<int>)
    requires Shaped(n, indptr, indices)
    ensures forall w :: w in disc <==> 0 <= w < n && w !in ValidNodes(n, indptr, indices, sources, sinks)
  {
    set w | 0 <= w < n && w !in ValidNodes(n, indptr, indices, sources, sinks)
  }

  /** The mask after the pruning: every link out of or into a node of disc
    * is switched off, every other link keeps its value. */
  function Pruned(n: nat, indptr: seq<int>, indices: seq<int>, mask: seq<real>, disc: set<int>): (m: seq<real>)
    requires Shaped(n, indptr, indices) && |mask| == |indices|
    ensures |m| == |mask|
    ensures forall u, p :: 0 <= u < n && indptr[u] <= p < indptr[u + 1] ==>
              m[p] == if u in disc || indices[p] in disc then 0.0 else mask[p]
  {
    seq(|mask|, p requires 0 <= p < |mask| =>
      if RowOf(n, indptr, p) in disc || indices[p] in disc then 0.0 else mask[p])
  }

  /** The pruning loops: the rows of the nodes of disc are zeroed, then the
    * mask is multiplied by 0 at the links into them. */
  method PruneMask(mask: array<real>, n: nat, indptr: seq<int>, indices: seq<int>, disc: set<int>)
    requires Shaped(n, indptr, indices) && mask.Length == |indices|
    modifies mask
    ensures mask[..] == Pruned(n, indptr, indices, old(mask[..]), disc)
  {
    for j := 0 to n
      invariant forall u, p :: 0 <= u < n && indptr[u] <= p < indptr[u + 1] ==>
                  mask[p] == if u < j && u in disc then 0.0 else old(mask[p])
    {
      if j in disc {
        forall p | indptr[j] <= p < indptr[j + 1] {
          mask[p] := 0.0;
        }
      }
    }
    forall p | 0 <= p < mask.Length && indices[p] in disc {
      mask[p] := 0.0;
    }
    ghost var pruned := Pruned(n, indptr, indices, old(mask[..]), disc);
    forall p | 0 <= p < mask.Length ensures mask[p] == pruned[p] {
      var u := RowOf(n, indptr, p);
    }
  }

  /** Every source reaches some sink along links the mask leaves on. */
  ghost predicate Connected(n: nat, indptr: seq<int>, indices: seq<int>, mask: seq<real>,
                            sources: seq<nat>, sinks: seq<nat>)
    requires Shaped(n, indptr, indices)
  {
    forall j :: 0 <= j < |sources| ==>
      exists i :: 0 <= i < |sinks| && FinReachable(n, indptr, indices, SearchLengths(mask), sources[j], sinks[i])
  }

  /** The total of the searches is finite exactly when every source is
    * connected to a sink, and is then not negative. */
  lemma ConnectedTotal(n: nat, indptr: seq<int>, indices: seq<int>, mask: seq<real>, sources: seq<nat>,
                       sinks: seq<nat>, ds: seq<map<int, Dist>>)
    requires Shaped(n, indptr, indices) && |mask| == |indices| && sinks != []
    requires |ds| == |sources| && AllSearched(n, indptr, indices, SearchLengths(mask), sources, ds)
    ensures TotalNearest(ds, sinks).Fin? <==> Connected(n, indptr, indices, mask, sources, sinks)
    ensures TotalNearest(ds, sinks).Fin? ==> TotalNearest(ds, sinks).v >= 0.0
  {
    var lengths := SearchLengths(mask);
    forall j | 0 <= j < |ds| ensures
      NearestSink(ds[j], sinks).Fin? <==>
      exists i :: 0 <= i < |sinks| && FinReachable(n, indptr, indices, lengths, sources[j], sinks[i])
    {
      assert Searched(n, indptr, indices, lengths, sources[j], ds[j]);
    }
    TotalNearestFinite(ds, sinks);
  }

  /** `_context_arg_check`: every source must reach a sink along links
    * the mask leaves on; then the mask is pruned to the nodes on a path
    * from a source to a sink, and the result is the mean over the sources
    * of the length of the shortest such path, in links. The errors come in
    * the order of the source: a source or sink outside the matrix, no sink
    * at all, an unconnected source, no source at all. The pruning is the
    * intended one, by the matrix's own pattern (`Pruned`); the source reads
    * the mask through the transposed pattern instead (`PrunedAsWritten`). */
  method ContextArgCheck(W: AdjacencyMatrix, mask: array<real>, sources: seq<nat>, sinks: seq<nat>,
                         transpose: Transposer)
    returns (r: Result<real>, ghost ds: seq<map<int, Dist>>)
    requires W.Valid() && mask.Length == W.data.Length && IsTransposer(transpose)
    modifies mask
    ensures !(AllBelow(sources, W.n) && AllBelow(sinks, W.n)) ==> r == Err("IndexError")
    ensures AllBelow(sources, W.n) && AllBelow(sinks, W.n) ==>
              && (sources != [] && sinks == [] ==> r == Err("ValueError"))
              && (sinks != [] && !Connected(W.n, W.indptr, W.indices, old(mask[..]), sources, sinks) ==>
                    r == Err("RuntimeError"))
              && (sources == [] ==> r == Err("ZeroDivisionError"))
    ensures r.Ok? <==> && AllBelow(sources, W.n) && AllBelow(sinks, W.n) && sources != [] && sinks != []
                       && Connected(W.n, W.indptr, W.indices, old(mask[..]), sources, sinks)
    ensures r.Err? ==> mask[..] == old(mask[..])
    ensures r.Ok? ==> mask[..] == Pruned(W.n, W.indptr, W.indices, old(mask[..]),
                                         Disconnected(W.n, W.indptr, W.indices, sources, sinks))
    ensures r.Ok? ==> && |ds| == |sources| && AllSearched(W.n, W.indptr, W.indices, SearchLengths(old(mask[..])), sources, ds)
                      && TotalNearest(ds, sinks).Fin? && r.value == TotalNearest(ds, sinks).v / |sources| as real
                      && r.value >= 0.0
  {
    var n, indptr, indices := W.n, W.indptr, W.indices;
    var copy := W.Copy();
    var ok := CutLinks(copy.data, n, indptr, indices, sources, sinks);
    if !ok {
      return Err("IndexError"), [];
    }
    var lengths := SearchLengths(mask[..]);
    var found;
    found, ds := SourceSearches(n, indptr, indices, lengths, sources, sinks);
    if found.Err? {
      return Err(found.error), ds;
    }
    var srcValid, total := found.value.0, found.value.1;
    if sinks != [] {
      ConnectedTotal(n, indptr, indices, mask[..], sources, sinks, ds);
    }
    if total.Inf? {
      return Err("RuntimeError"), ds;
    }
    if |sources| == 0 {
      return Err("ZeroDivisionError"), ds;
    }
    var avg := total.v / |sources| as real;
    QuotientNonNegative(total.v, |sources| as real);
    PruneToPaths(mask, n, indptr, indices, lengths, sources, sinks, srcValid, transpose);
    return Ok(avg), ds;
  }

  /** The second half of the check: the nodes reaching a sink are found by
    * searches from the sinks on the transposed matrix, and the mask is
    * pruned to the nodes also reached from a source. */
  method PruneToPaths(mask: array<real>, n: nat, indptr: seq<int>, indices: seq<int>, lengths: seq<Dist>,
                      sources: seq<nat>, sinks: seq<nat>, srcValid: set<int>, transpose: Transposer)
    requires Shaped(n, indptr, indices) && mask.Length == |indices| == |lengths| && NonNegative(lengths)
    requires AllBelow(sinks, n) && IsTransposer(transpose)
    requires srcValid == ReachedFrom(n, indptr, indices, sources)
    modifies mask
    ensures mask[..] == Pruned(n, indptr, indices, old(mask[..]), Disconnected(n, indptr, indices, sources, sinks))
  {
    var t := transpose(n, indptr, indices, lengths);
    var snkValid := ReachedSet(n, t.indptr, t.indices, t.data, sinks);
    ReachedBackwards(n, indptr, indices, lengths, t, sinks);
    var valid := srcValid * snkValid;
    var disc := set w | 0 <= w < n && w !in valid;
    assert disc == Disconnected(n, indptr, indices, sources, sinks);
    PruneMask(mask, n, indptr, indices, disc);
  }

  lemma QuotientNonNegative(a: real, b: real)
    requires a >= 0.0 && b > 0.0
    ensures a / b >= 0.0
  {
  }

  /** After the pruning, a link the mask leaves on joins two nodes on paths
    * from a source to a sink, and every link between two such nodes keeps
    * its value. */
  lemma PrunedToPaths(n: nat, indptr: seq<int>, indices: seq<int>, mask: seq<real>, sources: seq<nat>,
                      sinks: seq<nat>, u: nat, p: int)
    requires Shaped(n, indptr, indices) && |mask| == |indices| && u < n && indptr[u] <= p < indptr[u + 1]
    ensures var valid := ValidNodes(n, indptr, indices, sources, sinks);
            var m := Pruned(n, indptr, indices, mask, Disconnected(n, indptr, indices, sources, sinks));
            && (m[p] != 0.0 ==> u in valid && indices[p] in valid)
            && (u in valid && indices[p] in valid ==> m[p] == mask[p])
  {
  }

  /** The pruning of lines 125-134 as written: the rows of the
    * disconnected nodes are located with the row pointers of the
    * transposed matrix, and the column of each position is read from the
    * transposed indices, while the mask is laid out like the matrix
    * itself. */
  function PrunedAsWritten(n: nat, indptrT: seq<int>, indicesT: seq<int>, mask: seq<real>, disc: set<int>)
    : (m: seq<real>)
    requires Shaped(n, indptrT, indicesT) && |mask| == |indicesT|
    ensures |m| == |mask|
  {
    seq(|mask|, p requires 0 <= p < |mask| =>
      if RowOf(n, indptrT, p) in disc || indicesT[p] in disc then 0.0 else mask[p])
  }

  /** The links of the three-node example below, reversed in the transposed
    * pattern. */
  lemma ExampleTransposed()
    ensures Shaped(3, [0, 3, 4, 5], [0, 1, 2, 1, 2]) && Shaped(3, [0, 1, 3, 5], [0, 0, 1, 0, 2])
    ensures forall u, w :: Edge([0, 3, 4, 5], [0, 1, 2, 1, 2], u, w) <==> Edge([0, 1, 3, 5], [0, 0, 1, 0, 2], w, u)
  {
    var indptr, indices := [0, 3, 4, 5], [0, 1, 2, 1, 2];
    var indptrT, indicesT := [0, 1, 3, 5], [0, 0, 1, 0, 2];
    forall u, w ensures Edge(indptr, indices, u, w) <==> Edge(indptrT, indicesT, w, u) {
      if Edge(indptr, indices, u, w) {
        var p :| Step(indptr, indices, u, w, p);
        var q := if p == 0 then 0 else if p == 1 then 1 else if p == 2 then 3 else if p == 3 then 2 else 4;
        assert Step(indptrT, indicesT, w, u, q);
      }
      if Edge(indptrT, indicesT, w, u) {
        var q :| Step(indptrT, indicesT, w, u, q);
        var p := if q == 0 then 0 else if q == 1 then 1 else if q == 2 then 3 else if q == 3 then 2 else 4;
        assert Step(indptr, indices, u, w, p);
      }
    }
  }

  /** In the example, node 0 and node 1 lie on the path from source 0 to
    * sink 1. */
  lemma ExampleOnPath()
    ensures Shaped(3, [0, 3, 4, 5], [0, 1, 2, 1, 2])
    ensures 0 in ValidNodes(3, [0, 3, 4, 5], [0, 1, 2, 1, 2], [0], [1])
    ensures 1 in ValidNodes(3, [0, 3, 4, 5], [0, 1, 2, 1, 2], [0], [1])
  {
    var indptr, indices := [0, 3, 4, 5], [0, 1, 2, 1, 2];
    assert Shaped(3, indptr, indices);
    assert Reachable(3, indptr, indices, 0, 0);
    assert Reachable(3, indptr, indices, 0, 1) by {
      forall s: set<int> | 0 in s && ClosedSet(3, indptr, indices, s) ensures 1 in s {
        assert indptr[0] <= 1 < indptr[1] && indices[1] == 1;
      }
    }
    assert Reaches(3, indptr, indices, 1, 1);
    assert Reaches(3, indptr, indices, 0, 1) by {
      forall s: set<int> | 1 in s && BackClosed(3, indptr, indices, s) ensures 0 in s {
        assert indptr[0] <= 1 < indptr[1] && indices[1] in s;
      }
    }
    assert [1][0] == 1 && [0][0] == 0;
    assert ReachedBy(3, indptr, indices, [0], 0) && ReachedBy(3, indptr, indices, [0], 1);
    assert ReachesSome(3, indptr, indices, [1], 0) && ReachesSome(3, indptr, indices, [1], 1);
  }

  /** In the example, node 2 does not reach sink 1: {0, 1} holds 1 and is
    * closed backwards. */
  lemma ExampleOffPath()
    ensures Shaped(3, [0, 3, 4, 5], [0, 1, 2, 1, 2])
    ensures 2 !in ValidNodes(3, [0, 3, 4, 5], [0, 1, 2, 1, 2], [0], [1])
  {
    var indptr, indices := [0, 3, 4, 5], [0, 1, 2, 1, 2];
    assert Shaped(3, indptr, indices);
    assert BackClosed(3, indptr, indices, {0, 1});
    assert !Reaches(3, indptr, indices, 2, 1);
    assert [1][0] == 1;
    assert !ReachesSome(3, indptr, indices, [1], 2);
  }

  lemma ExampleDisconnected()
    ensures Shaped(3, [0, 3, 4, 5], [0, 1, 2, 1, 2])
    ensures Disconnected(3, [0, 3, 4, 5], [0, 1, 2, 1, 2], [0], [1]) == {2}
  {
    ExampleOnPath();
    ExampleOffPath();
  }

  /** The as-written pruning of the example, with disconnected node 2:
    * position 2 (row 1, column 1 of the transposed pattern) stays on,
    * position 3 (row 2 of the transposed pattern) is switched off. */
  lemma ExampleAsWritten()
    ensures Shaped(3, [0, 1, 3, 5], [0, 0, 1, 0, 2])
    ensures PrunedAsWritten(3, [0, 1, 3, 5], [0, 0, 1, 0, 2], [1.0, 1.0, 1.0, 1.0, 1.0], {2})[2] == 1.0
    ensures PrunedAsWritten(3, [0, 1, 3, 5], [0, 0, 1, 0, 2], [1.0, 1.0, 1.0, 1.0, 1.0], {2})[3] == 0.0
  {
    var indptrT, indicesT := [0, 1, 3, 5], [0, 0, 1, 0, 2];
    assert Shaped(3, indptrT, indicesT);
    RowOfUnique(3, indptrT, indicesT, 1, 2);
    RowOfUnique(3, indptrT, indicesT, 2, 3);
  }

  /** The pruning of the example by its own pattern, with disconnected
    * node 2: position 2 (the link from 0 to 2) is switched off, position 3
    * (the link from 1 to itself) stays on. */
  lemma ExampleCorrected()
    ensures Shaped(3, [0, 3, 4, 5], [0, 1, 2, 1, 2])
    ensures Pruned(3, [0, 3, 4, 5], [0, 1, 2, 1, 2], [1.0, 1.0, 1.0, 1.0, 1.0], {2})[2] == 0.0
    ensures Pruned(3, [0, 3, 4, 5], [0, 1, 2, 1, 2], [1.0, 1.0, 1.0, 1.0, 1.0], {2})[3] == 1.0
  {
    var indptr, indices := [0, 3, 4, 5], [0, 1, 2, 1, 2];
    assert Shaped(3, indptr, indices);
    assert indptr[0] <= 2 < indptr[1] && indptr[1] <= 3 < indptr[2];
  }

  /** Three nodes: 0 links to 0, 1 and 2, node 1 and node 2 only to
    * themselves. With source 0 and sink 1, node 2 is on no path to the
    * sink. The pruning as written leaves on the link from 0 into the
    * disconnected node 2 (position 2) and switches off the link of node 1
    * to itself (position 3), which lies on the path; the pruning by the
    * matrix's own pattern does the opposite. */
  lemma TransposedPruningMisplaced()
    ensures Shaped(3, [0, 3, 4, 5], [0, 1, 2, 1, 2]) && Shaped(3, [0, 1, 3, 5], [0, 0, 1, 0, 2])
    ensures forall u, w :: Edge([0, 3, 4, 5], [0, 1, 2, 1, 2], u, w) <==> Edge([0, 1, 3, 5], [0, 0, 1, 0, 2], w, u)
    ensures Disconnected(3, [0, 3, 4, 5], [0, 1, 2, 1, 2], [0], [1]) == {2}
    ensures PrunedAsWritten(3, [0, 1, 3, 5], [0, 0, 1, 0, 2], [1.0, 1.0, 1.0, 1.0, 1.0], {2})[2] == 1.0
    ensures PrunedAsWritten(3, [0, 1, 3, 5], [0, 0, 1, 0, 2], [1.0, 1.0, 1.0, 1.0, 1.0], {2})[3] == 0.0
    ensures Pruned(3, [0, 3, 4, 5], [0, 1, 2, 1, 2], [1.0, 1.0, 1.0, 1.0, 1.0], {2})[2] == 0.0
    ensures Pruned(3, [0, 3, 4, 5], [0, 1, 2, 1, 2], [1.0, 1.0, 1.0, 1.0, 1.0], {2})[3] == 1.0
  {
    ExampleTransposed();
    ExampleDisconnected();
    ExampleAsWritten();
    ExampleCorrected();
  }

  // ---------------------------------------------------------------------
  // The drivers

  /** A damping factor below 1e-14 is rejected. */
  const MinDamping: real := 0.00000000000001

  /** A damping factor above 1 - 1e-14 needs the connectivity check. */
  const NearlyOne: real := 0.99999999999999

  /** The channel of the basic operator built from the transition values
    * t with the sources and sinks as boundary rows and the sinks and
    * sources as boundary columns: the sink columns are solved with the
    * operator, the source rows with its transpose. */
  ghost predicate BasicChannel(n: nat, indptr: seq<int>, indices: seq<int>, diag: seq<int>, t: seq<real>,
                               sources: seq<nat>, sinks: seq<nat>, factorize: Factorizer,
                               f: seq<seq<real>>, h: seq<seq<real>>)
    requires Shaped(n, indptr, indices) && |t| == |indices| && AllBelow(sources, n) && AllBelow(sinks, n)
  {
    var op := BasicOperator(n, indptr, indices, diag, t, (sources + sinks) + (sinks + sources));
    Channel(n,
            seq(|sources|, j requires 0 <= j < |sources| => DenseRow(n, indptr, indices, t, sources[j])),
            seq(|sinks|, i requires 0 <= i < |sinks| => factorize(op, false)(DenseCol(n, indptr, indices, t, sinks[i]))),
            seq(|sources|, j requires 0 <= j < |sources| => factorize(op, true)(DenseRow(n, indptr, indices, t, sources[j]))),
            sources, sinks, f, h)
  }

  /** The sink columns of the basic channel solve the first-step equations
    * of the walks absorbed at every source and sink: at a node r that is
    * neither, the probability of absorption at sink i is the one-step
    * probability from r into k_i plus the absorption probabilities of the
    * other transient nodes, weighted by the step from r. */
  lemma SinkFirstStep(n: nat, indptr: seq<int>, indices: seq<int>, diag: seq<int>, t: seq<real>,
                      sources: seq<nat>, sinks: seq<nat>, factorize: Factorizer,
                      f: seq<seq<real>>, h: seq<seq<real>>)
    requires Canonical(n, indptr, indices) && DiagonalIndex(n, indptr, indices, diag) && |t| == |indices|
    requires AllBelow(sources, n) && AllBelow(sinks, n) && Solves(factorize)
    requires Nonsingular(System(BasicOperator(n, indptr, indices, diag, t, (sources + sinks) + (sinks + sources)), false))
    requires BasicChannel(n, indptr, indices, diag, t, sources, sinks, factorize, f, h)
    ensures forall i, r :: 0 <= i < |f| && 0 <= r < n && r !in sources && r !in sinks ==>
              |f[i]| == n && i < |sinks| &&
              f[i][r] == Dot(Reset(DenseRow(n, indptr, indices, t, r), sources + sinks), f[i])
                         + DenseRow(n, indptr, indices, t, r)[sinks[i]]
  {
    var b := (sources + sinks) + (sinks + sources);
    var op := BasicOperator(n, indptr, indices, diag, t, b);
    var rows := seq(|sources|, j requires 0 <= j < |sources| => DenseRow(n, indptr, indices, t, sources[j]));
    var xs := seq(|sinks|, i requires 0 <= i < |sinks| => factorize(op, false)(DenseCol(n, indptr, indices, t, sinks[i])));
    var ys := seq(|sources|, j requires 0 <= j < |sources| => factorize(op, true)(DenseRow(n, indptr, indices, t, sources[j])));
    var g := SourceSinkBlock(n, rows, seq(|xs|, i requires 0 <= i < |xs| => Reset(xs[i], sources + sinks)), sinks);
    assert Channel(n, rows, xs, ys, sources, sinks, f, h);
    forall i | 0 <= i < |f|
      ensures |f[i]| == n && i < |sinks|
      ensures forall r :: 0 <= r < n && r !in sources && r !in sinks ==>
                f[i][r] == Dot(Reset(DenseRow(n, indptr, indices, t, r), sources + sinks), f[i])
                           + DenseRow(n, indptr, indices, t, r)[sinks[i]]
    {
      assert SinkColumnOf(f[i], xs[i], g, sources, sinks, i);
      SinkStep(n, indptr, indices, diag, t, sources, sinks, factorize, f[i], g, i);
    }
  }

  /** The source columns of the basic channel solve the first-step
    * equations of the same walks: at a node r that is neither a source nor
    * a sink, the expected visits to r by the walks from source j are the
    * one-step probability from s_j into r plus the visits to the other
    * transient nodes, weighted by their step into r. */
  lemma SourceFirstStep(n: nat, indptr: seq<int>, indices: seq<int>, diag: seq<int>, t: seq<real>,
                        sources: seq<nat>, sinks: seq<nat>, factorize: Factorizer,
                        f: seq<seq<real>>, h: seq<seq<real>>)
    requires Canonical(n, indptr, indices) && DiagonalIndex(n, indptr, indices, diag) && |t| == |indices|
    requires AllBelow(sources, n) && AllBelow(sinks, n) && Solves(factorize)
    requires Nonsingular(System(BasicOperator(n, indptr, indices, diag, t, (sources + sinks) + (sinks + sources)), true))
    requires BasicChannel(n, indptr, indices, diag, t, sources, sinks, factorize, f, h)
    ensures forall j, r :: 0 <= j < |h| && 0 <= r < n && r !in sources && r !in sinks ==>
              |h[j]| == n && j < |sources| &&
              h[j][r] == Dot(Reset(DenseCol(n, indptr, indices, t, r), sources + sinks), h[j])
                         + DenseCol(n, indptr, indices, t, r)[sources[j]]
  {
    var b := (sources + sinks) + (sinks + sources);
    var op := BasicOperator(n, indptr, indices, diag, t, b);
    var rows := seq(|sources|, j requires 0 <= j < |sources| => DenseRow(n, indptr, indices, t, sources[j]));
    var xs := seq(|sinks|, i requires 0 <= i < |sinks| => factorize(op, false)(DenseCol(n, indptr, indices, t, sinks[i])));
    var ys := seq(|sources|, j requires 0 <= j < |sources| => factorize(op, true)(DenseRow(n, indptr, indices, t, sources[j])));
    var g := SourceSinkBlock(n, rows, seq(|xs|, i requires 0 <= i < |xs| => Reset(xs[i], sources + sinks)), sinks);
    assert Channel(n, rows, xs, ys, sources, sinks, f, h);
    forall j | 0 <= j < |h|
      ensures |h[j]| == n && j < |sources|
      ensures forall r :: 0 <= r < n && r !in sources && r !in sinks ==>
                h[j][r] == Dot(Reset(DenseCol(n, indptr, indices, t, r), sources + sinks), h[j])
                           + DenseCol(n, indptr, indices, t, r)[sources[j]]
    {
      assert SourceColumnOf(h[j], ys[j], g, sources, sinks, j);
      SourceStep(n, indptr, indices, diag, t, sources, sinks, factorize, h[j], g, j);
    }
  }

  /** SinkFirstStep for the column of sink i. */
  lemma SinkStep(n: nat, indptr: seq<int>, indices: seq<int>, diag: seq<int>, t: seq<real>,
                 sources: seq<nat>, sinks: seq<nat>, factorize: Factorizer,
                 col: seq<real>, g: seq<seq<real>>, i: nat)
    requires Canonical(n, indptr, indices) && DiagonalIndex(n, indptr, indices, diag) && |t| == |indices|
    requires AllBelow(sources, n) && AllBelow(sinks, n) && Solves(factorize)
    requires Nonsingular(System(BasicOperator(n, indptr, indices, diag, t, (sources + sinks) + (sinks + sources)), false))
    requires i < |sinks| && |g| == |sources| && forall j :: 0 <= j < |g| ==> |g[j]| == |sinks|
    requires SinkColumnOf(col, factorize(BasicOperator(n, indptr, indices, diag, t, (sources + sinks) + (sinks + sources)), false)
                                (DenseCol(n, indptr, indices, t, sinks[i])), g, sources, sinks, i)
    ensures |col| == n
    ensures forall r :: 0 <= r < n && r !in sources && r !in sinks ==>
              col[r] == Dot(Reset(DenseRow(n, indptr, indices, t, r), sources + sinks), col)
                        + DenseRow(n, indptr, indices, t, r)[sinks[i]]
  {
    var b := (sources + sinks) + (sinks + sources);
    assert TransitionOf(n, indptr, indices, t, true)[sinks[i]] == DenseCol(n, indptr, indices, t, sinks[i]);
    forall q ensures q in b <==> q in sources + sinks {
      assert q in b <==> q in sources || q in sinks;
    }
    forall r | 0 <= r < n && r !in sources && r !in sinks
      ensures col[r] == Dot(Reset(DenseRow(n, indptr, indices, t, r), sources + sinks), col)
                        + DenseRow(n, indptr, indices, t, r)[sinks[i]]
    {
      TransientStep(n, indptr, indices, diag, t, b, sources + sinks, factorize, false, sinks[i], col, r);
    }
  }

  /** SourceFirstStep for the column of source j. */
  lemma SourceStep(n: nat, indptr: seq<int>, indices: seq<int>, diag: seq<int>, t: seq<real>,
                   sources: seq<nat>, sinks: seq<nat>, factorize: Factorizer,
                   col: seq<real>, g: seq<seq<real>>, j: nat)
    requires Canonical(n, indptr, indices) && DiagonalIndex(n, indptr, indices, diag) && |t| == |indices|
    requires AllBelow(sources, n) && AllBelow(sinks, n) && Solves(factorize)
    requires Nonsingular(System(BasicOperator(n, indptr, indices, diag, t, (sources + sinks) + (sinks + sources)), true))
    requires j < |sources| && j < |g| && |g[j]| == |sinks|
    requires SourceColumnOf(col, factorize(BasicOperator(n, indptr, indices, diag, t, (sources + sinks) + (sinks + sources)), true)
                                  (DenseRow(n, indptr, indices, t, sources[j])), g, sources, sinks, j)
    ensures |col| == n
    ensures forall r :: 0 <= r < n && r !in sources && r !in sinks ==>
              col[r] == Dot(Reset(DenseCol(n, indptr, indices, t, r), sources + sinks), col)
                        + DenseCol(n, indptr, indices, t, r)[sources[j]]
  {
    var b := (sources + sinks) + (sinks + sources);
    assert TransitionOf(n, indptr, indices, t, false)[sources[j]] == DenseRow(n, indptr, indices, t, sources[j]);
    forall q ensures q in b <==> q in sources + sinks {
      assert q in b <==> q in sources || q in sinks;
    }
    forall r | 0 <= r < n && r !in sources && r !in sinks
      ensures col[r] == Dot(Reset(DenseCol(n, indptr, indices, t, r), sources + sinks), col)
                        + DenseCol(n, indptr, indices, t, r)[sources[j]]
    {
      TransientStep(n, indptr, indices, diag, t, b, sources + sinks, factorize, true, sources[j], col, r);
    }
  }

  /** In the setup st with stored values m, the solutions for the sink
    * columns and the source rows are those of the basic operator. */
  ghost predicate SolvesBasic(spl: SparseLaplacian, st: Setup, m: CsrMatrix, sources: seq<nat>, sinks: seq<nat>)
    requires spl.Solvable(st) && AllBelow(sources, spl.w.n) && AllBelow(sinks, spl.w.n)
  {
    var n, indptr, indices, t := spl.w.n, spl.w.indptr, spl.w.indices, spl.transition;
    var op := BasicOperator(n, indptr, indices, spl.w.diagonalIx, t, (sources + sinks) + (sinks + sources));
    && (forall i :: 0 <= i < |sinks| ==>
          spl.SolutionOf(st, m, DenseCol(n, indptr, indices, t, sinks[i]), true)
          == spl.factorize(op, false)(DenseCol(n, indptr, indices, t, sinks[i])))
    && (forall j :: 0 <= j < |sources| ==>
          spl.SolutionOf(st, m, DenseRow(n, indptr, indices, t, sources[j]), false)
          == spl.factorize(op, true)(DenseRow(n, indptr, indices, t, sources[j])))
  }

  /** The basic operator with the sources and sinks as boundary rows and
    * the sinks and sources as boundary columns has the rows and columns
    * the context asks for, and solves with the operator of those
    * boundaries. */
  lemma BasicSolves(spl: SparseLaplacian, sources: seq<nat>, sinks: seq<nat>)
    requires spl.Valid() && spl.Ready() && spl.Assembled() && !spl.full
    requires spl.boundaryRows == sources + sinks && spl.boundaryCols == sinks + sources
    requires AllBelow(sources, spl.w.n) && AllBelow(sinks, spl.w.n)
    ensures Emitting.HasRows(spl, sources) && HasSinkCols(spl, sinks)
    ensures SolvesBasic(spl, spl.State(), spl.Current(), sources, sinks)
  {
    var n, indptr, indices, t := spl.w.n, spl.w.indptr, spl.w.indices, spl.transition;
    assert (sources + sinks) + (sinks + sources) == spl.boundaryRows + spl.boundaryCols;
    forall i | 0 <= i < |sinks|
      ensures sinks[i] in spl.boundaryCols
    {
      assert (sinks + sources)[i] == sinks[i];
    }
    forall j | 0 <= j < |sources|
      ensures sources[j] in spl.boundaryRows
    {
      assert (sources + sinks)[j] == sources[j];
    }
    forall i | 0 <= i < |sinks| {
      spl.BasicSolution(DenseCol(n, indptr, indices, t, sinks[i]), true);
    }
    forall j | 0 <= j < |sources| {
      spl.BasicSolution(DenseRow(n, indptr, indices, t, sources[j]), false);
    }
  }

  /** A context evaluated with solutions of the basic operator is its
    * basic channel. */
  lemma ChannelIsBasic(spl: SparseLaplacian, st: Setup, m: CsrMatrix, sources: seq<nat>, sinks: seq<nat>,
                       f: seq<seq<real>>, h: seq<seq<real>>)
    requires spl.Solvable(st) && AllBelow(sources, spl.w.n) && AllBelow(sinks, spl.w.n)
    requires SolvesBasic(spl, st, m, sources, sinks) && IsChannel(spl, st, m, sources, sinks, f, h)
    ensures BasicChannel(spl.w.n, spl.w.indptr, spl.w.indices, spl.w.diagonalIx, spl.transition,
                         sources, sinks, spl.factorize, f, h)
  {
    var n, indptr, indices, t := spl.w.n, spl.w.indptr, spl.w.indices, spl.transition;
    var op := BasicOperator(n, indptr, indices, spl.w.diagonalIx, t, (sources + sinks) + (sinks + sources));
    assert seq(|sinks|, i requires 0 <= i < |sinks| && sinks[i] < n =>
                 spl.SolutionOf(st, m, DenseCol(n, indptr, indices, t, sinks[i]), true))
           == seq(|sinks|, i requires 0 <= i < |sinks| =>
                 spl.factorize(op, false)(DenseCol(n, indptr, indices, t, sinks[i])));
    assert seq(|sources|, j requires 0 <= j < |sources| && sources[j] < n =>
                 spl.SolutionOf(st, m, DenseRow(n, indptr, indices, t, sources[j]), false))
           == seq(|sources|, j requires 0 <= j < |sources| =>
                 spl.factorize(op, true)(DenseRow(n, indptr, indices, t, sources[j])));
    assert seq(|sources|, j requires 0 <= j < |sources| && sources[j] < n =>
                 DenseRow(n, indptr, indices, t, sources[j]))
           == seq(|sources|, j requires 0 <= j < |sources| => DenseRow(n, indptr, indices, t, sources[j]));
  }

  /** `_process_context_SPL`: sets the boundary of a full-graph operator
    * to the sinks followed by the sources and evaluates the context. The
    * basic variant has no boundary to set. */
  method ProcessContextSpl(sources: seq<nat>, sinks: seq<nat>, spl: SparseLaplacian)
    returns (r: Result<(seq<seq<real>>, seq<seq<real>>)>)
    requires spl.Valid()
    modifies spl
    ensures spl.Valid()
    ensures !spl.full ==> r == Err("AttributeError")
    ensures spl.full && !(AllBelow(sources, spl.w.n) && AllBelow(sinks, spl.w.n)) ==> r == Err("IndexError")
    ensures r.Ok? ==> spl.full && spl.Ready() && spl.boundaryIxs == Some(sinks + sources)
    ensures r.Ok? ==> IsChannel(spl, spl.State(), spl.Current(), sources, sinks, r.value.0, r.value.1)
  {
    if !spl.full {
      return Err("AttributeError");
    }
    if !(AllBelow(sources, spl.w.n) && AllBelow(sinks, spl.w.n)) {
      return Err("IndexError");
    }
    var outcome := spl.SetBoundaryIxs(sinks + sources);
    if outcome.Err? {
      return Err(outcome.error);
    }
    r := EvaluateContext(spl, sources, sinks);
  }

  /** Builds the basic operator from W and the mask with the sources and
    * sinks as boundary rows and the sinks and sources as boundary columns
    * (changing the values of W in place) and evaluates the context. */
  method BasicContext(W: AdjacencyMatrix, mask: seq<real>, sources: seq<nat>, sinks: seq<nat>,
                      factorizer: Factorizer, inverter: Inverter)
    returns (f: seq<seq<real>>, h: seq<seq<real>>)
    requires W.Valid() && SolverShaped(factorizer) && InverterShaped(inverter) && |mask| == W.data.Length
    requires AllBelow(sources, W.n) && AllBelow(sinks, W.n)
    modifies W.data
    ensures |f| == |sinks| && |h| == |sources|
    ensures BasicChannel(W.n, W.indptr, W.indices, W.diagonalIx,
                         Masked(mask, Normalized(W.n, W.indptr, W.indices, W.rowWeights, old(W.data[..]))),
                         sources, sinks, factorizer, f, h)
  {
    var spl := new SparseLaplacian(W, mask, Some(sources + sinks), Some(sinks + sources), factorizer, inverter);
    f, h := EvaluateBasic(spl, sources, sinks);
  }

  /** The evaluation of a freshly built basic operator. */
  method EvaluateBasic(spl: SparseLaplacian, sources: seq<nat>, sinks: seq<nat>)
    returns (f: seq<seq<real>>, h: seq<seq<real>>)
    requires spl.Valid() && spl.Ready() && spl.Assembled() && !spl.full
    requires spl.boundaryRows == sources + sinks && spl.boundaryCols == sinks + sources
    requires AllBelow(sources, spl.w.n) && AllBelow(sinks, spl.w.n)
    modifies spl
    ensures |f| == |sinks| && |h| == |sources|
    ensures BasicChannel(spl.w.n, spl.w.indptr, spl.w.indices, spl.w.diagonalIx, spl.transition,
                         sources, sinks, spl.factorize, f, h)
  {
    ghost var st, m := spl.State(), spl.Current();
    BasicSolves(spl, sources, sinks);
    var r := EvaluateContext(spl, sources, sinks);
    assert spl.State() == st && spl.Current() == m;
    assert spl.boundaryRows == st.rows && spl.boundaryCols == st.cols;
    assert Emitting.HasRows(spl, sources) && HasSinkCols(spl, sinks);
    f, h := r.value.0, r.value.1;
    ChannelIsBasic(spl, st, m, sources, sinks, f, h);
  }

  /** `df_mask *= df`. */
  function Scaled(m: seq<real>, k: real): (r: seq<real>)
    ensures |r| == |m| && forall p :: 0 <= p < |m| ==> r[p] == k * m[p]
  {
    seq(|m|, p requires 0 <= p < |m| => k * m[p])
  }

  /** `a *= k` on a numpy array. */
  method ScaleArray(a: array<real>, k: real)
    modifies a
    ensures a[..] == Scaled(old(a[..]), k)
  {
    ghost var before := a[..];
    forall p | 0 <= p < a.Length {
      a[p] := k * a[p];
    }
    assert forall p :: 0 <= p < a.Length ==> a[..][p] == Scaled(before, k)[p];
  }

  /** The mask `_process_context_df` builds the operator with: every
    * out-link damped by df except for the nodes given their own factor;
    * at a damping factor of nearly 1 it is first pruned to the nodes on a
    * path from a source to a sink. */
  ghost function DfContextMask(n: nat, indptr: seq<int>, indices: seq<int>, sources: seq<nat>, sinks: seq<nat>,
                               alphaOutMap: map<nat, real>, df: real): (m: seq<real>)
    requires Shaped(n, indptr, indices)
    ensures |m| == |indices|
  {
    var mask := DfMask(n, indptr, indices, df, alphaOutMap, 1.0, map[]);
    if df > NearlyOne then Scaled(Pruned(n, indptr, indices, mask, Disconnected(n, indptr, indices, sources, sinks)), df)
    else mask
  }

  /** The mask of `_process_context_df`, with the connectivity check at a
    * damping factor of nearly 1. */
  method ContextMask(W: AdjacencyMatrix, sources: seq<nat>, sinks: seq<nat>, alphaOutMap: map<nat, real>,
                     df: real, transpose: Transposer)
    returns (r: Result<seq<real>>)
    requires W.Valid() && IsTransposer(transpose)
    ensures r.Ok? <==> && (forall i :: i in alphaOutMap ==> i < W.n)
                       && (df > NearlyOne ==>
                             && AllBelow(sources, W.n) && AllBelow(sinks, W.n) && sources != [] && sinks != []
                             && Connected(W.n, W.indptr, W.indices, DfMask(W.n, W.indptr, W.indices, df, alphaOutMap, 1.0, map[]),
                                          sources, sinks))
    ensures r.Ok? ==> r.value == DfContextMask(W.n, W.indptr, W.indices, sources, sinks, alphaOutMap, df)
  {
    var mask := W.GetDfMask(df, alphaOutMap, 1.0, map[]);
    if mask.Err? {
      return Err(mask.error);
    }
    if df <= NearlyOne {
      return Ok(mask.value);
    }
    r := CheckedMask(W, mask.value, sources, sinks, df, transpose);
  }

  /** `df_mask, _ = _context_arg_check(W, df_mask, ...)` followed by
    * `df_mask *= df`. */
  method CheckedMask(W: AdjacencyMatrix, m: seq<real>, sources: seq<nat>, sinks: seq<nat>, df: real,
                     transpose: Transposer)
    returns (r: Result<seq<real>>)
    requires W.Valid() && |m| == W.data.Length && IsTransposer(transpose)
    ensures r.Ok? <==> && AllBelow(sources, W.n) && AllBelow(sinks, W.n) && sources != [] && sinks != []
                       && Connected(W.n, W.indptr, W.indices, m, sources, sinks)
    ensures r.Ok? ==> r.value == Scaled(Pruned(W.n, W.indptr, W.indices, m, Disconnected(W.n, W.indptr, W.indices, sources, sinks)), df)
  {
    var a := new real[|m|](p requires 0 <= p < |m| => m[p]);
    assert a[..] == m;
    var check, ds := ContextArgCheck(W, a, sources, sinks, transpose);
    if check.Err? {
      return Err(check.error);
    }
    ghost var pruned := a[..];
    ghost var disc := Disconnected(W.n, W.indptr, W.indices, sources, sinks);
    assert pruned == Pruned(W.n, W.indptr, W.indices, m, disc);
    ScaleArray(a, df);
    assert a[..] == Scaled(Pruned(W.n, W.indptr, W.indices, m, disc), df);
    return Ok(a[..]);
  }

  /** `_process_context_df`: a damping factor too close to 0 is rejected;
    * one nearly 1 needs every source connected to a sink and prunes the
    * mask; then the context of the basic operator with that mask. */
  method ProcessContextDf(W: AdjacencyMatrix, sources: seq<nat>, sinks: seq<nat>, alphaOutMap: map<nat, real>,
                          df: real, transpose: Transposer, factorizer: Factorizer, inverter: Inverter)
    returns (r: Result<(seq<seq<real>>, seq<seq<real>>)>)
    requires W.Valid() && SolverShaped(factorizer) && InverterShaped(inverter) && IsTransposer(transpose)
    modifies W.data
    ensures df < MinDamping ==> r == Err("RuntimeError")
    ensures r.Ok? <==> && df >= MinDamping && (forall i :: i in alphaOutMap ==> i < W.n)
                       && AllBelow(sources, W.n) && AllBelow(sinks, W.n)
                       && (df > NearlyOne ==>
                             && sources != [] && sinks != []
                             && Connected(W.n, W.indptr, W.indices, DfMask(W.n, W.indptr, W.indices, df, alphaOutMap, 1.0, map[]),
                                          sources, sinks))
    ensures r.Ok? ==>
              BasicChannel(W.n, W.indptr, W.indices, W.diagonalIx,
                           Masked(DfContextMask(W.n, W.indptr, W.indices, sources, sinks, alphaOutMap, df),
                                  Normalized(W.n, W.indptr, W.indices, W.rowWeights, old(W.data[..]))),
                           sources, sinks, factorizer, r.value.0, r.value.1)
  {
    if df < MinDamping {
      return Err("RuntimeError");
    }
    var mask := ContextMask(W, sources, sinks, alphaOutMap, df, transpose);
    if mask.Err? {
      return Err(mask.error);
    }
    if !(AllBelow(sources, W.n) && AllBelow(sinks, W.n)) {
      return Err("IndexError");
    }
    var f, h := BasicContext(W, mask.value, sources, sinks, factorizer, inverter);
    return Ok((f, h));
  }

  // ---------------------------------------------------------------------
  // Damping chosen by a target mean path length

  /** The objective data of the path-length search: the damping data with
    * the sources and sinks as boundary rows and the sinks and sources as
    * boundary columns, the sources and sinks, and the target. */
  datatype ChannelProblem = ChannelProblem(d: Damping, sources: seq<nat>, sinks: seq<nat>, target: real)

  ghost predicate ChannelPosed(p: ChannelProblem)
  {
    && Damps(p.d) && |p.sources| > 0
    && AllBelow(p.sources, p.d.n) && AllBelow(p.sinks, p.d.n)
    && p.d.boundary == (p.sources + p.sinks) + (p.sinks + p.sources)
  }

  /** a * b as a term of its own: it keeps the solver's nonlinear
    * arithmetic out of the proofs that only move such products around. */
  function Times(a: real, b: real): real
  {
    a * b
  }

  /** x / y, with 0 where numpy's float division by 0 gives inf or nan. */
  function Quotient(x: real, y: real): (q: real)
    ensures y != 0.0 ==> q * y == x
  {
    if y == 0.0 then 0.0 else x / y
  }

  /** For source s and sink k at damping x0: `F_col_k` solves the operator
    * for column k of the transition matrix, `GF_col_k` and `GGF_col_k`
    * apply the solve once and twice more; the result holds their products
    * with the transition row of s: F_sk, HF_sk and HGF_sk. */
  function PathSums(p: ChannelProblem, x0: real, s: nat, k: nat): (real, real, real)
    requires ChannelPosed(p) && s < p.d.n && k < p.d.n
  {
    var d := p.d;
    var t := DampedTransition(d, x0);
    var solve := d.factorize(DampedOperator(d, x0), false);
    var fk := solve(DenseCol(d.n, d.indptr, d.indices, t, k));
    var gf := solve(fk);
    var ggf := solve(gf);
    var row := DenseRow(d.n, d.indptr, d.indices, t, s);
    (Dot(row, fk), Dot(row, gf), Dot(row, ggf))
  }

  /** `Fs`: F_sk for every sink k. */
  function SinkFlows(p: ChannelProblem, x0: real, s: nat): (fs: seq<real>)
    requires ChannelPosed(p) && s < p.d.n
    ensures |fs| == |p.sinks|
  {
    seq(|p.sinks|, i requires 0 <= i < |p.sinks| => PathSums(p, x0, s, p.sinks[i]).0)
  }

  /** HF_sk for every sink k. */
  function SinkVisits(p: ChannelProblem, x0: real, s: nat): (hf: seq<real>)
    requires ChannelPosed(p) && s < p.d.n
    ensures |hf| == |p.sinks|
  {
    seq(|p.sinks|, i requires 0 <= i < |p.sinks| => PathSums(p, x0, s, p.sinks[i]).1)
  }

  /** `Ts[j] = 1 + HF_sk / Fs[j]`: the mean length of the paths from s
    * that end at sink k. */
  function PathLengths(p: ChannelProblem, x0: real, s: nat): (ts: seq<real>)
    requires ChannelPosed(p) && s < p.d.n
    ensures |ts| == |p.sinks|
  {
    var fs, hf := SinkFlows(p, x0, s), SinkVisits(p, x0, s);
    seq(|p.sinks|, i requires 0 <= i < |p.sinks| => 1.0 + Quotient(hf[i], fs[i]))
  }

  /** `DTs[j] = (Ts[j] - Ts[j]**2 + 2 HGF_sk / Fs[j]) / x0`. */
  function PathLengthSlopes(p: ChannelProblem, x0: real, s: nat): (dts: seq<real>)
    requires ChannelPosed(p) && s < p.d.n
    ensures |dts| == |p.sinks|
  {
    var fs, ts := SinkFlows(p, x0, s), PathLengths(p, x0, s);
    seq(|p.sinks|, i requires 0 <= i < |p.sinks| =>
      Quotient(ts[i] - ts[i] * ts[i] + 2.0 * Quotient(PathSums(p, x0, s, p.sinks[i]).2, fs[i]), x0))
  }

  /** The contribution of source s to `fval` and `fpval`: the means of Ts
    * and DTs weighted by Fs. */
  function SourceMeans(p: ChannelProblem, x0: real, s: nat): (real, real)
    requires ChannelPosed(p) && s < p.d.n
  {
    var fs, ts, dts := SinkFlows(p, x0, s), PathLengths(p, x0, s), PathLengthSlopes(p, x0, s);
    (Sum(Weighted(fs, ts)), Sum(Weighted(fs, dts)))
  }

  /** `Fs * v / Fs.sum()`. */
  function Weighted(fs: seq<real>, v: seq<real>): (w: seq<real>)
    requires |fs| == |v|
    ensures |w| == |fs| && forall i :: 0 <= i < |fs| ==> w[i] == Share(fs[i], v[i], Sum(fs))
  {
    seq(|fs|, i requires 0 <= i < |fs| => Share(fs[i], v[i], Sum(fs)))
  }

  /** a * b / total, with its product written out. */
  function Share(a: real, b: real, total: real): (q: real)
    ensures total != 0.0 ==> q * total == a * b
  {
    Quotient(a * b, total)
  }

  /** `_root_func(x0)`: the mean over the sources of their weighted path
    * lengths, minus the target, with the mean of the slopes; the payload
    * is the damping the operator was built with. */
  function ChannelRoot(p: ChannelProblem, x0: real): (real, real, real)
    requires ChannelPosed(p)
  {
    var m := |p.sources| as real;
    (Sum(seq(|p.sources|, j requires 0 <= j < |p.sources| => SourceMeans(p, x0, p.sources[j]).0)) / m - p.target,
     Sum(seq(|p.sources|, j requires 0 <= j < |p.sources| => SourceMeans(p, x0, p.sources[j]).1)) / m,
     x0)
  }

  function ChannelRootOf(p: ChannelProblem): Objective<real>
    requires ChannelPosed(p)
  {
    x0 => ChannelRoot(p, x0)
  }

  /** Terms that are (f + h) / total add up to (sum f + sum h) / total,
    * stated without the division. */
  lemma {:induction false} WeightedLengths(fs: seq<real>, hf: seq<real>, terms: seq<real>, total: real)
    requires |fs| == |hf| == |terms|
    requires forall i :: 0 <= i < |fs| ==> Times(terms[i], total) == fs[i] + hf[i]
    ensures Times(Sum(terms), total) == Sum(fs) + Sum(hf)
    decreases |fs|
  {
    if |fs| > 0 {
      var k := |fs| - 1;
      WeightedLengths(fs[..k], hf[..k], terms[..k], total);
      calc {
        Times(Sum(terms), total);
        (Sum(terms[..k]) + terms[k]) * total;
        Times(Sum(terms[..k]), total) + Times(terms[k], total);
      }
    }
  }

  /** f (1 + h / f) is f + h when f is nonzero. */
  lemma WeightedLength(f: real, h: real, q: real, t: real)
    requires f != 0.0 && q * f == h && t == 1.0 + q
    ensures f * t == f + h
  {
  }

  /** The Fs-weighted mean of the path lengths 1 + h / f is
    * 1 + sum h / sum f. */
  lemma WeightedMean(fs: seq<real>, hf: seq<real>, ts: seq<real>, total: real)
    requires |fs| == |hf| == |ts| && total == Sum(fs) && total != 0.0
    requires forall i :: 0 <= i < |fs| ==> fs[i] != 0.0 && ts[i] == 1.0 + Quotient(hf[i], fs[i])
    ensures Sum(Weighted(fs, ts)) == 1.0 + Sum(hf) / total
  {
    var terms := Weighted(fs, ts);
    forall i | 0 <= i < |fs|
      ensures Times(terms[i], total) == fs[i] + hf[i]
    {
      WeightedTerm(fs[i], hf[i], ts[i], terms[i], total);
    }
    WeightedLengths(fs, hf, terms, total);
    Rearranged(Sum(terms), total, Sum(fs), Sum(hf));
  }

  /** One term of the weighted mean: f (1 + h / f) / total. */
  lemma WeightedTerm(f: real, h: real, t: real, term: real, total: real)
    requires f != 0.0 && total != 0.0 && t == 1.0 + Quotient(h, f) && term == Share(f, t, total)
    ensures Times(term, total) == f + h
  {
    WeightedLength(f, h, Quotient(h, f), t);
  }

  /** When every F_sk is nonzero and so is their sum, the weighted path
    * length of source s is 1 + sum_k HF_sk / sum_k F_sk: one plus the
    * expected visits, per walk from s that ends at a sink. */
  lemma SourceMeanIsPathLength(p: ChannelProblem, x0: real, s: nat)
    requires ChannelPosed(p) && s < p.d.n
    requires forall i :: 0 <= i < |p.sinks| ==> SinkFlows(p, x0, s)[i] != 0.0
    requires Sum(SinkFlows(p, x0, s)) != 0.0
    ensures SourceMeans(p, x0, s).0 == 1.0 + Sum(SinkVisits(p, x0, s)) / Sum(SinkFlows(p, x0, s))
  {
    WeightedMean(SinkFlows(p, x0, s), SinkVisits(p, x0, s), PathLengths(p, x0, s), Sum(SinkFlows(p, x0, s)));
  }

  lemma Rearranged(x: real, t: real, s: real, h: real)
    requires t != 0.0 && s == t && Times(x, t) == s + h
    ensures x == 1.0 + h / t
  {
    var y := 1.0 + h / t;
    assert y * t == t + h;
    assert (x - y) * t == 0.0;
    assert x - y == ((x - y) * t) / t;
  }

  /** The dummy mask of `_process_context_mu_newton`: every out-link
    * damped by 0.85 except for the nodes given their own factor, pruned to
    * the nodes on a path from a source to a sink. */
  ghost function NewtonMask(W: AdjacencyMatrix, sources: seq<nat>, sinks: seq<nat>, alphaOutMap: map<nat, real>): seq<real>
    reads W, W.data
    requires W.Valid()
  {
    Pruned(W.n, W.indptr, W.indices, DfMask(W.n, W.indptr, W.indices, 0.85, alphaOutMap, 1.0, map[]),
           Disconnected(W.n, W.indptr, W.indices, sources, sinks))
  }

  /** The objective data of `_process_context_mu_newton` for the mask
    * `mask`, rescaled by its largest entry. */
  ghost function NewtonChannel(W: AdjacencyMatrix, sources: seq<nat>, sinks: seq<nat>, mask: seq<real>,
                               target: real, factorizer: Factorizer): ChannelProblem
    reads W, W.data
    requires W.Valid()
  {
    ChannelProblem(Damping(W.n, W.indptr, W.indices, W.diagonalIx,
                           Normalized(W.n, W.indptr, W.indices, W.rowWeights, W.data[..]),
                           mask, if |mask| > 0 then Max(mask) else 0.0, (sources + sinks) + (sinks + sources), factorizer),
                   sources, sinks, target)
  }

  /** The outcome of the Newton search for a target mean path length: the
    * objective is posed, the search is allowed at least one step, the
    * returned damping factor is where the bracketed search from 0.8 on
    * [0, 1] stops, and the flows are the context of the operator damped
    * by that factor. */
  ghost predicate NewtonSearched(W: AdjacencyMatrix, sources: seq<nat>, sinks: seq<nat>, alphaOutMap: map<nat, real>,
                                 target: real, maxiter: nat, tol: real, factorizer: Factorizer,
                                 x: real, f: seq<seq<real>>, h: seq<seq<real>>)
    reads W, W.data
    requires W.Valid() && AllBelow(sources, W.n) && AllBelow(sinks, W.n)
  {
    ChannelSearched(NewtonChannel(W, sources, sinks, NewtonMask(W, sources, sinks, alphaOutMap), target, factorizer),
                    maxiter, tol, x, f, h)
  }

  /** The outcome of the bracketed search on the problem `p`. */
  ghost predicate ChannelSearched(p: ChannelProblem, maxiter: nat, tol: real,
                                  x: real, f: seq<seq<real>>, h: seq<seq<real>>)
  {
    && ChannelPosed(p) && maxiter > 0
    && var o := Run(ChannelRootOf(p), 0.8, 0.0, 1.0, 0, maxiter, tol);
    && x == o.x && 0.0 <= o.x <= 1.0
    && BasicChannel(p.d.n, p.d.indptr, p.d.indices, p.d.diag, DampedTransition(p.d, o.args),
                    p.sources, p.sinks, p.d.factorize, f, h)
  }

  /** `_process_context_mu_newton`: the connectivity check gives the mean
    * shortest path length as the lower bound; the target is the lower
    * bound plus the deviation (scaled by the lower bound when relative)
    * and may not lie below it. Then the bracketed Newton search on [0, 1]
    * from 0.8, and the context of the last operator the search built. W
    * itself is not changed: every operator is built on a copy. */
  method ProcessContextMuNewton(W: AdjacencyMatrix, sources: seq<nat>, sinks: seq<nat>, alphaOutMap: map<nat, real>,
                                deviation: real, relative: bool, maxiter: nat, tol: real,
                                transpose: Transposer, factorizer: Factorizer, inverter: Inverter)
    returns (r: Result<(real, seq<seq<real>>, seq<seq<real>>)>, ghost lower: real, ghost target: real)
    requires W.Valid() && SolverShaped(factorizer) && InverterShaped(inverter) && IsTransposer(transpose)
    ensures r.Ok? ==> && (forall i :: i in alphaOutMap ==> i < W.n)
                      && AllBelow(sources, W.n) && AllBelow(sinks, W.n) && sources != [] && sinks != []
                      && Connected(W.n, W.indptr, W.indices, DfMask(W.n, W.indptr, W.indices, 0.85, alphaOutMap, 1.0, map[]),
                                   sources, sinks)
    ensures r.Ok? ==> lower >= 0.0 && (if relative then Times(deviation, lower) else deviation) >= 0.0
    ensures !relative && deviation < 0.0 ==> r.Err?
    ensures r.Ok? ==> target == lower + (if relative then Times(deviation, lower) else deviation)
    ensures r.Ok? ==> NewtonSearched(W, sources, sinks, alphaOutMap, target, maxiter, tol, factorizer,
                                     r.value.0, r.value.1, r.value.2)
  {
    lower, target := 0.0, 0.0;
    var bounds := PathLengthBound(W, sources, sinks, alphaOutMap, transpose);
    if bounds.Err? {
      return Err(bounds.error), lower, target;
    }
    var pruned, lo := bounds.value.0, bounds.value.1;
    lower := lo;
    var dev := if relative then Times(deviation, lo) else deviation;
    var t := lo + dev;
    if t < lo {
      return Err("RuntimeError"), lower, target;
    }
    target := t;
    r := NewtonContext(W, sources, sinks, pruned, t, maxiter, tol, factorizer, inverter);
  }

  /** The search of `_process_context_mu_newton` once the target is known:
    * the dummy mask is rescaled by its largest entry. */
  method NewtonContext(W: AdjacencyMatrix, sources: seq<nat>, sinks: seq<nat>,
                       pruned: seq<real>, target: real, maxiter: nat, tol: real,
                       factorizer: Factorizer, inverter: Inverter)
    returns (r: Result<(real, seq<seq<real>>, seq<seq<real>>)>)
    requires W.Valid() && SolverShaped(factorizer) && InverterShaped(inverter)
    requires AllBelow(sources, W.n) && AllBelow(sinks, W.n) && sources != [] && |pruned| == |W.indices|
    ensures r.Ok? ==> ChannelSearched(NewtonChannel(W, sources, sinks, pruned, target, factorizer), maxiter, tol,
                                      r.value.0, r.value.1, r.value.2)
  {
    if |pruned| == 0 {
      return Err("ValueError");
    }
    var top := Max(pruned);
    if top == 0.0 {
      return Err("ZeroDivisionError");
    }
    var base := Normalized(W.n, W.indptr, W.indices, W.rowWeights, W.data[..]);
    var p := ChannelProblem(Damping(W.n, W.indptr, W.indices, W.diagonalIx, base, pruned, top,
                                    (sources + sinks) + (sinks + sources), factorizer),
                            sources, sinks, target);
    assert p == NewtonChannel(W, sources, sinks, pruned, target, factorizer);
    r := ChannelSearch(W, p, maxiter, tol, inverter);
  }

  /** The first steps of `_process_context_mu_newton`: the dummy mask at
    * 0.85, pruned by the connectivity check, and the mean shortest path
    * length the check returns. */
  method PathLengthBound(W: AdjacencyMatrix, sources: seq<nat>, sinks: seq<nat>, alphaOutMap: map<nat, real>,
                         transpose: Transposer)
    returns (r: Result<(seq<real>, real)>)
    requires W.Valid() && IsTransposer(transpose)
    ensures r.Ok? <==> && (forall i :: i in alphaOutMap ==> i < W.n)
                       && AllBelow(sources, W.n) && AllBelow(sinks, W.n) && sources != [] && sinks != []
                       && Connected(W.n, W.indptr, W.indices, DfMask(W.n, W.indptr, W.indices, 0.85, alphaOutMap, 1.0, map[]),
                                    sources, sinks)
    ensures r.Ok? ==> && r.value.0 == Pruned(W.n, W.indptr, W.indices,
                                             DfMask(W.n, W.indptr, W.indices, 0.85, alphaOutMap, 1.0, map[]),
                                             Disconnected(W.n, W.indptr, W.indices, sources, sinks))
                      && r.value.1 >= 0.0
  {
    var mask := W.GetDfMask(0.85, alphaOutMap, 1.0, map[]);
    if mask.Err? {
      return Err(mask.error);
    }
    var m := mask.value;
    var a := new real[|m|](p requires 0 <= p < |m| => m[p]);
    assert a[..] == m;
    var check, ds := ContextArgCheck(W, a, sources, sinks, transpose);
    if check.Err? {
      return Err(check.error);
    }
    return Ok((a[..], check.value));
  }

  /** The search of `_process_context_mu_newton` on [0, 1] from 0.8, and
    * the context at the damping of its last evaluation, built on a copy of
    * W. */
  method ChannelSearch(W: AdjacencyMatrix, p: ChannelProblem, maxiter: nat, tol: real, inverter: Inverter)
    returns (r: Result<(real, seq<seq<real>>, seq<seq<real>>)>)
    requires W.Valid() && ChannelPosed(p) && InverterShaped(inverter)
    requires p.d.n == W.n && p.d.indptr == W.indptr && p.d.indices == W.indices && p.d.diag == W.diagonalIx
    requires p.d.base == Normalized(W.n, W.indptr, W.indices, W.rowWeights, W.data[..])
    ensures maxiter == 0 <==> r.Err?
    ensures r.Ok? ==> ChannelSearched(p, maxiter, tol, r.value.0, r.value.1, r.value.2)
  {
    var found := RootfindNewton(ChannelRootOf(p), 0.8, 0.0, 1.0, maxiter, tol);
    if found.Err? {
      return Err(found.error);
    }
    RunStaysInBracket(ChannelRootOf(p), 0.8, 0.0, 1.0, 0, maxiter, tol);
    var x0 := found.value.args;
    var copy := W.Copy();
    var f, h := BasicContext(copy, Rescaled(p.d.mask, p.d.top, x0), p.sources, p.sinks, p.d.factorize, inverter);
    return Ok((found.value.x, f, h));
  }

  // ---------------------------------------------------------------------
  // The analysis object

  /** What `NormChannelAnalysis` keeps: the damping factor (found by the
    * search when only a path-length deviation was given), the absolute
    * and relative deviations, the excluded nodes and the context F, H. */
  datatype NormChannelAnalysis = NormChannelAnalysis(df: Option<real>, da: Option<real>, dr: Option<real>,
                                                     excluded: set<nat>, f: seq<seq<real>>, h: seq<seq<real>>)

  /** `NormChannelAnalysis.__init__` with `_solve_boundary_problem`:
    * without any dissipation specification it fails; a given operator is
    * reused; else a fixed df is applied, or without one the damping is
    * found from the absolute deviation da, or else from the relative
    * deviation dr. The nodes are given as indices, the antisink map as
    * out-factors by index. */
  method NewNormChannelAnalysis(W: AdjacencyMatrix, sources: seq<nat>, sinks: seq<nat>, antisinkMap: map<nat, real>,
                                df: Option<real>, da: Option<real>, dr: Option<real>,
                                context: Option<SparseLaplacian>, maxiter: nat, tol: real,
                                transpose: Transposer, factorizer: Factorizer, inverter: Inverter)
    returns (r: Result<NormChannelAnalysis>, ghost lower: real, ghost target: real)
    requires W.Valid() && SolverShaped(factorizer) && InverterShaped(inverter) && IsTransposer(transpose)
    requires context.Some? ==> context.value.Valid()
    modifies W.data, if context.Some? then {context.value} else {}
    ensures df.None? && da.None? && dr.None? ==> r == Err("RuntimeError")
    ensures r.Ok? ==> r.value.excluded == Excluded(antisinkMap, W.n) && r.value.da == da && r.value.dr == dr
    ensures r.Ok? && (context.Some? || df.Some?) ==> r.value.df == df
    ensures r.Ok? && context.None? && df.None? ==> r.value.df.Some? && 0.0 <= r.value.df.value <= 1.0
    ensures r.Ok? && context.None? && df.Some? ==> df.value >= MinDamping
    ensures r.Ok? && context.Some? ==> context.value.full
    ensures r.Ok? ==> |r.value.f| == |sinks| && |r.value.h| == |sources|
    ensures context.Some? ==> context.value.Valid()
    ensures r.Ok? && context.Some? ==>
              var spl := context.value;
              && spl.Ready() && spl.boundaryIxs == Some(sinks + sources)
              && IsChannel(spl, spl.State(), spl.Current(), sources, sinks, r.value.f, r.value.h)
    ensures r.Ok? && context.None? && df.Some? ==>
              var alphaOutMap := OnNodes(antisinkMap, W.n);
              && AllBelow(sources, W.n) && AllBelow(sinks, W.n)
              && BasicChannel(W.n, W.indptr, W.indices, W.diagonalIx,
                              Masked(DfContextMask(W.n, W.indptr, W.indices, sources, sinks, alphaOutMap, df.value),
                                     Normalized(W.n, W.indptr, W.indices, W.rowWeights, old(W.data[..]))),
                              sources, sinks, factorizer, r.value.f, r.value.h)
    ensures r.Ok? && context.None? && df.None? ==>
              && AllBelow(sources, W.n) && AllBelow(sinks, W.n) && lower >= 0.0
              && target == lower + (if da.Some? then da.value else Times(dr.value, lower))
              && NewtonSearched(W, sources, sinks, OnNodes(antisinkMap, W.n), target, maxiter, tol, factorizer,
                                r.value.df.value, r.value.f, r.value.h)
  {
    lower, target := 0.0, 0.0;
    if df.None? && da.None? && dr.None? {
      return Err("RuntimeError"), lower, target;
    }
    var excluded := Excluded(antisinkMap, W.n);
    var alphaOutMap := OnNodes(antisinkMap, W.n);
    if context.Some? {
      var fh := ProcessContextSpl(sources, sinks, context.value);
      if fh.Err? {
        return Err(fh.error), lower, target;
      }
      return Ok(NormChannelAnalysis(df, da, dr, excluded, fh.value.0, fh.value.1)), lower, target;
    }
    if df.Some? {
      var fh := ProcessContextDf(W, sources, sinks, alphaOutMap, df.value, transpose, factorizer, inverter);
      if fh.Err? {
        return Err(fh.error), lower, target;
      }
      return Ok(NormChannelAnalysis(df, da, dr, excluded, fh.value.0, fh.value.1)), lower, target;
    }
    var deviation := if da.Some? then da.value else dr.value;
    var relative := da.None?;
    var found;
    found, lower, target := ProcessContextMuNewton(W, sources, sinks, alphaOutMap, deviation, relative, maxiter, tol,
                                                   transpose, factorizer, inverter);
    if found.Err? {
      return Err(found.error), lower, target;
    }
    return Ok(NormChannelAnalysis(Some(found.value.0), da, dr, excluded, found.value.1, found.value.2)), lower, target;
  }
}
