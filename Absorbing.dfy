/** Absorbing mode: random walks end at the sink nodes or are lost to
  * dissipation; F[k][i] is the probability that a walk from node k is
  * absorbed at sink i. Matrices are lists of columns, so `f[i]` is the
  * column of sink i. */
module Absorbing {
  import opened Wrappers
  import opened Csr
  import opened Dense
  import opened AdjMatrix
  import opened Laplacian
  import opened Newton
  import opened BoundaryProblem

  /** Below this absorbed mass a node counts as disconnected from the sinks. */
  const Epsilon: real := 0.0000000000000001

  /** Above this damping factor the disconnected nodes are cut out:
    * 1 - 1e-14. */
  const NearlyUndamped: real := 0.99999999999999

  /** The solutions the basic variant produces for the absorbing context:
    * column i solves L x = (column k_i of the transition matrix t), where L
    * is assembled from t with the sinks as boundary. */
  ghost function ColumnSolutions(n: nat, indptr: seq<int>, indices: seq<int>, diag: seq<int>, t: seq<real>,
                                 sinks: seq<nat>, factorize: Factorizer): (xs: seq<seq<real>>)
    requires Shaped(n, indptr, indices) && |t| == |indices|
    ensures |xs| == |sinks|
  {
    seq(|sinks|, i requires 0 <= i < |sinks| =>
      factorize(BasicOperator(n, indptr, indices, diag, t, sinks), false)(DenseCol(n, indptr, indices, t, sinks[i])))
  }

  /** The number of columns of `boundary_col_data` in the setup st: the
    * boundary columns of the basic variant, the current boundary of the
    * full-graph variant. */
  function ColumnCount(spl: SparseLaplacian, st: Setup): nat
  {
    if spl.full then (if st.ixs.Some? then |st.ixs.value| else 0) else |st.cols|
  }

  /** The node whose column `boundary_col_data[:, i]` holds in the setup st. */
  function ColumnNode(spl: SparseLaplacian, st: Setup, i: nat): nat
    requires i < ColumnCount(spl, st)
  {
    if spl.full then st.ixs.value[i] else st.cols[i]
  }

  /** The operator holds a boundary column for every sink position, and
    * every sink is a node; with no sinks there is nothing to look up. */
  ghost predicate HasCols(spl: SparseLaplacian, sinks: seq<nat>)
    reads spl, spl.w
  {
    |sinks| == 0 ||
    ((forall k :: 0 <= k < |sinks| ==> sinks[k] < spl.w.n) && |sinks| <= ColumnCount(spl, spl.State()))
  }

  /** Column `col` is the solution, in the setup st with stored values m,
    * for boundary column i, pinned at the sinks with its own sink k_i. */
  ghost predicate SolvedCol(spl: SparseLaplacian, st: Setup, m: CsrMatrix, col: seq<real>, sinks: seq<nat>, i: nat)
    requires spl.Solvable(st) && i < |sinks| && sinks[i] < spl.w.n && i < ColumnCount(spl, st)
  {
    Pinned(col, spl.SolutionOf(st, m, DenseCol(spl.w.n, spl.w.indptr, spl.w.indices, spl.transition,
                                               ColumnNode(spl, st, i)), true), sinks, sinks[i])
  }

  /** f holds the first |f| columns of the absorbing context for the sinks,
    * in the setup st with stored values m. */
  ghost predicate Evaluated(spl: SparseLaplacian, st: Setup, m: CsrMatrix, f: seq<seq<real>>, sinks: seq<nat>)
    requires spl.Solvable(st)
  {
    && |f| <= |sinks| && |f| <= ColumnCount(spl, st)
    && (|f| > 0 ==> forall k :: 0 <= k < |sinks| ==> sinks[k] < spl.w.n)
    && forall q :: 0 <= q < |f| ==> SolvedCol(spl, st, m, f[q], sinks, q)
  }

  /** One column of `evaluate_context`. */
  method SinkColumn(spl: SparseLaplacian, sinks: seq<nat>, i: nat, ghost done: seq<seq<real>>)
    returns (col: seq<real>)
    requires spl.Valid() && spl.Ready() && i < |sinks| && i < ColumnCount(spl, spl.State())
    requires forall k :: 0 <= k < |sinks| ==> sinks[k] < spl.w.n
    requires |done| == i && Evaluated(spl, spl.State(), spl.Current(), done, sinks)
    modifies spl
    ensures spl.Valid() && spl.Ready() && spl.State() == old(spl.State())
    ensures Evaluated(spl, spl.State(), spl.Current(), done + [col], sinks)
  {
    ghost var st, m := spl.State(), spl.Current();
    var c := spl.BoundaryColumn(i);
    var x := spl.Solve(c.value, true);
    assert spl.State() == st && spl.Current() == m;
    assert x == spl.SolutionOf(st, m, c.value, true);
    col := PinColumn(x, sinks, sinks[i]);
    EvaluatedExtend(spl, st, m, done, col, sinks);
  }

  lemma EvaluatedExtend(spl: SparseLaplacian, st: Setup, m: CsrMatrix, done: seq<seq<real>>, col: seq<real>,
                        sinks: seq<nat>)
    requires spl.Solvable(st) && Evaluated(spl, st, m, done, sinks)
    requires |done| < |sinks| && |done| < ColumnCount(spl, st)
    requires forall k :: 0 <= k < |sinks| ==> sinks[k] < spl.w.n
    requires SolvedCol(spl, st, m, col, sinks, |done|)
    ensures Evaluated(spl, st, m, done + [col], sinks)
  {
    assert forall q :: 0 <= q < |done| + 1 ==> SolvedCol(spl, st, m, (done + [col])[q], sinks, q);
  }

  /** `evaluate_context`: column i is the solution for boundary column i,
    * with the other sinks cleared and the entry of sink k_i set to 1. A
    * missing boundary column, or a sink outside the matrix, is an error. */
  method EvaluateContext(spl: SparseLaplacian, sinks: seq<nat>) returns (r: Result<seq<seq<real>>>)
    requires spl.Valid() && spl.Ready()
    modifies spl
    ensures spl.Valid() && spl.Ready() && spl.State() == old(spl.State())
    ensures r.Ok? <==> HasCols(spl, sinks)
    ensures r.Ok? ==> |r.value| == |sinks| && Evaluated(spl, spl.State(), spl.Current(), r.value, sinks)
  {
    var n := spl.w.n;
    ghost var st := spl.State();
    var f: seq<seq<real>> := [];
    for i := 0 to |sinks|
      invariant spl.Valid() && spl.Ready() && spl.State() == st
      invariant |f| == i && Evaluated(spl, st, spl.Current(), f, sinks)
    {
      var c := spl.BoundaryColumn(i);
      if c.Err? {
        assert i >= ColumnCount(spl, st);
        return Err(c.error);
      }
      if exists k :: 0 <= k < |sinks| && sinks[k] >= n {
        return Err("IndexError");
      }
      var col := SinkColumn(spl, sinks, i, f);
      f := f + [col];
    }
    return Ok(f);
  }

  /** `_process_context_SPL`: sets the boundary of a full-graph operator and
    * evaluates the context. The basic variant has no boundary to set. */
  method ProcessContextSpl(sinks: seq<nat>, spl: SparseLaplacian) returns (r: Result<seq<seq<real>>>)
    requires spl.Valid()
    modifies spl
    ensures spl.Valid()
    ensures !spl.full ==> r.Err?
    ensures r.Ok? ==> spl.full && spl.Ready() && spl.boundaryIxs == Some(sinks)
    ensures r.Ok? ==> |r.value| == |sinks| && Evaluated(spl, spl.State(), spl.Current(), r.value, sinks)
  {
    if !spl.full {
      return Err("AttributeError");
    }
    if exists k :: 0 <= k < |sinks| && sinks[k] >= spl.w.n {
      return Err("IndexError");
    }
    var outcome := spl.SetBoundaryIxs(sinks);
    if outcome.Err? {
      return Err(outcome.error);
    }
    r := EvaluateContext(spl, sinks);
  }

  /** Builds the basic operator from W and the mask with the sinks as
    * boundary columns (changing the values of W in place) and evaluates the
    * context. */
  method BasicContext(W: AdjacencyMatrix, mask: seq<real>, sinks: seq<nat>,
                      factorizer: Factorizer, inverter: Inverter)
    returns (f: seq<seq<real>>)
    requires W.Valid() && SolverShaped(factorizer) && InverterShaped(inverter) && |mask| == W.data.Length
    requires forall k :: 0 <= k < |sinks| ==> sinks[k] < W.n
    modifies W.data
    ensures var t := Masked(mask, Normalized(W.n, W.indptr, W.indices, W.rowWeights, old(W.data[..])));
            IsContext(f, sinks, ColumnSolutions(W.n, W.indptr, W.indices, W.diagonalIx, t, sinks, factorizer))
  {
    var spl := new SparseLaplacian(W, mask, None, Some(sinks), factorizer, inverter);
    ghost var st, m := spl.State(), spl.Current();
    SolutionsAreBasic(spl, sinks);
    var r := EvaluateContext(spl, sinks);
    assert spl.State() == st && spl.Current() == m;
    f := r.value;
    EvaluatedIsContext(spl, st, m, f, sinks);
  }

  /** The basic variant with the sinks as boundary columns solves with the
    * operator assembled from its transition values and the sinks. */
  lemma SinkOperatorSolution(spl: SparseLaplacian, sinks: seq<nat>, rhs: seq<real>)
    requires spl.Valid() && spl.Ready() && spl.Assembled() && !spl.full && |rhs| == spl.w.n
    requires spl.boundaryRows == [] && spl.boundaryCols == sinks
    ensures spl.SolutionOf(spl.State(), spl.Current(), rhs, true)
            == spl.factorize(BasicOperator(spl.w.n, spl.w.indptr, spl.w.indices, spl.w.diagonalIx,
                                           spl.transition, sinks), false)(rhs)
  {
    assert spl.boundaryRows + spl.boundaryCols == sinks;
    spl.BasicSolution(rhs, true);
  }

  /** In the basic variant with the sinks as boundary columns, the solution
    * for the column of sink i is the i-th column solution of the operator's
    * transition values. */
  lemma SolutionsAreBasic(spl: SparseLaplacian, sinks: seq<nat>)
    requires spl.Valid() && spl.Ready() && spl.Assembled() && !spl.full
    requires spl.boundaryRows == [] && spl.boundaryCols == sinks
    ensures HasCols(spl, sinks)
    ensures forall i :: 0 <= i < |sinks| ==>
              spl.SolutionOf(spl.State(), spl.Current(),
                             DenseCol(spl.w.n, spl.w.indptr, spl.w.indices, spl.transition, sinks[i]), true)
              == ColumnSolutions(spl.w.n, spl.w.indptr, spl.w.indices, spl.w.diagonalIx, spl.transition, sinks,
                                 spl.factorize)[i]
  {
    forall i | 0 <= i < |sinks|
      ensures spl.SolutionOf(spl.State(), spl.Current(),
                             DenseCol(spl.w.n, spl.w.indptr, spl.w.indices, spl.transition, sinks[i]), true)
              == ColumnSolutions(spl.w.n, spl.w.indptr, spl.w.indices, spl.w.diagonalIx, spl.transition, sinks,
                                 spl.factorize)[i]
    {
      SinkOperatorSolution(spl, sinks, DenseCol(spl.w.n, spl.w.indptr, spl.w.indices, spl.transition, sinks[i]));
    }
  }

  /** A complete evaluation of the basic variant is the context of its
    * column solutions. */
  lemma EvaluatedIsContext(spl: SparseLaplacian, st: Setup, m: CsrMatrix, f: seq<seq<real>>, sinks: seq<nat>)
    requires spl.Solvable(st) && !spl.full && st.cols == sinks
    requires |f| == |sinks| && Evaluated(spl, st, m, f, sinks)
    requires forall i :: 0 <= i < |sinks| ==>
               spl.SolutionOf(st, m, DenseCol(spl.w.n, spl.w.indptr, spl.w.indices, spl.transition, sinks[i]), true)
               == ColumnSolutions(spl.w.n, spl.w.indptr, spl.w.indices, spl.w.diagonalIx, spl.transition, sinks,
                                  spl.factorize)[i]
    ensures IsContext(f, sinks, ColumnSolutions(spl.w.n, spl.w.indptr, spl.w.indices, spl.w.diagonalIx,
                                                spl.transition, sinks, spl.factorize))
  {
    forall i | 0 <= i < |sinks|
      ensures Pinned(f[i], ColumnSolutions(spl.w.n, spl.w.indptr, spl.w.indices, spl.w.diagonalIx,
                                           spl.transition, sinks, spl.factorize)[i], sinks, sinks[i])
    {
      assert ColumnNode(spl, st, i) == sinks[i];
      assert SolvedCol(spl, st, m, f[i], sinks, i);
    }
  }

  /** The absorbing context is harmonic: at a node k outside the sinks,
    * the probability of absorption at sink i is the mean of that
    * probability over the next step, weighted by the transition row of k. */
  lemma ContextIsHarmonic(n: nat, indptr: seq<int>, indices: seq<int>, diag: seq<int>, t: seq<real>,
                          sinks: seq<nat>, factorize: Factorizer, f: seq<seq<real>>)
    requires Canonical(n, indptr, indices) && DiagonalIndex(n, indptr, indices, diag) && |t| == |indices|
    requires forall k :: 0 <= k < |sinks| ==> sinks[k] < n
    requires Solves(factorize) && Nonsingular(System(BasicOperator(n, indptr, indices, diag, t, sinks), false))
    requires IsContext(f, sinks, ColumnSolutions(n, indptr, indices, diag, t, sinks, factorize))
    ensures forall i, k :: 0 <= i < |f| && 0 <= k < n && k !in sinks ==>
              |f[i]| == n && f[i][k] == Dot(f[i], DenseRow(n, indptr, indices, t, k))
  {
    var lap := System(CsrMatrix(n, indptr, indices, Finalized(t, diag)), false);
    UncutEntries(n, indptr, indices, diag, t, false);
    forall i, k | 0 <= i < |f| && 0 <= k < n && k !in sinks
      ensures |f[i]| == n && f[i][k] == Dot(f[i], DenseRow(n, indptr, indices, t, k))
    {
      var col := DenseCol(n, indptr, indices, t, sinks[i]);
      var x := ColumnSolutions(n, indptr, indices, diag, t, sinks, factorize)[i];
      BasicCutSolution(n, indptr, indices, diag, t, sinks, factorize, col, false);
      FirstStep(lap, TransitionOf(n, indptr, indices, t, false), sinks, x, col, k);
      PinnedHarmonic(f[i], x, sinks, sinks[i], DenseRow(n, indptr, indices, t, k), k);
    }
  }

  // ---------------------------------------------------------------------
  // Nodes disconnected from the sinks

  /** `np.arange(len(x))[x < eps]`: the positions, in increasing order, of
    * the entries below eps. */
  function Below(x: seq<real>, eps: real): (ixs: seq<nat>)
    ensures forall k :: 0 <= k < |ixs| ==> ixs[k] < |x| && x[ixs[k]] < eps
    ensures forall i :: 0 <= i < |x| && x[i] < eps ==> i in ixs
    ensures forall a, b :: 0 <= a < b < |ixs| ==> ixs[a] < ixs[b]
  {
    if |x| == 0 then []
    else
      var front := Below(x[..|x| - 1], eps);
      if x[|x| - 1] < eps then front + [|x| - 1] else front
  }

  /** `boundary_col_data.sum(1)`: entry r is the sum over the columns of
    * their entry r. */
  function RowTotals(cols: seq<seq<real>>, n: nat): (v: seq<real>)
    requires forall c :: 0 <= c < |cols| ==> |cols[c]| == n
    ensures |v| == n
  {
    seq(n, r requires 0 <= r < n => Sum(seq(|cols|, c requires 0 <= c < |cols| => cols[c][r])))
  }

  /** The transition columns of the sinks. */
  function SinkColumns(n: nat, indptr: seq<int>, indices: seq<int>, t: seq<real>, sinks: seq<nat>)
    : (cols: seq<seq<real>>)
    requires Shaped(n, indptr, indices) && |t| == |indices|
    ensures |cols| == |sinks| && forall c :: 0 <= c < |sinks| ==> |cols[c]| == n
  {
    seq(|sinks|, c requires 0 <= c < |sinks| => DenseCol(n, indptr, indices, t, sinks[c]))
  }

  /** The transition values `_get_disconnected_ixs` works with: every
    * out-link damped by 0.9999 except for the nodes given their own factor. */
  ghost function ProbeTransition(n: nat, indptr: seq<int>, indices: seq<int>, rowWeights: seq<real>,
                                 data: seq<real>, alphaOutMap: map<nat, real>): (t: seq<real>)
    requires Shaped(n, indptr, indices) && |data| == |indices| && |rowWeights| == n
    ensures |t| == |indices|
  {
    Masked(DfMask(n, indptr, indices, 0.9999, alphaOutMap, 1.0, map[]),
           Normalized(n, indptr, indices, rowWeights, data))
  }

  /** What `_get_disconnected_ixs` computes for the values `data`: the
    * nodes whose total absorbed mass, in the nearly undamped walk with the
    * sinks as boundary columns, is below Epsilon. */
  ghost function Disconnected(n: nat, indptr: seq<int>, indices: seq<int>, diag: seq<int>, rowWeights: seq<real>,
                              data: seq<real>, sinks: seq<nat>, alphaOutMap: map<nat, real>, factorize: Factorizer)
    : (ixs: seq<nat>)
    requires Shaped(n, indptr, indices) && |data| == |indices| && |rowWeights| == n && SolverShaped(factorize)
    ensures forall k :: 0 <= k < |ixs| ==> ixs[k] < n
  {
    var t := ProbeTransition(n, indptr, indices, rowWeights, data, alphaOutMap);
    var x := factorize(BasicOperator(n, indptr, indices, diag, t, sinks), false)
                      (RowTotals(SinkColumns(n, indptr, indices, t, sinks), n));
    Below(x, Epsilon)
  }

  /** `_get_disconnected_ixs`: builds the nearly undamped operator on a
    * copy of W, solves for the total absorbed mass of every node and lists
    * the nodes where it is below Epsilon. An out-factor for a node outside
    * the matrix is an error. */
  method DisconnectedIxs(W: AdjacencyMatrix, sinks: seq<nat>, alphaOutMap: map<nat, real>,
                         factorizer: Factorizer, inverter: Inverter)
    returns (r: Result<seq<nat>>)
    requires W.Valid() && SolverShaped(factorizer) && InverterShaped(inverter)
    requires forall k :: 0 <= k < |sinks| ==> sinks[k] < W.n
    ensures r.Ok? <==> forall i :: i in alphaOutMap ==> i < W.n
    ensures r.Ok? ==> r.value == Disconnected(W.n, W.indptr, W.indices, W.diagonalIx, W.rowWeights, W.data[..],
                                              sinks, alphaOutMap, factorizer)
  {
    var mask := W.GetDfMask(0.9999, alphaOutMap, 1.0, map[]);
    if mask.Err? {
      return Err(mask.error);
    }
    var copy := W.Copy();
    var spl := new SparseLaplacian(copy, mask.value, None, Some(sinks), factorizer, inverter);
    ghost var t := ProbeTransition(W.n, W.indptr, W.indices, W.rowWeights, W.data[..], alphaOutMap);
    assert spl.transition == t;
    assert spl.colData.value == SinkColumns(W.n, W.indptr, W.indices, t, sinks);
    var totals := RowTotals(spl.colData.value, copy.n);
    SinkOperatorSolution(spl, sinks, totals);
    var x := spl.Solve(totals, true);
    return Ok(Below(x, Epsilon));
  }

  /** The masks `_process_context_df` applies for the disconnected nodes
    * `disc`: an in-factor map sending each of them to 0, and the out-factor
    * map updated with it. */
  function CutMaps(alphaOutMap: map<nat, real>, disc: seq<nat>): (maps: (map<nat, real>, map<nat, real>))
    ensures forall i :: i in maps.1 <==> i in disc
    ensures forall i :: i in disc ==> Factor(1.0, maps.1, i) == 0.0
    ensures forall i, df :: i in disc ==> Factor(df, maps.0, i) == 0.0
    ensures forall i, df :: i !in disc ==> Factor(df, maps.0, i) == Factor(df, alphaOutMap, i)
    ensures forall i :: i in maps.0 <==> i in alphaOutMap || i in disc
  {
    var inMap := map i | i in disc :: 0.0;
    (alphaOutMap + inMap, inMap)
  }

  /** A disconnected node keeps no link: every stored entry in its row or
    * its column is masked to 0. */
  lemma CutMaskIsolates(n: nat, indptr: seq<int>, indices: seq<int>, df: real, alphaOutMap: map<nat, real>,
                        disc: seq<nat>, p: nat)
    requires Shaped(n, indptr, indices) && p < |indices|
    requires indices[p] in disc || RowOf(n, indptr, p) in disc
    ensures var (outMap, inMap) := CutMaps(alphaOutMap, disc);
            DfMask(n, indptr, indices, df, outMap, 1.0, inMap)[p] == 0.0
  {
    var (outMap, inMap) := CutMaps(alphaOutMap, disc);
    if indices[p] in disc {
      assert Factor(1.0, inMap, indices[p]) == 0.0;
    } else {
      assert Factor(df, outMap, RowOf(n, indptr, p)) == 0.0;
    }
  }

  /** `_process_context_df`: the context of the basic operator damping every
    * out-link by df; above 1 - 1e-14 the nodes disconnected from the sinks
    * are cut out first, by giving them out- and in-factor 0. */
  method ProcessContextDf(W: AdjacencyMatrix, sinks: seq<nat>, alphaOutMap: map<nat, real>, df: real,
                          factorizer: Factorizer, inverter: Inverter)
    returns (r: Result<seq<seq<real>>>)
    requires W.Valid() && SolverShaped(factorizer) && InverterShaped(inverter)
    requires forall k :: 0 <= k < |sinks| ==> sinks[k] < W.n
    modifies W.data
    ensures r.Ok? <==> forall i :: i in alphaOutMap ==> i < W.n
    ensures r.Ok? ==>
              var disc := if df <= NearlyUndamped then []
                          else Disconnected(W.n, W.indptr, W.indices, W.diagonalIx, W.rowWeights, old(W.data[..]),
                                            sinks, alphaOutMap, factorizer);
              var (outMap, inMap) := CutMaps(alphaOutMap, disc);
              var t := Masked(DfMask(W.n, W.indptr, W.indices, df, outMap, 1.0, inMap),
                              Normalized(W.n, W.indptr, W.indices, W.rowWeights, old(W.data[..])));
              IsContext(r.value, sinks, ColumnSolutions(W.n, W.indptr, W.indices, W.diagonalIx, t, sinks, factorizer))
  {
    var disc: seq<nat> := [];
    if df > NearlyUndamped {
      var found := DisconnectedIxs(W, sinks, alphaOutMap, factorizer, inverter);
      if found.Err? {
        return Err(found.error);
      }
      disc := found.value;
    }
    var (outMap, inMap) := CutMaps(alphaOutMap, disc);
    var mask := W.GetDfMask(df, outMap, 1.0, inMap);
    if mask.Err? {
      return Err(mask.error);
    }
    var f := BasicContext(W, mask.value, sinks, factorizer, inverter);
    return Ok(f);
  }

  // ---------------------------------------------------------------------
  // Damping chosen by a target absorption probability

  /** The absorption objective: the damping data with the sinks as boundary,
    * the number of connected transient nodes and the target. */
  datatype AbsorptionProblem = AbsorptionProblem(d: Damping, connected: int, target: real)

  ghost predicate WellPosed(p: AbsorptionProblem)
  {
    Damps(p.d) && p.connected != 0
  }

  /** `numpy.dot(g, boundary_col_data)`: entry i is the product of g with
    * the transition column of sink i. */
  function ColumnDot(d: Damping, t: seq<real>, g: seq<real>): (v: seq<real>)
    requires Damps(d) && |t| == |d.indices| && |g| == d.n
    ensures |v| == |d.boundary|
  {
    seq(|d.boundary|, i requires 0 <= i < |d.boundary| =>
      Dot(g, DenseCol(d.n, d.indptr, d.indices, t, d.boundary[i])))
  }

  /** `_root_func(x0)`: the mean, over the connected transient nodes, of the
    * probability of being absorbed, minus the target, with its derivative
    * in x0; the payload is the damping the operator was built with. */
  function AbsorptionRoot(p: AbsorptionProblem, x0: real): (real, real, real)
    requires WellPosed(p)
  {
    var d := p.d;
    var t := DampedTransition(d, x0);
    var op := DampedOperator(d, x0);
    var g := d.factorize(op, true)(Interior(d.n, d.boundary));
    var gsq := d.factorize(op, true)(g);
    var m := p.connected as real;
    (Sum(ColumnDot(d, t, g)) / m - p.target,
     if x0 == 0.0 then 0.0 else Sum(ColumnDot(d, t, gsq)) / m / x0,
     x0)
  }

  function RootOf(p: AbsorptionProblem): Objective<real>
    requires WellPosed(p)
  {
    x0 => AbsorptionRoot(p, x0)
  }

  /** The objective measures the context: its value plus the target is the
    * sum, over the sinks, of the column sums of F outside the sinks,
    * divided by the number of connected transient nodes, where F is the
    * absorbing context at the same damping. */
  lemma ObjectiveIsMeanAbsorption(p: AbsorptionProblem, x0: real, f: seq<seq<real>>)
    requires WellPosed(p) && Solves(p.d.factorize)
    requires Nonsingular(System(DampedOperator(p.d, x0), true)) && Nonsingular(System(DampedOperator(p.d, x0), false))
    requires IsContext(f, p.d.boundary, ColumnSolutions(p.d.n, p.d.indptr, p.d.indices, p.d.diag,
                                                        DampedTransition(p.d, x0), p.d.boundary, p.d.factorize))
    ensures forall i :: 0 <= i < |f| ==> |f[i]| == p.d.n
    ensures AbsorptionRoot(p, x0).0 + p.target
            == Sum(MatVec(f, Interior(p.d.n, p.d.boundary)))
               / (p.connected as real)
  {
    var d := p.d;
    var t := DampedTransition(d, x0);
    var op := DampedOperator(d, x0);
    var v := Interior(d.n, d.boundary);
    var g := d.factorize(op, true)(v);
    var xs := ColumnSolutions(d.n, d.indptr, d.indices, d.diag, t, d.boundary, d.factorize);
    forall i | 0 <= i < |f|
      ensures |f[i]| == d.n && Dot(f[i], v) == ColumnDot(d, t, g)[i]
    {
      var col := DenseCol(d.n, d.indptr, d.indices, t, d.boundary[i]);
      assert xs[i] == d.factorize(op, false)(col);
      DotAgreeing(f[i], xs[i], v);
      AdjointSolutions(d.factorize, op, v, col);
      DotSymmetric(xs[i], v);
      assert Dot(g, col) == Dot(v, xs[i]);
    }
    assert MatVec(f, v) == ColumnDot(d, t, g);
  }

  /** `n` of `_process_context_mu_newton`: the nodes neither disconnected
    * from the sinks nor sinks themselves. */
  function ConnectedCount(nodes: nat, disc: seq<nat>, sinks: seq<nat>): int
  {
    nodes - |disc| - |sinks|
  }

  /** The objective data of `_process_context_mu_newton`, where `disc` are
    * the disconnected nodes: the dummy mask damps every out-link by 0.99
    * except for the nodes given their own factor. */
  ghost function NewtonProblem(W: AdjacencyMatrix, sinks: seq<nat>, alphaOutMap: map<nat, real>, target: real,
                               disc: seq<nat>, factorizer: Factorizer): AbsorptionProblem
    reads W, W.data
    requires W.Valid()
  {
    var mask := DfMask(W.n, W.indptr, W.indices, 0.99, alphaOutMap, 1.0, map[]);
    AbsorptionProblem(Damping(W.n, W.indptr, W.indices, W.diagonalIx,
                              Normalized(W.n, W.indptr, W.indices, W.rowWeights, W.data[..]),
                              mask, if |mask| > 0 then Max(mask) else 0.0, sinks, factorizer),
                      ConnectedCount(|W.nodes|, disc, sinks), target)
  }

  /** `_process_context_mu_newton`: finds the damping whose mean absorption
    * probability is the target by the bracketed Newton search on [0, 1]
    * from 0.85, and returns it with the number of connected transient nodes
    * and the context of the last operator the search built. W itself is
    * not changed. */
  method ProcessContextMuNewton(W: AdjacencyMatrix, sinks: seq<nat>, alphaOutMap: map<nat, real>, target: real,
                                maxiter: nat, tol: real, factorizer: Factorizer, inverter: Inverter)
    returns (r: Result<(real, int, seq<seq<real>>)>)
    requires W.Valid() && SolverShaped(factorizer) && InverterShaped(inverter)
    requires forall k :: 0 <= k < |sinks| ==> sinks[k] < W.n
    ensures !(0.0 <= target <= 1.0) ==> r.Err?
    ensures r.Ok? ==> 0.0 <= r.value.0 <= 1.0
    ensures r.Ok? ==>
              var disc := Disconnected(W.n, W.indptr, W.indices, W.diagonalIx, W.rowWeights, W.data[..],
                                       sinks, alphaOutMap, factorizer);
              var p := NewtonProblem(W, sinks, alphaOutMap, target, disc, factorizer);
              && WellPosed(p) && maxiter > 0
              && r.value.1 == ConnectedCount(|W.nodes|, disc, sinks)
              && var o := Run(RootOf(p), 0.85, 0.0, 1.0, 0, maxiter, tol);
              && r.value.0 == o.x
              && IsContext(r.value.2, sinks, ColumnSolutions(W.n, W.indptr, W.indices, W.diagonalIx,
                                                             DampedTransition(p.d, o.args), sinks, factorizer))
  {
    if !(0.0 <= target <= 1.0) {
      return Err("RuntimeError");
    }
    var disc := DisconnectedIxs(W, sinks, alphaOutMap, factorizer, inverter);
    if disc.Err? {
      return Err(disc.error);
    }
    var count := ConnectedCount(|W.nodes|, disc.value, sinks);
    var mask := W.GetDfMask(0.99, alphaOutMap, 1.0, map[]);
    if |mask.value| == 0 {
      return Err("ValueError");
    }
    var top := Max(mask.value);
    if top == 0.0 || count == 0 {
      return Err("ZeroDivisionError");
    }
    var base := Normalized(W.n, W.indptr, W.indices, W.rowWeights, W.data[..]);
    var p := AbsorptionProblem(Damping(W.n, W.indptr, W.indices, W.diagonalIx, base, mask.value, top, sinks,
                                       factorizer), count, target);
    assert p == NewtonProblem(W, sinks, alphaOutMap, target, disc.value, factorizer);
    var found := SearchContext(W, p, maxiter, tol, inverter);
    if found.Err? {
      return Err(found.error);
    }
    return Ok((found.value.0, count, found.value.1));
  }

  /** The search of `_process_context_mu_newton` on [0, 1] from 0.85, and
    * the context at the damping of its last evaluation, built on a copy of
    * W. */
  method SearchContext(W: AdjacencyMatrix, p: AbsorptionProblem, maxiter: nat, tol: real, inverter: Inverter)
    returns (r: Result<(real, seq<seq<real>>)>)
    requires W.Valid() && WellPosed(p) && InverterShaped(inverter)
    requires p.d.n == W.n && p.d.indptr == W.indptr && p.d.indices == W.indices && p.d.diag == W.diagonalIx
    requires p.d.base == Normalized(W.n, W.indptr, W.indices, W.rowWeights, W.data[..])
    ensures maxiter == 0 <==> r.Err?
    ensures r.Ok? ==>
              var o := Run(RootOf(p), 0.85, 0.0, 1.0, 0, maxiter, tol);
              && r.value.0 == o.x && 0.0 <= o.x <= 1.0
              && IsContext(r.value.1, p.d.boundary, ColumnSolutions(W.n, W.indptr, W.indices, W.diagonalIx,
                                                                    DampedTransition(p.d, o.args), p.d.boundary,
                                                                    p.d.factorize))
  {
    var found := RootfindNewton(RootOf(p), 0.85, 0.0, 1.0, maxiter, tol);
    if found.Err? {
      return Err(found.error);
    }
    RunStaysInBracket(RootOf(p), 0.85, 0.0, 1.0, 0, maxiter, tol);
    var x0 := found.value.args;
    var copy := W.Copy();
    var f := BasicContext(copy, Rescaled(p.d.mask, p.d.top, x0), p.d.boundary, p.d.factorize, inverter);
    return Ok((found.value.x, f));
  }

  // ---------------------------------------------------------------------
  // The analysis object

  /** What `AbsorbingAnalysis` keeps: the damping factor (found by the
    * search when only an absorption probability was given), the target
    * probability, the number of connected transient nodes when the search
    * ran, the excluded nodes and the context F. */
  datatype AbsorbingAnalysis = AbsorbingAnalysis(df: Option<real>, ap: Option<real>, connected: Option<int>,
                                                 excluded: set<nat>, f: seq<seq<real>>)

  /** `AbsorbingAnalysis.__init__` with `_solve_boundary_problem`: without a
    * dissipation specification it fails; a given operator is reused; else a
    * fixed df is applied, or without one the damping is found from the
    * absorption probability ap. */
  method NewAbsorbingAnalysis(W: AdjacencyMatrix, sinks: seq<nat>, antisinkMap: map<nat, real>,
                              df: Option<real>, ap: Option<real>, context: Option<SparseLaplacian>,
                              maxiter: nat, tol: real, factorizer: Factorizer, inverter: Inverter)
    returns (r: Result<AbsorbingAnalysis>)
    requires W.Valid() && SolverShaped(factorizer) && InverterShaped(inverter)
    requires forall k :: 0 <= k < |sinks| ==> sinks[k] < W.n
    requires context.Some? ==> context.value.Valid()
    modifies W.data, if context.Some? then {context.value} else {}
    ensures df.None? && ap.None? ==> r.Err?
    ensures r.Ok? ==> r.value.excluded == Excluded(antisinkMap, W.n) && r.value.ap == ap
    ensures context.None? && df.Some? ==> r.Ok?
    ensures r.Ok? && (context.Some? || df.Some?) ==> r.value.df == df && r.value.connected.None?
    ensures r.Ok? && context.None? && df.None? ==>
              r.value.df.Some? && 0.0 <= r.value.df.value <= 1.0 && r.value.connected.Some?
    ensures r.Ok? ==> |r.value.f| == |sinks|
    ensures r.Ok? && context.Some? ==> context.value.full
    ensures context.Some? ==> context.value.Valid()
    ensures r.Ok? && context.Some? ==>
              var spl := context.value;
              && spl.Ready() && spl.boundaryIxs == Some(sinks)
              && Evaluated(spl, spl.State(), spl.Current(), r.value.f, sinks)
    ensures r.Ok? && context.None? && df.Some? ==>
              var alphaOutMap := OnNodes(antisinkMap, W.n);
              var disc := if df.value <= NearlyUndamped then []
                          else Disconnected(W.n, W.indptr, W.indices, W.diagonalIx, W.rowWeights, old(W.data[..]),
                                            sinks, alphaOutMap, factorizer);
              var (outMap, inMap) := CutMaps(alphaOutMap, disc);
              var t := Masked(DfMask(W.n, W.indptr, W.indices, df.value, outMap, 1.0, inMap),
                              Normalized(W.n, W.indptr, W.indices, W.rowWeights, old(W.data[..])));
              IsContext(r.value.f, sinks, ColumnSolutions(W.n, W.indptr, W.indices, W.diagonalIx, t, sinks, factorizer))
    ensures r.Ok? && context.None? && df.None? ==>
              var alphaOutMap := OnNodes(antisinkMap, W.n);
              var disc := Disconnected(W.n, W.indptr, W.indices, W.diagonalIx, W.rowWeights, W.data[..],
                                       sinks, alphaOutMap, factorizer);
              var p := NewtonProblem(W, sinks, alphaOutMap, ap.value, disc, factorizer);
              && WellPosed(p) && maxiter > 0
              && r.value.connected == Some(ConnectedCount(|W.nodes|, disc, sinks))
              && var o := Run(RootOf(p), 0.85, 0.0, 1.0, 0, maxiter, tol);
              && r.value.df == Some(o.x)
              && IsContext(r.value.f, sinks, ColumnSolutions(W.n, W.indptr, W.indices, W.diagonalIx,
                                                             DampedTransition(p.d, o.args), sinks, factorizer))
  {
    if df.None? && ap.None? {
      return Err("RuntimeError");
    }
    var excluded := Excluded(antisinkMap, W.n);
    var alphaOutMap := OnNodes(antisinkMap, W.n);
    if context.Some? {
      var f := ProcessContextSpl(sinks, context.value);
      if f.Err? {
        return Err(f.error);
      }
      return Ok(AbsorbingAnalysis(df, ap, None, excluded, f.value));
    }
    if df.None? {
      var found := ProcessContextMuNewton(W, sinks, alphaOutMap, ap.value, maxiter, tol, factorizer, inverter);
      if found.Err? {
        return Err(found.error);
      }
      return Ok(AbsorbingAnalysis(Some(found.value.0), ap, Some(found.value.1), excluded, found.value.2));
    }
    var f := ProcessContextDf(W, sinks, alphaOutMap, df.value, factorizer, inverter);
    return Ok(AbsorbingAnalysis(df, ap, None, excluded, f.value));
  }
}
