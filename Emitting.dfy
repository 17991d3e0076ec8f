/** Emitting mode: random walks start at the source nodes and are absorbed
  * by dissipation; H[i][j] is the expected number of visits to node i by
  * walks from source j. Matrices are lists of columns, so `h[j]` is the
  * column of source j. */
module Emitting {
  import opened Wrappers
  import opened Csr
  import opened Dense
  import opened AdjMatrix
  import opened Laplacian
  import opened Newton
  import opened BoundaryProblem

  /** The largest accepted damping factor: 1 - 1e-3. */
  const MaxDamping: real := 0.999

  /** The solutions the basic variant produces for the emitting context:
    * column j solves L^T x = (row s_j of the transition matrix t), where L
    * is assembled from t with the sources as boundary. */
  ghost function RowSolutions(n: nat, indptr: seq<int>, indices: seq<int>, diag: seq<int>, t: seq<real>,
                                sources: seq<nat>, factorize: Factorizer): (xs: seq<seq<real>>)
    requires Shaped(n, indptr, indices) && |t| == |indices|
    requires forall k :: 0 <= k < |sources| ==> sources[k] < n
    ensures |xs| == |sources|
  {
    seq(|sources|, j requires 0 <= j < |sources| =>
      factorize(BasicOperator(n, indptr, indices, diag, t, sources), true)(DenseRow(n, indptr, indices, t, sources[j])))
  }

  ghost predicate HasRows(spl: SparseLaplacian, sources: seq<nat>)
    reads spl, spl.w
  {
    forall k :: 0 <= k < |sources| ==> sources[k] < spl.w.n && (spl.full || sources[k] in spl.boundaryRows)
  }

  /** Column `col` is the solution, in the setup st with stored values m,
    * for the row of the transition matrix at s, pinned at the sources. */
  ghost predicate SolvedRow(spl: SparseLaplacian, st: Setup, m: CsrMatrix, col: seq<real>, sources: seq<nat>, s: nat)
    requires spl.Solvable(st) && s < spl.w.n
  {
    Pinned(col, spl.SolutionOf(st, m, DenseRow(spl.w.n, spl.w.indptr, spl.w.indices, spl.transition, s), false),
           sources, s)
  }

  /** h holds the first |h| columns of the emitting context for the
    * sources, in the setup st with stored values m. */
  ghost predicate Evaluated(spl: SparseLaplacian, st: Setup, m: CsrMatrix, h: seq<seq<real>>, sources: seq<nat>)
    requires spl.Solvable(st)
  {
    && |h| <= |sources|
    && (|h| > 0 ==> forall k :: 0 <= k < |sources| ==> sources[k] < spl.w.n)
    && forall q :: 0 <= q < |h| ==>
         && sources[q] < spl.w.n && (spl.full || sources[q] in st.rows)
         && SolvedRow(spl, st, m, h[q], sources, sources[q])
  }

  lemma EvaluatedExtend(spl: SparseLaplacian, st: Setup, m: CsrMatrix, done: seq<seq<real>>, col: seq<real>,
                        sources: seq<nat>)
    requires spl.Solvable(st) && Evaluated(spl, st, m, done, sources) && |done| < |sources|
    requires forall k :: 0 <= k < |sources| ==> sources[k] < spl.w.n
    requires spl.full || sources[|done|] in st.rows
    requires SolvedRow(spl, st, m, col, sources, sources[|done|])
    ensures Evaluated(spl, st, m, done + [col], sources)
  {
    assert forall q :: 0 <= q < |done| + 1 ==> SolvedRow(spl, st, m, (done + [col])[q], sources, sources[q]);
  }

  /** One column of `evaluate_context`. */
  method RowColumn(spl: SparseLaplacian, sources: seq<nat>, j: nat, ghost done: seq<seq<real>>)
    returns (col: seq<real>)
    requires spl.Valid() && spl.Ready() && j < |sources| && (spl.full || sources[j] in spl.boundaryRows)
    requires forall k :: 0 <= k < |sources| ==> sources[k] < spl.w.n
    requires |done| == j && Evaluated(spl, spl.State(), spl.Current(), done, sources)
    modifies spl
    ensures spl.Valid() && spl.Ready() && spl.State() == old(spl.State())
    ensures Evaluated(spl, spl.State(), spl.Current(), done + [col], sources)
  {
    ghost var st, m := spl.State(), spl.Current();
    var s := sources[j];
    var row := spl.GetBoundaryRow(s);
    var x := spl.Solve(row.value, false);
    assert spl.State() == st && spl.Current() == m;
    assert x == spl.SolutionOf(st, m, row.value, false);
    col := PinColumn(x, sources, s);
    EvaluatedExtend(spl, st, m, done, col, sources);
  }

  /** `evaluate_context`: column j is the solution for the boundary row of
    * source j, with the other sources cleared and its own entry 1. An index
    * the operator has no row for, or outside the matrix, is an error. */
  method EvaluateContext(spl: SparseLaplacian, sources: seq<nat>) returns (r: Result<seq<seq<real>>>)
    requires spl.Valid() && spl.Ready()
    modifies spl
    ensures spl.Valid() && spl.Ready() && spl.State() == old(spl.State())
    ensures r.Ok? <==> HasRows(spl, sources)
    ensures r.Ok? ==> |r.value| == |sources| && Evaluated(spl, spl.State(), spl.Current(), r.value, sources)
  {
    var n := spl.w.n;
    ghost var st := spl.State();
    var h: seq<seq<real>> := [];
    for j := 0 to |sources|
      invariant spl.Valid() && spl.Ready() && spl.State() == st
      invariant |h| == j && Evaluated(spl, st, spl.Current(), h, sources)
    {
      var s := sources[j];
      var row := spl.GetBoundaryRow(s);
      if row.Err? {
        return Err(row.error);
      }
      if exists k :: 0 <= k < |sources| && sources[k] >= n {
        return Err("IndexError");
      }
      var col := RowColumn(spl, sources, j, h);
      h := h + [col];
    }
    return Ok(h);
  }

  /** `_process_context_SPL`: sets the boundary of a full-graph operator and
    * evaluates the context. The basic variant has no boundary to set. */
  method ProcessContextSpl(sources: seq<nat>, spl: SparseLaplacian) returns (r: Result<seq<seq<real>>>)
    requires spl.Valid()
    modifies spl
    ensures spl.Valid()
    ensures !spl.full ==> r.Err?
    ensures r.Ok? ==> spl.full && spl.Ready() && spl.boundaryIxs == Some(sources)
    ensures r.Ok? ==> |r.value| == |sources| && Evaluated(spl, spl.State(), spl.Current(), r.value, sources)
  {
    if !spl.full {
      return Err("AttributeError");
    }
    if exists k :: 0 <= k < |sources| && sources[k] >= spl.w.n {
      return Err("IndexError");
    }
    var outcome := spl.SetBoundaryIxs(sources);
    if outcome.Err? {
      return Err(outcome.error);
    }
    r := EvaluateContext(spl, sources);
  }

  /** Builds the basic operator from W and the mask with the sources as
    * boundary rows (changing the values of W in place) and evaluates the
    * context. */
  method BasicContext(W: AdjacencyMatrix, mask: seq<real>, sources: seq<nat>,
                      factorizer: Factorizer, inverter: Inverter)
    returns (h: seq<seq<real>>)
    requires W.Valid() && SolverShaped(factorizer) && InverterShaped(inverter) && |mask| == W.data.Length
    requires forall k :: 0 <= k < |sources| ==> sources[k] < W.n
    modifies W.data
    ensures var t := Masked(mask, Normalized(W.n, W.indptr, W.indices, W.rowWeights, old(W.data[..])));
            IsContext(h, sources, RowSolutions(W.n, W.indptr, W.indices, W.diagonalIx, t, sources, factorizer))
  {
    var spl := new SparseLaplacian(W, mask, Some(sources), None, factorizer, inverter);
    ghost var st, m := spl.State(), spl.Current();
    SolutionsAreBasic(spl, sources);
    assert HasRows(spl, sources);
    var r := EvaluateContext(spl, sources);
    assert spl.State() == st && spl.Current() == m;
    h := r.value;
    EvaluatedIsContext(spl, st, m, h, sources);
  }

  /** In the basic variant with the sources as boundary rows, the solution
    * for the row of source j is the j-th row solution of the operator's
    * transition values. */
  lemma SolutionsAreBasic(spl: SparseLaplacian, sources: seq<nat>)
    requires spl.Valid() && spl.Ready() && spl.Assembled() && !spl.full
    requires spl.boundaryRows == sources && spl.boundaryCols == []
    ensures HasRows(spl, sources)
    ensures forall j :: 0 <= j < |sources| ==>
              spl.SolutionOf(spl.State(), spl.Current(),
                             DenseRow(spl.w.n, spl.w.indptr, spl.w.indices, spl.transition, sources[j]), false)
              == RowSolutions(spl.w.n, spl.w.indptr, spl.w.indices, spl.w.diagonalIx, spl.transition, sources,
                              spl.factorize)[j]
  {
    assert spl.boundaryRows + spl.boundaryCols == sources;
    forall j | 0 <= j < |sources|
      ensures spl.SolutionOf(spl.State(), spl.Current(),
                             DenseRow(spl.w.n, spl.w.indptr, spl.w.indices, spl.transition, sources[j]), false)
              == RowSolutions(spl.w.n, spl.w.indptr, spl.w.indices, spl.w.diagonalIx, spl.transition, sources,
                              spl.factorize)[j]
    {
      spl.BasicSolution(DenseRow(spl.w.n, spl.w.indptr, spl.w.indices, spl.transition, sources[j]), false);
    }
  }

  /** A complete evaluation of the basic variant is the context of its row
    * solutions. */
  lemma EvaluatedIsContext(spl: SparseLaplacian, st: Setup, m: CsrMatrix, h: seq<seq<real>>, sources: seq<nat>)
    requires spl.Solvable(st) && |h| == |sources| && Evaluated(spl, st, m, h, sources)
    requires forall j :: 0 <= j < |sources| ==>
               spl.SolutionOf(st, m, DenseRow(spl.w.n, spl.w.indptr, spl.w.indices, spl.transition, sources[j]), false)
               == RowSolutions(spl.w.n, spl.w.indptr, spl.w.indices, spl.w.diagonalIx, spl.transition, sources,
                               spl.factorize)[j]
    ensures IsContext(h, sources, RowSolutions(spl.w.n, spl.w.indptr, spl.w.indices, spl.w.diagonalIx,
                                               spl.transition, sources, spl.factorize))
  {
    forall j | 0 <= j < |sources|
      ensures Pinned(h[j], RowSolutions(spl.w.n, spl.w.indptr, spl.w.indices, spl.w.diagonalIx,
                                        spl.transition, sources, spl.factorize)[j], sources, sources[j])
    {
      assert SolvedRow(spl, st, m, h[j], sources, sources[j]);
    }
  }

  /** The emitting context counts visits: at a node i outside the sources,
    * the expected visits of the walks from source j are the visits to every
    * node k times the probability P[k, i] of stepping from k to i. */
  lemma ContextIsHarmonic(n: nat, indptr: seq<int>, indices: seq<int>, diag: seq<int>, t: seq<real>,
                          sources: seq<nat>, factorize: Factorizer, h: seq<seq<real>>)
    requires Canonical(n, indptr, indices) && DiagonalIndex(n, indptr, indices, diag) && |t| == |indices|
    requires forall k :: 0 <= k < |sources| ==> sources[k] < n
    requires Solves(factorize) && Nonsingular(System(BasicOperator(n, indptr, indices, diag, t, sources), true))
    requires IsContext(h, sources, RowSolutions(n, indptr, indices, diag, t, sources, factorize))
    ensures forall j, i :: 0 <= j < |h| && 0 <= i < n && i !in sources ==>
              |h[j]| == n && h[j][i] == Dot(h[j], DenseCol(n, indptr, indices, t, i))
  {
    var lap := System(CsrMatrix(n, indptr, indices, Finalized(t, diag)), true);
    UncutEntries(n, indptr, indices, diag, t, true);
    forall j, i | 0 <= j < |h| && 0 <= i < n && i !in sources
      ensures |h[j]| == n && h[j][i] == Dot(h[j], DenseCol(n, indptr, indices, t, i))
    {
      var row := DenseRow(n, indptr, indices, t, sources[j]);
      var x := RowSolutions(n, indptr, indices, diag, t, sources, factorize)[j];
      BasicCutSolution(n, indptr, indices, diag, t, sources, factorize, row, true);
      FirstStep(lap, TransitionOf(n, indptr, indices, t, true), sources, x, row, i);
      PinnedHarmonic(h[j], x, sources, sources[j], DenseCol(n, indptr, indices, t, i), i);
    }
  }

  /** `_process_context_df`: with a fixed damping factor, the context of
    * the basic operator whose mask damps every out-link by df, except for
    * the nodes given their own factor. A damping factor above 1 - 1e-3 is
    * rejected. */
  method ProcessContextDf(W: AdjacencyMatrix, sources: seq<nat>, alphaOutMap: map<nat, real>, df: real,
                          factorizer: Factorizer, inverter: Inverter)
    returns (r: Result<seq<seq<real>>>)
    requires W.Valid() && SolverShaped(factorizer) && InverterShaped(inverter)
    requires forall k :: 0 <= k < |sources| ==> sources[k] < W.n
    modifies W.data
    ensures df > MaxDamping ==> r.Err?
    ensures r.Ok? <==> df <= MaxDamping && forall i :: i in alphaOutMap ==> i < W.n
    ensures r.Ok? ==>
              var t := Masked(DfMask(W.n, W.indptr, W.indices, df, alphaOutMap, 1.0, map[]),
                              Normalized(W.n, W.indptr, W.indices, W.rowWeights, old(W.data[..])));
              IsContext(r.value, sources, RowSolutions(W.n, W.indptr, W.indices, W.diagonalIx, t, sources, factorizer))
  {
    if df > MaxDamping {
      return Err("RuntimeError");
    }
    var mask := W.GetDfMask(df, alphaOutMap, 1.0, map[]);
    if mask.Err? {
      return Err(mask.error);
    }
    var h := BasicContext(W, mask.value, sources, factorizer, inverter);
    return Ok(h);
  }

  // ---------------------------------------------------------------------
  // Damping chosen by a target path length

  /** The path-length objective: the damping data with the sources as
    * boundary, and the target. */
  datatype PathProblem = PathProblem(d: Damping, target: real)

  ghost predicate WellPosed(p: PathProblem)
  {
    Damps(p.d) && |p.d.boundary| > 0
  }

  /** `numpy.dot(boundary_row_data, g)`: entry k is the product of the
    * transition row of source k with g. */
  function BoundaryDot(d: Damping, t: seq<real>, g: seq<real>): (v: seq<real>)
    requires Damps(d) && |t| == |d.indices| && |g| == d.n
    ensures |v| == |d.boundary|
  {
    seq(|d.boundary|, k requires 0 <= k < |d.boundary| =>
      Dot(DenseRow(d.n, d.indptr, d.indices, t, d.boundary[k]), g))
  }

  /** `_root_func(x0)`: the mean over the sources of the visits outside the
    * sources, minus the target, with its derivative in x0; the payload is
    * the damping the operator was built with. */
  function PathLengthRoot(p: PathProblem, x0: real): (real, real, real)
    requires WellPosed(p)
  {
    var d := p.d;
    var t := DampedTransition(d, x0);
    var op := DampedOperator(d, x0);
    var g := d.factorize(op, false)(Interior(d.n, d.boundary));
    var gsq := d.factorize(op, false)(g);
    var m := |d.boundary| as real;
    (Sum(BoundaryDot(d, t, g)) / m - p.target,
     if x0 == 0.0 then 0.0 else Sum(BoundaryDot(d, t, gsq)) / m / x0,
     x0)
  }

  function RootOf(p: PathProblem): Objective<real>
    requires WellPosed(p)
  {
    x0 => PathLengthRoot(p, x0)
  }

  /** The objective measures the context: its value plus the target is the
    * mean, over the sources, of the column sums of H outside the sources,
    * where H is the emitting context at the same damping. */
  lemma ObjectiveIsMeanVisits(p: PathProblem, x0: real, h: seq<seq<real>>)
    requires WellPosed(p) && Solves(p.d.factorize)
    requires Nonsingular(System(DampedOperator(p.d, x0), true)) && Nonsingular(System(DampedOperator(p.d, x0), false))
    requires IsContext(h, p.d.boundary, RowSolutions(p.d.n, p.d.indptr, p.d.indices, p.d.diag,
                                                     DampedTransition(p.d, x0), p.d.boundary, p.d.factorize))
    ensures forall j :: 0 <= j < |h| ==> |h[j]| == p.d.n
    ensures PathLengthRoot(p, x0).0 + p.target
            == Sum(MatVec(h, Interior(p.d.n, p.d.boundary)))
               / (|p.d.boundary| as real)
  {
    var d := p.d;
    var op := DampedOperator(d, x0);
    var v := Interior(d.n, d.boundary);
    var t := DampedTransition(d, x0);
    var g := d.factorize(op, false)(v);
    forall j | 0 <= j < |h|
      ensures |h[j]| == d.n && Dot(h[j], v) == BoundaryDot(d, t, g)[j]
    {
      var row := DenseRow(d.n, d.indptr, d.indices, t, d.boundary[j]);
      var xs := RowSolutions(d.n, d.indptr, d.indices, d.diag, t, d.boundary, d.factorize);
      assert xs[j] == d.factorize(op, true)(row);
      DotAgreeing(h[j], xs[j], v);
      AdjointSolutions(d.factorize, op, row, v);
    }
    assert MatVec(h, v) == BoundaryDot(d, t, g);
  }

  /** The objective data of `_process_context_mu_newton`: the dummy mask
    * damps every out-link by 0.85 except for the nodes given their own
    * factor, and a target above the number of nodes is lowered to it. */
  ghost function NewtonProblem(W: AdjacencyMatrix, sources: seq<nat>, alphaOutMap: map<nat, real>, target: real,
                               factorizer: Factorizer): PathProblem
    reads W, W.data
    requires W.Valid()
  {
    var mask := DfMask(W.n, W.indptr, W.indices, 0.85, alphaOutMap, 1.0, map[]);
    PathProblem(Damping(W.n, W.indptr, W.indices, W.diagonalIx,
                        Normalized(W.n, W.indptr, W.indices, W.rowWeights, W.data[..]),
                        mask, if |mask| > 0 then Max(mask) else 0.0, sources, factorizer),
                if target > |W.nodes| as real then |W.nodes| as real else target)
  }

  /** `_process_context_mu_newton`: finds the damping whose mean path
    * length is the target by the bracketed Newton search on [0, 1] from
    * 0.8, and returns it with the context of the last operator the search
    * built. W itself is not changed: every operator is built on a copy. */
  method ProcessContextMuNewton(W: AdjacencyMatrix, sources: seq<nat>, alphaOutMap: map<nat, real>, target: real,
                                maxiter: nat, tol: real, factorizer: Factorizer, inverter: Inverter)
    returns (r: Result<(real, seq<seq<real>>)>)
    requires W.Valid() && SolverShaped(factorizer) && InverterShaped(inverter)
    requires |sources| > 0 && forall k :: 0 <= k < |sources| ==> sources[k] < W.n
    ensures target < 1.0 ==> r.Err?
    ensures r.Ok? ==> 0.0 <= r.value.0 <= MaxDamping
    ensures r.Ok? ==>
              var p := NewtonProblem(W, sources, alphaOutMap, target, factorizer);
              && WellPosed(p) && maxiter > 0
              && var o := Run(RootOf(p), 0.8, 0.0, 1.0, 0, maxiter, tol);
              && r.value.0 == o.x
              && IsContext(r.value.1, sources, RowSolutions(W.n, W.indptr, W.indices, W.diagonalIx,
                                                            DampedTransition(p.d, o.args), sources, factorizer))
  {
    if target < 1.0 {
      return Err("RuntimeError");
    }
    var tgt := if target > |W.nodes| as real then |W.nodes| as real else target;
    var mask := W.GetDfMask(0.85, alphaOutMap, 1.0, map[]);
    if mask.Err? {
      return Err(mask.error);
    }
    if |mask.value| == 0 {
      return Err("ValueError");
    }
    var top := Max(mask.value);
    if top == 0.0 {
      return Err("ZeroDivisionError");
    }
    var base := Normalized(W.n, W.indptr, W.indices, W.rowWeights, W.data[..]);
    var p := PathProblem(Damping(W.n, W.indptr, W.indices, W.diagonalIx, base, mask.value, top, sources, factorizer),
                         tgt);
    assert p == NewtonProblem(W, sources, alphaOutMap, target, factorizer);
    var found := SearchContext(W, p, maxiter, tol, inverter);
    if found.Err? {
      return Err(found.error);
    }
    if found.value.0 > MaxDamping {
      return Err("RuntimeError");
    }
    return Ok(found.value);
  }

  /** The search of `_process_context_mu_newton` on [0, 1] from 0.8, and
    * the context at the damping of its last evaluation, built on a copy of
    * W. */
  method SearchContext(W: AdjacencyMatrix, p: PathProblem, maxiter: nat, tol: real, inverter: Inverter)
    returns (r: Result<(real, seq<seq<real>>)>)
    requires W.Valid() && WellPosed(p) && InverterShaped(inverter)
    requires p.d.n == W.n && p.d.indptr == W.indptr && p.d.indices == W.indices && p.d.diag == W.diagonalIx
    requires p.d.base == Normalized(W.n, W.indptr, W.indices, W.rowWeights, W.data[..])
    ensures maxiter == 0 <==> r.Err?
    ensures r.Ok? ==>
              var o := Run(RootOf(p), 0.8, 0.0, 1.0, 0, maxiter, tol);
              && r.value.0 == o.x && 0.0 <= o.x <= 1.0
              && IsContext(r.value.1, p.d.boundary, RowSolutions(W.n, W.indptr, W.indices, W.diagonalIx,
                                                                 DampedTransition(p.d, o.args), p.d.boundary,
                                                                 p.d.factorize))
  {
    var found := RootfindNewton(RootOf(p), 0.8, 0.0, 1.0, maxiter, tol);
    if found.Err? {
      return Err(found.error);
    }
    RunStaysInBracket(RootOf(p), 0.8, 0.0, 1.0, 0, maxiter, tol);
    var x0 := found.value.args;
    var copy := W.Copy();
    var h := BasicContext(copy, Rescaled(p.d.mask, p.d.top, x0), p.d.boundary, p.d.factorize, inverter);
    return Ok((found.value.x, h));
  }

  // ---------------------------------------------------------------------
  // The analysis object

  /** What `EmittingAnalysis` keeps: the damping factor (found by the
    * search when only a path length was given), the target path length,
    * the excluded nodes and the context H. */
  datatype EmittingAnalysis = EmittingAnalysis(df: Option<real>, da: Option<real>, excluded: set<nat>,
                                               h: seq<seq<real>>)

  /** `EmittingAnalysis.__init__` with `_solve_boundary_problem`: without a
    * dissipation specification it fails; a given operator is reused; else a
    * fixed df is applied, or without one the damping is found from the
    * path length da. The nodes are given as indices, the antisink map as
    * out-factors by index. */
  method NewEmittingAnalysis(W: AdjacencyMatrix, sources: seq<nat>, antisinkMap: map<nat, real>,
                             df: Option<real>, da: Option<real>, context: Option<SparseLaplacian>,
                             maxiter: nat, tol: real, factorizer: Factorizer, inverter: Inverter)
    returns (r: Result<EmittingAnalysis>)
    requires W.Valid() && SolverShaped(factorizer) && InverterShaped(inverter)
    requires forall k :: 0 <= k < |sources| ==> sources[k] < W.n
    requires context.Some? ==> context.value.Valid()
    requires context.None? && df.None? ==> |sources| > 0
    modifies W.data, if context.Some? then {context.value} else {}
    ensures df.None? && da.None? ==> r.Err?
    ensures r.Ok? ==> r.value.excluded == Excluded(antisinkMap, W.n) && r.value.da == da
    ensures context.None? && df.Some? ==> (r.Ok? <==> df.value <= MaxDamping)
    ensures r.Ok? && (context.Some? || df.Some?) ==> r.value.df == df
    ensures r.Ok? && context.None? && df.None? ==> r.value.df.Some? && 0.0 <= r.value.df.value <= MaxDamping
    ensures r.Ok? && context.None? && df.Some? ==> df.value <= MaxDamping
    ensures r.Ok? && context.None? ==> |r.value.h| == |sources|
    ensures r.Ok? && context.Some? ==> context.value.full && |r.value.h| == |sources|
    ensures context.Some? ==> context.value.Valid()
    ensures r.Ok? && context.Some? ==>
              var spl := context.value;
              && spl.Ready() && spl.boundaryIxs == Some(sources)
              && Evaluated(spl, spl.State(), spl.Current(), r.value.h, sources)
    ensures r.Ok? && context.None? && df.Some? ==>
              var t := Masked(DfMask(W.n, W.indptr, W.indices, df.value, OnNodes(antisinkMap, W.n), 1.0, map[]),
                              Normalized(W.n, W.indptr, W.indices, W.rowWeights, old(W.data[..])));
              IsContext(r.value.h, sources, RowSolutions(W.n, W.indptr, W.indices, W.diagonalIx, t, sources, factorizer))
    ensures r.Ok? && context.None? && df.None? ==>
              var p := NewtonProblem(W, sources, OnNodes(antisinkMap, W.n), da.value, factorizer);
              && WellPosed(p) && maxiter > 0
              && var o := Run(RootOf(p), 0.8, 0.0, 1.0, 0, maxiter, tol);
              && r.value.df == Some(o.x)
              && IsContext(r.value.h, sources, RowSolutions(W.n, W.indptr, W.indices, W.diagonalIx,
                                                            DampedTransition(p.d, o.args), sources, factorizer))
  {
    if df.None? && da.None? {
      return Err("RuntimeError");
    }
    var excluded := Excluded(antisinkMap, W.n);
    var alphaOutMap := OnNodes(antisinkMap, W.n);
    if context.Some? {
      var h := ProcessContextSpl(sources, context.value);
      if h.Err? {
        return Err(h.error);
      }
      return Ok(EmittingAnalysis(df, da, excluded, h.value));
    }
    if df.None? {
      var found := ProcessContextMuNewton(W, sources, alphaOutMap, da.value, maxiter, tol, factorizer, inverter);
      if found.Err? {
        return Err(found.error);
      }
      return Ok(EmittingAnalysis(Some(found.value.0), da, excluded, found.value.1));
    }
    var h := ProcessContextDf(W, sources, alphaOutMap, df.value, factorizer, inverter);
    if h.Err? {
      return Err(h.error);
    }
    return Ok(EmittingAnalysis(df, da, excluded, h.value));
  }
}
