# ITM Probe in Dafny

A model of the core of ITM Probe (Information-flow through Markov chains,
from the qmbpmn-tools repository) and of the data-handling utilities around
it, with proofs of what each operation promises.

The ITM Probe pipeline turns a weighted graph into the sparse Laplacian
L = I - P of a damped random walk, cuts out the boundary nodes (sources,
sinks, excluded nodes) and solves for the flow of information in one of
three modes:

- `AdjMatrix`: the CSR adjacency matrix, its row weights, the per-entry
  damping mask and the in-place row normalisation.
- `Laplacian`: the class `SparseLaplacian` in its basic form (boundary rows
  and columns snapshotted and zeroed, diagonal shifted by 1) and its
  full-graph form (block-inverse correction). The sparse LU factorisation
  and the dense inverse are parameters. The predicates `Solves` and
  `Inverts` state what they compute. Under them, both forms are proved to
  solve the same cut boundary system.
- `Emitting`, `Absorbing`, `NChannel`: the three modes. Each has:
  - the post-solve filling of the result matrices;
  - the argument guards and the connectivity pre-check;
  - the fixed-damping and Newton-searched damping paths;
  - the analysis constructors.
  `BoundaryProblem` holds what they share. Each context column is proved to
  be the harmonic solution of its boundary problem. Each Newton objective is
  proved to be the mean number of visits or absorption steps it is meant to
  be.
- `Newton`: bracketed Newton iteration with bisection fallback. The loop is
  proved equal to a recursive reference and to stay in its bracket.
- `Dense`, `Csr`, `Lil`: the dense linear algebra, the CSR layout and the
  row-of-lists matrix these rest on.
- `Digraph`, `CsrGraph`, `DMatrix`, `PriorityDict`: the mutable directed
  graph, its frozen CSR form, and Dijkstra's search with shortest paths.

Around the pipeline sit parsers, serialisers and rule logic:

- `Filesys`: length-prefixed NUL-separated string lists.
- `NcbiGene`, `NcbiIndex`, `NcbiGenes`:
  - parsing one species' block of an NCBI `gene_info` file, with symbol
    disambiguation and alias/conflict resolution;
  - the binary index of the result, with its round trip;
  - the loaded gene tables and the mapping of user names to genes.
- `Bri`: the KEGG brite hierarchy reader, its walk to the root and term
  lookup.
- `Obo`, `OboOntology`: the OBO stanza reader and tag handlers, typedef
  transitivity expansion, term lookup and order, and the transitive closure
  along relationships.
- `Gluelib`: the installer's configuration format and its dependency graph:
  topological visit, dependents, age check, guarded removal.
- `Render`, `ItmGraphics`: the Graphviz DOT writer and the neato layout
  it keeps; the layout of a shown subgraph (which edges, which arrows,
  which node shapes) and its one-colour and mixed-colour painting.
- `Biogrid`: the BioGRID interaction loader. Lines become per-pair
  evidence lists; a throughput filter and the rule that a directed pair
  suppresses its undirected counterpart decide the weighted edges of the
  directed graph. The graph is proved to have the same weights whatever
  order the dictionaries are visited in.
- `SaddleResults`: the SaddleSum runs. It covers the command line of a
  run, the generator of sections of its tab output with the two parsers
  over it, the writer that output reads back from, and the saved command
  replayed to score one term.
- `SvgOutput`: the SaddleSum picture of the enriched terms. It joins the
  roots of the term graph under 'ALL', derives the colour scale from the
  E-value levels, and fills the attribute dictionaries of terms and
  relations that the DOT graph is drawn from.
- `Output`: the result tables. `formatted_table` turns query rows into
  text cells and finds the numeric columns; the tables are printed as
  aligned text, as CSV and as tab-delimited text. The tab output is
  proved to read back into its rows, every CSV field into its text, and
  every full row of the text output to span the rule under its headers.
- `Script`: ITM scripts. The SQL helpers `delta`, `srccol` and `snkcol`
  pivot a result table, one `datacol<i>` per source or sink; the
  `participation_ratio` aggregate (Σ abs(x))² / Σx² is proved to lie
  between 1 and the number of non-zero values. The script context checks,
  with its parse actions, that every `$var$` is defined before use and
  every required `@var` exists; a script that passes these checks is
  proved never to raise KeyError while it runs.
- `Commands`: the command functions. They cover the variables handed to
  the report, layout and image scripts; the bin count, bin factory and
  value-column statement of a picture; the choice of graph in
  `graph_from_kwargs`; and the node values and bin edges a picture is
  drawn from. The last three fill arrays in place, and each is proved to
  match a function over the script's rows.
- `CommandTool`: the command-line toolkit the tools are built on. It
  covers `AttributeDict` (a class whose dotted item access walks nested
  dictionaries), `strip_docstring`, `extract_metavars`, `set_error_on`,
  `option_names_from_option_list`, the option-table checks and option
  grouping of `_parse_command_line`, the command lookup by name and
  alias, and `make_man_page`.
- `Wrappers`, `Indexing`, `Ordering`, `Text`: shared helpers.
  - `Wrappers`: Option and Result; a Python exception becomes `Err` with
    the exception class name.
  - `Indexing`: Python list indexing and `enumerate` dictionaries.
  - `Ordering`: string order and `sorted`.
  - `Text`: strip, split, join, replace, upper and decimal conversion.

Where the source changes state step by step, the model does too: classes
with `modifies` frames, arrays written in place, and loops with invariants.
Each such method is proved against a reference function, and the lemmas
state the properties of that function. Real numbers stand for floats, and
unbounded integers for Python integers; u32 wrap-around is written out
where numpy applies it.

## Model

| member | source | states |
|---|---|---|
| AdjMatrix.ComputeRowWeights | common/graph/adjmatrix.py:58-65 | the default row weight of row i is the sum of the values stored in row i, for every row |
| AdjMatrix.SumRange | common/graph/adjmatrix.py:63-64 | the loop's sum is the sum of the stored values of the slice |
| AdjMatrix.NormalizedRowSumsToOne | common/graph/adjmatrix.py:111-127 | with the default weights, every row of positive sum sums to exactly 1 after normalisation |
| AdjMatrix.NormalizedEntry | common/graph/adjmatrix.py:120-126 | a stored value of a row of positive weight becomes that value divided by the weight |
| AdjMatrix.FillRows | common/graph/adjmatrix.py:97-100 | every stored position of row i is set to the out-factor of row i |
| AdjMatrix.MaskValues | common/graph/adjmatrix.py:92-107 | the mask entry at position p is the in-factor of its column times the out-factor of its row |
| AdjMatrix.AdjacencyMatrix.constructor | common/graph/adjmatrix.py:50-65 | the given parts are stored; without row weights, the weight of every row is the sum of its stored values |
| AdjMatrix.AdjacencyMatrix.Copy | common/graph/adjmatrix.py:67-73 | a fresh matrix with its own copy of the stored values; the pattern, diagonal index, nodes and row weights are the same |
| AdjMatrix.AdjacencyMatrix.GetDfMask | common/graph/adjmatrix.py:75-109 | the mask has one entry per stored value; the entry of row i, column j is the out-factor of i times the in-factor of j, a map entry overriding the default factor; the result is an IndexError exactly when a map key is not a node |
| AdjMatrix.AdjacencyMatrix.MakeTransitionMatrix | common/graph/adjmatrix.py:111-127 | in place, each row of positive weight is divided by its weight and other rows are unchanged (with `NormalizedRowSumsToOne`: rows become stochastic) |
| Laplacian.ApplyMask | ITMProbe/core/laplacian.py:78-79 | in place, every stored value is multiplied by its damping-mask entry; nothing else changes |
| Laplacian.ExtractRow | ITMProbe/core/laplacian.py:101-104 | the dense copy of row i holds every stored value of row i at its column and 0 elsewhere |
| Laplacian.ExtractColumn | ITMProbe/core/laplacian.py:115-123 | the dense copy of column j holds, at the row that `searchsorted` on `indptr` finds, every stored value of column j, and 0 elsewhere |
| Laplacian.ExtractRows | ITMProbe/core/laplacian.py:98-104 | `boundary_row_data` row k is the dense row `boundary_rows[k]` |
| Laplacian.ExtractColumns | ITMProbe/core/laplacian.py:112-123 | `boundary_col_data` column k is the dense column `boundary_cols[k]` |
| Laplacian.ZeroIndex | ITMProbe/core/laplacian.py:127-129 | a stored value becomes 0 exactly when its row or its column is i; every other value is unchanged |
| Laplacian.ZeroBoundary | ITMProbe/core/laplacian.py:125-129 | after zeroing the rows and columns of the boundary rows followed by the boundary columns, a value is 0 exactly when its row or column is a boundary index (`ZeroedEntry`), the rest unchanged |
| Laplacian.NegateAddIdentity | ITMProbe/core/laplacian.py:84-86 | every stored value is negated and the diagonal positions get 1 added, so the dense entry (r, c) becomes δ(r, c) minus the old entry (`FinalizedEntry`) |
| Laplacian.FinalizedEntry | ITMProbe/core/laplacian.py:84-86 | negation plus the diagonal add gives the dense entry δ(r, c) − P(r, c) for every r and c |
| Laplacian.ZeroedEntry | ITMProbe/core/laplacian.py:125-129 | a dense entry is cleared exactly when its row or its column is in the boundary |
| Laplacian.BoundaryIsIdentity | ITMProbe/core/laplacian.py:86-129 | after construction every boundary row and every boundary column of L is the unit vector of its index: the diagonal add runs after the zeroing |
| Laplacian.IndexMap | ITMProbe/core/laplacian.py:131-135 | `boundary_row_map` and `boundary_col_map` know exactly the listed indices, and each maps to the last position holding it |
| Laplacian.TransitionRecovered | ITMProbe/core/laplacian.py:249-274 | for the uncut operator I − P, the full-graph `get_boundary_row`/`get_boundary_col` (negate, then add 1 at the diagonal) give back row and column i of P |
| Laplacian.RebuiltRowsRecovered | ITMProbe/core/laplacian.py:335-340 | every row of the full-graph `boundary_row_data` is the transition row of its boundary index |
| Laplacian.ClearRows | ITMProbe/core/laplacian.py:330 | the rows of Y at the boundary indices are zero and every other row is unchanged |
| Laplacian.Correction | ITMProbe/core/laplacian.py:329-331 | YQ = Y·W⁻¹ with the boundary rows of Y cleared has zero boundary rows (`ClearedRowsProduct`) |
| Laplacian.Corrected | ITMProbe/core/laplacian.py:297-300 | the full-graph solution x − YQ·z, where z is x at the boundary and x is cleared there, vanishes on the boundary |
| Laplacian.CorrectedForm | ITMProbe/core/laplacian.py:218-300 | when W·Q = I, the corrected vector equals x0 − Y·(Q·z) with z = x0 at the boundary, and vanishes on the boundary |
| Laplacian.CorrectedSolves | ITMProbe/core/laplacian.py:218-331 | the block-inverse step: when x0 solves a·x = rhs, the columns of Y solve a·y = e_b, and Q inverts the boundary block of Y, the corrected x0 solves the system a with the boundary rows and columns cut out, for rhs with its boundary entries cleared |
| Laplacian.GreenCombination | ITMProbe/core/laplacian.py:321-327 | any combination of the Green's-function columns of the boundary is mapped by a to a vector that is 0 off the boundary |
| Laplacian.CutRows | ITMProbe/core/laplacian.py:125-308 | a boundary row of the cut system picks its own entry; on a vector that vanishes on the boundary every other row acts as in the uncut system |
| Laplacian.BasicIsCut | ITMProbe/core/laplacian.py:76-129 | the operator the basic variant assembles is I − P with the boundary rows and columns replaced by identity rows and columns, in both orientations |
| Laplacian.UncutEntries | ITMProbe/core/laplacian.py:84-86 | without a boundary, the operator is I − P (or its transpose) entry by entry |
| Laplacian.SolvesSystem | ITMProbe/core/laplacian.py:181-191 | a factorization that solves every solvable system returns the solution of a nonsingular L or Lᵀ |
| Laplacian.BasicCutSolution | ITMProbe/core/laplacian.py:165-192 | the basic solve solves I − P with the boundary cut out (Lᵀ for `autoTranspose` false, L for true), and repeats the right-hand side on the boundary |
| Laplacian.UnitSolutions | ITMProbe/core/laplacian.py:321-327 | one solution per boundary index, each of the order of the operator |
| Laplacian.FullCutSolution | ITMProbe/core/laplacian.py:277-333 | with an exact factorizer and inverter, the full-graph solution (base solve, clear the boundary, subtract YQ·z) solves the same cut system as the basic variant, for rhs cleared on the boundary |
| Laplacian.SparseLaplacian.constructor | ITMProbe/core/laplacian.py:62-135 | the adjacency data becomes, in place, the row-normalised, masked values with the boundary rows and columns zeroed, negated, plus 1 at the diagonal; the boundary lists (`[]` for `None`), the row and column snapshots of the masked transition matrix and empty solver caches are recorded |
| Laplacian.SparseLaplacian.Full | ITMProbe/core/laplacian.py:240-247 | the full-graph operator is I − P with no boundary cut; the boundary is unset and the solver caches are empty |
| Laplacian.SparseLaplacian.GetBoundaryRow | ITMProbe/core/laplacian.py:138-259 | the basic variant returns row i of the masked transition matrix exactly for an extracted row, KeyError otherwise; the full-graph variant rebuilds any row i < n from L |
| Laplacian.SparseLaplacian.GetBoundaryCol | ITMProbe/core/laplacian.py:146-274 | the same for columns |
| Laplacian.SparseLaplacian.BoundaryRowData | ITMProbe/core/laplacian.py:96-340 | row k of `boundary_row_data` is the transition row of the k-th boundary index; an unset boundary (full graph) is the AttributeError of the property; for the basic variant without boundary rows the attribute is `None`, and the error stands for the TypeError a caller gets when it indexes that |
| Laplacian.SparseLaplacian.BoundaryColumn | ITMProbe/core/laplacian.py:108-347 | column k of `boundary_col_data` is the transition column of the k-th boundary column (basic) or boundary index (full graph); missing data or k out of range is an error |
| Laplacian.SparseLaplacian.SolveBase | ITMProbe/core/laplacian.py:165-192 | each orientation is factorized on its first use and the cached solver is reused afterwards; the other orientation's cache and the operator are untouched |
| Laplacian.SparseLaplacian.Solve | ITMProbe/core/laplacian.py:165-302 | returns the basic solve, corrected by the boundary step in the full-graph variant (whose result is 0 on the boundary); only the solver caches change |
| Laplacian.SparseLaplacian.BoundaryIdentity | ITMProbe/core/laplacian.py:86-129 | in a constructed basic operator every boundary row and column is the unit vector of its index |
| Laplacian.SparseLaplacian.BasicSolution | ITMProbe/core/laplacian.py:165-192 | the basic variant's solve is the factorization of the operator assembled from its transition values and boundary |
| Laplacian.SparseLaplacian.TmpMatrix | ITMProbe/core/laplacian.py:315-333 | Y·W⁻¹ with the boundary rows of Y cleared, `None` when W is singular; the result has zero boundary rows |
| Laplacian.SparseLaplacian.ComputeTmpMat | ITMProbe/core/laplacian.py:315-333 | solves for the unit vector of every boundary index and returns the correction exactly when the boundary block can be inverted; only the solver cache changes |
| Laplacian.SparseLaplacian.SetBoundaryIxs | ITMProbe/core/laplacian.py:304-313 | records the boundary, then `tmp_mat` and `tmp_mat_T`; it succeeds exactly when both boundary blocks are invertible, and the operator is then ready to solve |
| Laplacian.SparseLaplacian.StoreBoundary | ITMProbe/core/laplacian.py:311-313 | the boundary is recorded first and each correction matrix only when its computation succeeded, as the assignment order leaves them after a failure |
| Laplacian.SparseLaplacian.GetFullGreensFunc | ITMProbe/core/laplacian.py:154-163 | column j of the result is the solve of L·x = e_j, for every j |
| Laplacian.SparseLaplacian.BasicSolvesCut | ITMProbe/core/laplacian.py:165-192 | with an exact factorizer, the basic solve solves I − P with the boundary rows and columns cut out, and repeats rhs on the boundary |
| Laplacian.SparseLaplacian.FullSolvesCut | ITMProbe/core/laplacian.py:218-333 | after `set_boundary_ixs(b)`, the full-graph solve solves the same cut system as `BasicSolvesCut` with boundary b, for rhs cleared on b: the block-inverse correction is exact |
| BoundaryProblem.PinColumn | ITMProbe/core/emitting.py:38-40 | the column is the solution with the boundary entries cleared and its own node s set to 1 |
| BoundaryProblem.Max | ITMProbe/core/emitting.py:78 | `df_mask.max()` bounds every entry and is one of them |
| BoundaryProblem.Rescaled | ITMProbe/core/emitting.py:78 | `x0 * df_mask / df_mask.max()` entry by entry |
| BoundaryProblem.Interior | ITMProbe/core/emitting.py:80-81 | the all-ones vector with the boundary entries cleared |
| BoundaryProblem.AdjointSolutions | ITMProbe/core/emitting.py:82-88 | with an exact factorizer, the solvers of L and Lᵀ are adjoint: (L⁻ᵀa)·v = a·(L⁻¹v), which lets the objective's row-sum solve stand for the column sums of the context |
| BoundaryProblem.FirstStep | ITMProbe/core/laplacian.py:84-129 | an interior row of the cut system of I − P says x[i] is the flow into i from the interior plus rhs[i] |
| BoundaryProblem.PinnedHarmonic | ITMProbe/core/emitting.py:38-40 | a column pinned at the boundary with 1 at its own node satisfies its solution's first-step equation as a product with the transition vector |
| BoundaryProblem.AbsorbedStep | ITMProbe/core/nchannel.py:47-60 | the first-step equation carries over to a column that agrees with the solution off the boundary, whatever the order in which the boundary is listed |
| BoundaryProblem.TransientStep | ITMProbe/core/laplacian.py:165-192 | a column that agrees off the boundary with the basic solve for the transition column (row) of s satisfies at every interior node the first-step equation of the walks absorbed at the boundary |
| BoundaryProblem.OnNodes | ITMProbe/core/emitting.py:161-162 | the antisink map keeps exactly the keys that are nodes (`G.has_node`), with their values |
| BoundaryProblem.Excluded | ITMProbe/core/emitting.py:140-141 | the excluded nodes are nodes of the graph |
| Emitting.RowColumn | ITMProbe/core/emitting.py:37-40 | one more column of the evaluation, with only the solver caches changed |
| Emitting.EvaluateContext | ITMProbe/core/emitting.py:34-41 | succeeds exactly when every source has a boundary row; column j is then the solve for the row of source j with the sources cleared and 1 at source j |
| Emitting.ProcessContextSpl | ITMProbe/core/emitting.py:43-45 | the full-graph operator gets the sources as boundary and the context is evaluated; the basic variant has no `set_boundary_ixs` |
| Emitting.BasicContext | ITMProbe/core/emitting.py:53-54 | the context of the basic operator built from W's normalised values under the mask, with the sources as boundary rows |
| Emitting.SolutionsAreBasic | ITMProbe/core/emitting.py:53-54 | in that operator every source has a boundary row and its solve is the row solution of the assembled operator |
| Emitting.EvaluatedIsContext | ITMProbe/core/emitting.py:34-41 | a complete evaluation of the basic variant is the context of its row solutions |
| Emitting.ContextIsHarmonic | ITMProbe/core/emitting.py:34-41 | with an exact factorizer, H counts visits: at a node outside the sources, the visits from source j are the visits to every node k times P[k, i] |
| Emitting.ProcessContextDf | ITMProbe/core/emitting.py:47-54 | a df above 1 − 1e-3 is a RuntimeError; success exactly when df is allowed and the map keys are nodes; the result is then the context of the basic operator whose mask damps out-links by df |
| Emitting.BoundaryDot | ITMProbe/core/emitting.py:83 | one product per source of its transition row with g |
| Emitting.ObjectiveIsMeanVisits | ITMProbe/core/emitting.py:77-91 | with an exact factorizer, the objective plus the target is the mean over the sources of the column sums of H outside the sources: the mean path length of the emitting walks |
| Emitting.SearchContext | ITMProbe/core/emitting.py:93-117 | the result is the last iterate of the Newton search from 0.8 on [0, 1] and the context at the damping of its last evaluation; no iteration allowed is an error |
| Emitting.ProcessContextMuNewton | ITMProbe/core/emitting.py:57-118 | a target below 1 is a RuntimeError; a found damping lies in [0, 1 − 1e-3]; it is the Newton search's result for the target capped at the node count, with the context of the last operator |
| Emitting.NewEmittingAnalysis | ITMProbe/core/emitting.py:131-173 | no dissipation given is a RuntimeError; the excluded nodes are the nodes with antisink factor 0 (names that are not nodes dropped); with a given operator, H is its evaluated context for the sources as boundary; with a fixed df (accepted exactly when at most 1 − 1e-3), H is the pinned row solutions of the df-masked transition matrix; otherwise df is the Newton iterate for da from 0.8 on [0, 1] and H the pinned solutions of the last damped operator |
| Absorbing.SinkColumn | ITMProbe/core/absorbing.py:38-41 | one more column of the evaluation, with only the solver caches changed |
| Absorbing.EvaluateContext | ITMProbe/core/absorbing.py:35-42 | succeeds exactly when every sink has a boundary column; column i is then the solve for boundary column i with the sinks cleared and 1 at its sink |
| Absorbing.ProcessContextSpl | ITMProbe/core/absorbing.py:63-65 | the full-graph operator gets the sinks as boundary and the context is evaluated; the basic variant has no `set_boundary_ixs` |
| Absorbing.BasicContext | ITMProbe/core/absorbing.py:76-78 | the context of the basic operator built from W's normalised values under the mask, with the sinks as boundary columns |
| Absorbing.SinkOperatorSolution | ITMProbe/core/absorbing.py:77 | the basic operator with the sinks as boundary columns solves with the operator assembled from its values |
| Absorbing.SolutionsAreBasic | ITMProbe/core/absorbing.py:77-78 | every sink has a boundary column, and its solve is the column solution of the assembled operator |
| Absorbing.EvaluatedIsContext | ITMProbe/core/absorbing.py:35-42 | a complete evaluation of the basic variant is the context of its column solutions |
| Absorbing.ContextIsHarmonic | ITMProbe/core/absorbing.py:35-42 | with an exact factorizer, F is harmonic: outside the sinks, the probability of absorption at sink i is its mean over the next step |
| Absorbing.Below | ITMProbe/core/absorbing.py:59 | exactly the positions whose entry is below eps, in increasing order |
| Absorbing.RowTotals | ITMProbe/core/absorbing.py:58 | `boundary_col_data.sum(1)`, one total per node |
| Absorbing.ProbeTransition | ITMProbe/core/absorbing.py:54-57 | the transition values at out-damping 0.9999 with the given out-factors |
| Absorbing.Disconnected | ITMProbe/core/absorbing.py:45-60 | the listed nodes are nodes of the graph |
| Absorbing.DisconnectedIxs | ITMProbe/core/absorbing.py:45-60 | on a copy of W: the nodes whose absorbed mass in the nearly undamped walk is below 1e-16; an out-factor key outside the matrix is an error; W is unchanged |
| Absorbing.CutMaps | ITMProbe/core/absorbing.py:72-74 | the in-factor map sends exactly the disconnected nodes to 0; the out-factor map adds them with factor 0 and keeps the other given factors |
| Absorbing.CutMaskIsolates | ITMProbe/core/absorbing.py:72-76 | every stored link out of or into a disconnected node is masked to 0 |
| Absorbing.ProcessContextDf | ITMProbe/core/absorbing.py:68-78 | succeeds exactly when the map keys are nodes; above 1 − 1e-14 the disconnected nodes are cut out first; the result is the context of the basic operator with that mask |
| Absorbing.ColumnDot | ITMProbe/core/absorbing.py:107 | one product per sink of g with its transition column |
| Absorbing.ObjectiveIsMeanAbsorption | ITMProbe/core/absorbing.py:100-113 | with an exact factorizer, the objective plus the target is the sum of the column sums of F outside the sinks divided by the number of connected transient nodes: the mean absorption probability |
| Absorbing.SearchContext | ITMProbe/core/absorbing.py:115-116 | the result is the last iterate of the Newton search from 0.85 on [0, 1] and the context at the damping of its last evaluation |
| Absorbing.ProcessContextMuNewton | ITMProbe/core/absorbing.py:81-117 | a target outside [0, 1] is a RuntimeError; the connected count is the nodes minus the disconnected nodes and the sinks; a found damping lies in [0, 1] and is the search's result, with the context of the last operator |
| Absorbing.NewAbsorbingAnalysis | ITMProbe/core/absorbing.py:130-172 | no dissipation given is a RuntimeError; the excluded nodes are the nodes with antisink factor 0; with a given operator, F is its evaluated context for the sinks as boundary; with a fixed df (always accepted), F is the pinned column solutions of the masked transition matrix, with the disconnected nodes cut when df > 1 − 1e-14; otherwise df is the Newton iterate for ap from 0.85 on [0, 1], the connected count is stored and F is the pinned solutions of the last damped operator |
| NChannel.LastIndex | ITMProbe/core/nchannel.py:47-48 | the position of the last occurrence of r: the write that is left standing when the entries are written in order |
| NChannel.SourceSinkBlock | ITMProbe/core/nchannel.py:50 | `G_SK` has one row per source and one column per sink |
| NChannel.FinishSinkColumn | ITMProbe/core/nchannel.py:52-55 | column i of F is the cleared solution with 1 at sink i and then `G[j, i]` at each source in order |
| NChannel.FinishSourceColumn | ITMProbe/core/nchannel.py:59-66 | column j of H is the cleared solution with `G[j, i]` at each sink in order and then 1 at source j, so a source that is also a sink reads 1 |
| NChannel.SourceRows | ITMProbe/core/nchannel.py:41-43 | `P_S` holds the transition row of every source; it succeeds exactly when every source has a boundary row |
| NChannel.SinkSolutions | ITMProbe/core/nchannel.py:45-46 | one solve of Lx = (transition column of sink k) per sink; it succeeds exactly when every sink has a boundary column, and only the solver caches change |
| NChannel.EvaluateContext | ITMProbe/core/nchannel.py:36-68 | succeeds exactly when every source has a boundary row and every sink a boundary column; then F and H are the channel context of the operator's solutions (`IsChannel`) |
| NChannel.ChannelAssembled | ITMProbe/core/nchannel.py:45-66 | the rows, sink solutions and finished columns computed in the three loops make up the channel context |
| NChannel.BasicSolves | ITMProbe/core/nchannel.py:160-163 | the basic operator with boundary rows sources + sinks and boundary columns sinks + sources has every row and column the evaluation looks up, and its solutions are those of that operator |
| NChannel.ChannelIsBasic | ITMProbe/core/nchannel.py:36-163 | a context evaluated on such an operator is its basic channel |
| NChannel.SinkFirstStep | ITMProbe/core/nchannel.py:36-68 | with an exact factorizer, column i of F satisfies the first-step equation of absorption at sink i for walks absorbed at every source and sink: at a node that is neither, F is the one-step probability into the sink plus the flow through the other transient nodes |
| NChannel.SourceFirstStep | ITMProbe/core/nchannel.py:36-68 | column j of H satisfies the first-step equation of visits by the walks from source j: at a node that is neither source nor sink, H is the one-step probability from the source plus the visits carried in from the other transient nodes |
| NChannel.SearchLengths | ITMProbe/core/nchannel.py:96-97 | a link the mask switches off gets infinite length and every other link length 1 |
| NChannel.CutLinks | ITMProbe/core/nchannel.py:84-90 | the links into the sources and out of the sinks are zeroed and every other value kept; a source or sink outside the matrix is an IndexError |
| NChannel.NearestSink | ITMProbe/core/nchannel.py:104 | the least distance of a sink in a search, infinite when no sink was reached |
| NChannel.TotalNearestFinite | ITMProbe/core/nchannel.py:101-108 | the summed distances are finite exactly when every search reached a sink, and are then not negative |
| NChannel.SourceSearches | ITMProbe/core/nchannel.py:99-104 | one search per source, the union of the nodes they reach and the summed nearest-sink distances; with no sinks the first source fails on the empty minimum |
| NChannel.ReachedSet | ITMProbe/core/nchannel.py:116-119 | the union of the nodes reached by the searches from the sinks on the transposed matrix |
| NChannel.ClosedTransposed | ITMProbe/core/nchannel.py:116 | a set of nodes is closed under the links of the transpose exactly when it is closed backwards under the links of the matrix |
| NChannel.ReachedBackwards | ITMProbe/core/nchannel.py:116-119 | the searches from the sinks on the transpose reach exactly the nodes that reach a sink in the matrix |
| NChannel.Disconnected | ITMProbe/core/nchannel.py:121-122 | a node is disconnected exactly when it is not both reached from a source and reaching a sink |
| NChannel.PruneMask | ITMProbe/core/nchannel.py:124-134 | the mask becomes `Pruned(old mask, disc)`: the rows of the disconnected nodes and the links into them are zeroed, using the matrix's own pattern |
| NChannel.ConnectedTotal | ITMProbe/core/nchannel.py:101-108 | the summed distances are finite exactly when every source is connected to some sink along links the mask leaves on |
| NChannel.ContextArgCheck | ITMProbe/core/nchannel.py:71-136 | the errors in the order of the source (IndexError, ValueError for no sinks, RuntimeError when a source reaches no sink, ZeroDivisionError for no sources); success exactly when every source reaches a sink; the mask is then pruned to the nodes on a source-to-sink path, and the result is the mean shortest path length, not negative; on an error the mask is unchanged |
| NChannel.PruneToPaths | ITMProbe/core/nchannel.py:114-134 | the mask is pruned to the nodes reached from a source that also reach a sink |
| NChannel.PrunedToPaths | ITMProbe/core/nchannel.py:111-134 | after the pruning, a link left on joins two nodes on source-to-sink paths, and every link between two such nodes keeps its value |
| NChannel.PrunedAsWritten | ITMProbe/core/nchannel.py:124-134 | the pruning as written, with the row pointers and column indices of the transposed matrix applied to a mask laid out like the matrix |
| NChannel.TransposedPruningMisplaced | ITMProbe/core/nchannel.py:116-134 | on a three-node graph the as-written pruning keeps the link into the disconnected node and switches off a link on the source-to-sink path, while the intended pruning does the opposite |
| NChannel.ProcessContextSpl | ITMProbe/core/nchannel.py:139-142 | the full-graph operator gets boundary sinks + sources and the channel context is evaluated; the basic variant has no `set_boundary_ixs` (AttributeError) |
| NChannel.Scaled | ITMProbe/core/nchannel.py:158 | every mask entry is multiplied by df |
| NChannel.DfContextMask | ITMProbe/core/nchannel.py:155-158 | the mask at damping df, pruned to the source-to-sink paths and then scaled by df when df is above 1 − 1e-14 |
| NChannel.ContextMask | ITMProbe/core/nchannel.py:155-158 | succeeds exactly when the map keys are nodes and, for df above 1 − 1e-14, every source reaches a sink; the mask is then `DfContextMask` |
| NChannel.ProcessContextDf | ITMProbe/core/nchannel.py:145-163 | a df below 1e-14 is a RuntimeError; success exactly when the keys and nodes are in range and, for df nearly 1, every source reaches a sink; F and H are then the basic channel of the masked transition values |
| NChannel.Quotient | ITMProbe/core/nchannel.py:212-216 | a quotient that multiplies back to the dividend whenever the divisor is non-zero |
| NChannel.PathLengths | ITMProbe/core/nchannel.py:212 | `Ts[k] = 1 + HF_sk / F_sk` for every sink |
| NChannel.WeightedMean | ITMProbe/core/nchannel.py:215 | the F-weighted mean of the lengths 1 + h/f is 1 + Σh / Σf |
| NChannel.SourceMeanIsPathLength | ITMProbe/core/nchannel.py:199-216 | when every F_sk and their sum are non-zero, the objective's term for source s is 1 + Σ_k HF_sk / Σ_k F_sk: one plus the expected visits per walk from s that ends at a sink |
| NChannel.PathLengthBound | ITMProbe/core/nchannel.py:175-178 | the dummy mask at 0.85 pruned by the connectivity check, and a non-negative lower bound; success exactly when the check passes |
| NChannel.NewtonContext | ITMProbe/core/nchannel.py:187-228 | the Newton search from 0.8 on [0, 1] over the mask rescaled by its largest entry, and the context of its last operator |
| NChannel.ChannelSearch | ITMProbe/core/nchannel.py:223-227 | the result is the search's last iterate and the channel context at the damping of its last evaluation |
| NChannel.ProcessContextMuNewton | ITMProbe/core/nchannel.py:166-228 | the target is the lower bound plus the deviation (times the lower bound when relative) and may not lie below it; on success the check passed, and the damping and F, H are those of the Newton search for that target |
| NChannel.NewNormChannelAnalysis | ITMProbe/core/nchannel.py:240-299 | no dissipation given is a RuntimeError; the excluded nodes are the nodes of zero antisink factor; with a given operator, F and H are its channel context for sinks + sources as boundary; with df, F and H are the basic channel context of the df context mask; otherwise the target is the shortest-path lower bound plus da (or dr times the bound) and df, F, H are the outcome of the Newton search for it; a found damping lies in [0, 1] |
| Newton.Rebracket | common/utils/newton.py:12-15 | a negative value moves the lower end of the bracket to x0, any other value moves the upper end |
| Newton.Candidate | common/utils/newton.py:17-21 | the next iterate is the Newton step when it lies strictly inside the bracket and the midpoint otherwise, so it never leaves the bracket |
| Newton.RootfindNewton | common/utils/newton.py:4-28 | the loop returns exactly what the recursive specification `Run` returns; with no iteration allowed the result is an error (the source's `x` is unbound) |
| Newton.RunStaysInBracket | common/utils/newton.py:7-26 | started in [a, b], the returned iterate lies in [a, b] |
| Newton.RunReturnsLastEvaluation | common/utils/newton.py:7-28 | at most `maxiter` evaluations; the returned value and payload come from the last evaluation, which converged or exhausted the iterations |
| Digraph.AddNode | common/graph/digraph.py:103-119 | a new name gets the next index and a row holding only an explicit 0 on its diagonal; a known name changes nothing |
| Digraph.AddNodeWeights | common/graph/digraph.py:109-117 | inserting a node keeps the graph well formed and changes no edge weight |
| Digraph.AddEdge | common/graph/digraph.py:121-133 | both ends are inserted, then the weight (1 by default, doubled on a self-loop) is added to entry (s1, s2) and the edge counter grows |
| Digraph.AddEdgeWeights | common/graph/digraph.py:121-133 | after an insertion the nodes are the old ones plus both ends, the weight of (s1, s2) grew by its increment and every other weight is unchanged |
| Digraph.SetWeight | common/graph/digraph.py:135-143 | a zero weight changes nothing; otherwise an unknown end is a KeyError, and the weight of (s1, s2) becomes the given one, whether or not the edge existed, with every other weight unchanged |
| Digraph.GetEdgeWeight | common/graph/digraph.py:145-151 | the weight of (s1, s2), a KeyError exactly when an end is not a node |
| Digraph.Outgoing | common/graph/digraph.py:160-169 | an unknown node is a KeyError |
| Digraph.OutgoingEdges | common/graph/digraph.py:160-169 | the listed pairs are exactly the edges of positive weight out of the node, each with its weight |
| Digraph.OutgoingDistinct | common/graph/digraph.py:167-169 | each positive out-edge is listed once |
| Digraph.InsertEdgesWeights | common/graph/digraph.py:204-207 | inserting the kept out-edges of a node adds each listed weight (doubled on the diagonal) to its edge and changes no other weight |
| Digraph.GainOfListed | common/graph/digraph.py:204-207 | with distinct ends, the weight gained by an edge is its listed weight, or 0 when it is not listed |
| Digraph.GetDiagonalIx | common/graph/digraph.py:75-83 | succeeds exactly when every row stores its diagonal; entry i is then the first position of row i whose column is i |
| Digraph.DirectedGraph.constructor | common/graph/digraph.py:42-61 | an empty graph with no node weights |
| Digraph.DirectedGraph.InsertNode | common/graph/digraph.py:103-119 | the new state is `AddNode` of the old one and the node is returned |
| Digraph.DirectedGraph.InsertEdge | common/graph/digraph.py:121-133 | the new state is `AddEdge` of the old one |
| Digraph.DirectedGraph.SetEdgeWeight | common/graph/digraph.py:135-143 | the new state is `SetWeight` of the old one; on a KeyError the graph is unchanged |
| Digraph.DirectedGraph.InsertUndirectedEdge | common/graph/digraph.py:153-158 | the edge is inserted in both directions, (s1, s2) first |
| Digraph.DirectedGraph.Extend | common/graph/digraph.py:187-193 | every positive edge of the other graph, node by node in its node order, is inserted with its weight |
| Digraph.DirectedGraph.ExtractNodes | common/graph/digraph.py:195-208 | an unknown listed node is a KeyError; otherwise a fresh graph holding the positive edges between the listed nodes, inserted node by node in list order |
| Digraph.DirectedGraph.WeightedAdjacencyMatrix | common/graph/digraph.py:85-98 | succeeds exactly when every node still stores its diagonal; the result is a fresh CSR matrix of the rows, transposed when asked, whose rows read back as those rows |
| Digraph.DiagonalsStored | common/graph/digraph.py:91-95 | the CSR form stores every diagonal exactly when every list row does, transposed or not |
| Digraph.TransitiveClosure | common/graph/digraph.py:211-227 | an unknown start is a KeyError; otherwise the result holds the starts, is closed under positive edges and holds only nodes reachable from a start: it is exactly the reachable set |
| Digraph.ReachableStep | common/graph/digraph.py:224-226 | a positive successor of a reached node is reached |
| CsrGraph.EnumeratedOfGraph | common/graph/csrgraph.py:81 | with distinct names the rebuilt name index inverts the node list, as the mutable graph's index does |
| CsrGraph.CsrDirectedGraph.constructor | common/graph/csrgraph.py:53-81 | the nodes, the sorted CSR matrix, its diagonal index and the name index are recorded |
| CsrGraph.CsrDirectedGraph.WeightedAdjacencyMatrix | common/graph/csrgraph.py:83-97 | a fresh copy of the matrix with the cached diagonal index, or the transpose with a diagonal index found anew, which never fails |
| CsrGraph.CsrDirectedGraph.OutgoingEdges | common/graph/csrgraph.py:99-106 | the stored entries of the node's row with a positive weight, in column order; an unknown node is a KeyError |
| CsrGraph.NewCsrGraph | common/graph/csrgraph.py:66-72 | the matrix is converted to sorted CSR; a row without a diagonal entry is an IndexError |
| CsrGraph.FrozenGraphAgrees | common/graph/csrgraph.py:66-106 | freezing a mutable graph keeps its nodes, index and weights, so both list the same out-edges for every node |
| DMatrix.Relax | common/graph/dmatrix.py:25-34 | an edge that would shorten a final distance is the ValueError; with non-negative lengths that never happens; otherwise every out-edge of v is relaxed |
| DMatrix.Dijkstra | common/graph/dmatrix.py:4-36 | with non-negative lengths the search succeeds; the final nodes are reachable and form a predecessor tree; run to exhaustion they are exactly the reachable nodes with every edge relaxed (the distances are shortest); stopped at end, end was finalized last |
| DMatrix.Exhausted | common/graph/dmatrix.py:21-36 | a search run until the queue empties has an edge-closed final set, which is exactly the reachable set |
| DMatrix.FiniteDistances | common/graph/dmatrix.py:4-36 | a node gets a finite distance exactly when it is reached along edges of finite length: an `inf` link is never followed |
| DMatrix.DistancesNonNegative | common/graph/dmatrix.py:21-34 | with non-negative lengths no final distance is negative |
| DMatrix.FinalReachable | common/graph/dmatrix.py:21-34 | every final node is reachable from the start |
| DMatrix.ShortestPath | common/graph/dmatrix.py:39-57 | the path starts at start, ends at end and follows stored edges; with non-negative lengths it exists exactly when end is reachable from start (KeyError otherwise) |
| DMatrix.FollowPredecessors | common/graph/dmatrix.py:51-56 | the loop reads the predecessors back from end to start; a node without a predecessor is a KeyError |
| Lil.Put | common/graph/digraph.py:143 | `A[i, j] = x` on a sorted row: a non-zero value replaces the stored one or is inserted in column order, a zero deletes the entry |
| Lil.AddAt | common/graph/digraph.py:132 | `A[i, j] += x`: the stored value (0 when absent) plus x is put back, so a sum of 0 deletes the entry |
| Lil.LilRoundTrip | common/graph/digraph.py:91 | `tocsr` loses nothing: reading the rows back from the CSR layout gives the same rows |
| Lil.CsrRoundTrip | common/graph/csrgraph.py:69 | the other direction: the list form of a canonical CSR matrix lays out to the same pointers, columns and values |
| Lil.ToCsrCanonical | common/graph/digraph.py:91-94 | `tocsr` of a well-formed list matrix is a canonical CSR pattern, so `sort_indices` has nothing to do |
| Lil.TransposeMirrors | common/graph/digraph.py:93 | `A.T` is well formed and holds entry (j, i) exactly when the matrix holds (i, j), with the same value |
| Lil.TransposeInvolution | common/graph/digraph.py:93 | transposing twice gives the matrix back |
| PriorityDict.ExtractMin | common/graph/dmatrix.py:21 | the queue yields a key of least estimate |
| Ordering.Sorted | common/db_parsers/obo.py:275 | `sorted` of a set of strings: strictly ascending, with exactly its elements |
| Ordering.AscendingUnique | common/db_parsers/obo.py:275 | an ascending sequence of exactly the elements of a set is `Sorted` of it: `sorted` has one possible result |
| Ordering.SortedBelow | common/db_parsers/ncbi_gene.py:438 | `sorted` of a set of indices: strictly increasing, with exactly its elements |
| Text.Strip | common/db_parsers/bri.py:192 | `s.strip()` is empty exactly when `s` is all whitespace, and otherwise neither starts nor ends with whitespace |
| Text.Words | common/db_parsers/obo.py:238 | `s.split()` gives non-empty words free of whitespace and made of characters of `s`, and no word exactly when `s` is all whitespace |
| Text.Replace | common/db_parsers/obo.py:176 | `s.replace(pat, rep)` leaves `s` as it is when `pat` does not occur, and removes every occurrence of a one-character `pat` that `rep` does not contain |
| Text.Upper | common/db_parsers/ncbi_gene.py:419 | `s.upper()` on a byte string maps every character by itself: only the ASCII lower-case letters change |
| Text.IntToString | common/db_parsers/ncbi_gene.py:105 | `str(x)` on an integer reads back as x with `int` |
| Indexing.Enumerated | common/db_parsers/bri.py:137-138 | every listed element is a key, mapped to a position that holds it and after which it does not occur again |
| Indexing.EnumeratedInverts | common/db_parsers/obo.py:276 | without duplicates the dictionary inverts the list |
| Indexing.PyIndex | common/db_parsers/bri.py:263 | Python's list index: valid exactly from -n to n-1, a negative index counting from the end |
| Filesys.U32 | common/utils/filesys.py:94-96 | four bytes that decode to the number modulo 2^32, as the `'<u4'` cast wraps it |
| Filesys.Split | common/utils/filesys.py:105 | `split('\0')` gives at least one piece, no piece holds a NUL, and a NUL-free buffer is one piece |
| Filesys.ReadStringList | common/utils/filesys.py:99-105 | an error exactly when fewer than four length bytes remain after the discarded count; the strings read are NUL-free |
| Filesys.SplitJoin | common/utils/filesys.py:95-105 | splitting a join of NUL-free pieces gives the pieces back |
| Filesys.WriteLayout | common/utils/filesys.py:91-97 | the written bytes are the item count when asked for, the buffer length, then the buffer, which splits into the items and one empty last piece |
| Filesys.DiscardedCount | common/utils/filesys.py:101-102 | the four count bytes are ignored: the rest reads as if there were no count |
| Filesys.ReadBuffer | common/utils/filesys.py:103-105 | a buffer announced by its exact length reads as its NUL-separated pieces but the last, leaving the bytes after it |
| Filesys.RoundTrip | common/utils/filesys.py:91-105 | reading back what was written, with matching flags, gives any non-empty list of NUL-free strings back and leaves the rest of the stream |
| Filesys.EmptyListReadsAsOneEmptyString | common/utils/filesys.py:95-105 | the empty list is written as a single NUL and reads back as a list holding one empty string |
| Filesys.WriteTerminated | common/utils/filesys.py:91-97 | every string terminated by NUL: the same bytes as the writer for a non-empty list |
| Filesys.RoundTripTerminated | common/utils/filesys.py:91-105 | the terminated writer round-trips every list of NUL-free strings, the empty list included |
| NcbiGene.BlockStart | common/db_parsers/ncbi_gene.py:73-80 | the first line that opens the species block at or after the given line: no line before it opens it |
| NcbiGene.BlockEnd | common/db_parsers/ncbi_gene.py:81-82 | the first line of another species at or after the given line: no line before it closes the block |
| NcbiGene.CollectOk | common/db_parsers/ncbi_gene.py:71-91 | the block yields its genes exactly when every line in it that is not a comment parses, and then one gene and one offset per gene line |
| NcbiGene.CollectFails | common/db_parsers/ncbi_gene.py:83-91 | the error is that of the first gene line that does not parse; later lines change nothing |
| NcbiGene.CollectOffsets | common/db_parsers/ncbi_gene.py:72-84 | the offsets ascend and lie between the byte positions of the block's first and last lines |
| NcbiGene.ParseBlock | common/db_parsers/ncbi_gene.py:69-91 | the scanning loop skips comments and lines before the species, stops at the first line of another species, and yields the block's genes in order with the offsets where the block starts and where each gene line ends, or the error of the first malformed line |
| NcbiGene.Disambiguate | common/db_parsers/ncbi_gene.py:99-106 | the two loops give the genes with every shared symbol renamed |
| NcbiGene.TwoMakeShared | common/db_parsers/ncbi_gene.py:99-104 | two genes with one symbol make that symbol shared |
| NcbiGene.AloneNotShared | common/db_parsers/ncbi_gene.py:99-104 | a symbol only one gene carries is not shared |
| NcbiGene.DisambiguatedDistinct | common/db_parsers/ncbi_gene.py:103-109 | with distinct gene ids and no symbol that reads as an integer, the renamed symbols are distinct, so the second assertion can fail only on numeric symbols |
| NcbiGene.DisambiguatedKeepsNames | common/db_parsers/ncbi_gene.py:103-106 | renaming keeps every gene's id and description; a renamed gene lists its old symbol first among its synonyms, and a gene whose symbol is its own is unchanged |
| NcbiGene.BuildAliasMap | common/db_parsers/ncbi_gene.py:112-116 | each name maps to the symbols of exactly the genes that answer to it, and no key maps to the empty set |
| NcbiGene.ResolveConflicts | common/db_parsers/ncbi_gene.py:127-142 | in any iteration order: a name for one other symbol becomes its alias, a symbol shared with others becomes a first-kind conflict of those others, and any other shared name becomes a second-kind conflict of all its symbols |
| NcbiGene.ResolvedTargets | common/db_parsers/ncbi_gene.py:112-142 | resolving the names of the alias map resolves the names of the genes |
| NcbiGene.AliasesAreNotSymbols | common/db_parsers/ncbi_gene.py:130-142 | no symbol is an alias of another: a symbol stands at least for itself |
| NcbiGene.OneSymbolPerAlias | common/db_parsers/ncbi_gene.py:138-142 | an alias belongs to one symbol only |
| NcbiGene.SymbolResolved | common/db_parsers/ncbi_gene.py:130-134 | a symbol is neither an alias nor a second-kind conflict |
| NcbiGene.OtherNameResolved | common/db_parsers/ncbi_gene.py:135-142 | any other name a gene answers to is an alias of some symbol exactly when it is not a second-kind conflict |
| NcbiGene.ParseGeneInfo | common/db_parsers/ncbi_gene.py:53-152 | the species block parsed, its shared symbols renamed, an AssertionError when ids or renamed symbols repeat, and otherwise the ids, symbols, descriptions and offsets of the block with every name resolved |
| NcbiIndex.DecodeEncode | common/db_parsers/ncbi_gene.py:205-232 | a string without NUL bytes is written as bytes free of NUL that decode back to it |
| NcbiIndex.TextsRoundTrip | common/db_parsers/ncbi_gene.py:207-232 | a string list written without its length reads back as the same strings and leaves the rest of the stream |
| NcbiIndex.U32s | common/db_parsers/ncbi_gene.py:211-212 | four bytes per number, each number taken modulo 2^32 |
| NcbiIndex.ReadU32s | common/db_parsers/ncbi_gene.py:247-252 | an error exactly when the bytes read stop inside a number; otherwise at most n numbers and a shorter rest |
| NcbiIndex.ReadU32 | common/db_parsers/ncbi_gene.py:237-246 | a number is read only when four bytes are there, and the rest follows them |
| NcbiIndex.U32sRoundTrip | common/db_parsers/ncbi_gene.py:211-248 | an array of u32 values reads back as written and leaves the rest |
| NcbiIndex.U32RoundTrip | common/db_parsers/ncbi_gene.py:206-246 | a single u32 value reads back as written and leaves the rest |
| NcbiIndex.Slice | common/db_parsers/ncbi_gene.py:259 | Python's slice with clamping: the elements between the bounds, none when they cross |
| NcbiIndex.RegroupFlatten | common/db_parsers/ncbi_gene.py:214-260 | cutting the flattened groups by their counts gives the groups back |
| NcbiIndex.ReadGroups | common/db_parsers/ncbi_gene.py:254-260 | the reading loop yields the n groups cut from the name list, or the IndexError where a name or count is missing |
| NcbiIndex.Dict | common/db_parsers/ncbi_gene.py:258-259 | the dictionary's keys are exactly the group names read |
| NcbiIndex.DictOfDistinct | common/db_parsers/ncbi_gene.py:258-259 | with distinct names, each group's aliases are its name's entry |
| NcbiIndex.SymbolGroupsRead | common/db_parsers/ncbi_gene.py:214-260 | reading back the symbol groups gives the symbols in their order and the symbol-to-aliases dictionary |
| NcbiIndex.ListsCount | common/db_parsers/ncbi_gene.py:221-227 | a listing of a dictionary has one group per key, so the stored count is the dictionary's size |
| NcbiIndex.EmptyConflictsMisread | common/db_parsers/ncbi_gene.py:221-283 | with both conflict tables empty, the reader takes the first one's string list for the second table, which comes back as `{"": set()}` |
| NcbiIndex.ConflictsRoundTrip | common/db_parsers/ncbi_gene.py:221-232 | read in the layout it is written in, every conflict table, the empty one included, reads back as written and leaves the rest |
| NcbiIndex.TablesRoundTrip | common/db_parsers/ncbi_gene.py:214-283 | the symbol lists, descriptions and both conflict tables read back as written |
| NcbiIndex.GenesRoundTrip | common/db_parsers/ncbi_gene.py:210-283 | the gene ids, offsets and all tables read back as written |
| NcbiIndex.BodyRoundTrip | common/db_parsers/ncbi_gene.py:207-283 | the metadata, checksum, taxonomy id and tables read back as written |
| NcbiIndex.IndexRoundTrip | common/db_parsers/ncbi_gene.py:154-294 | writing an index and reading it back passes the separator and magic check and gives the file name, checksum, taxonomy id and tables written |
| NcbiGenes.AliasIndexResolves | common/db_parsers/ncbi_gene.py:368-371 | when the symbols are distinct and each alias belongs to one symbol and is not itself a symbol, `alias2index` maps every symbol and each of its aliases to the symbol's position |
| NcbiGenes.AliasIndexKeys | common/db_parsers/ncbi_gene.py:368-371 | the names `alias2index` knows are exactly the symbols and their aliases |
| NcbiGenes.ParsedSeparated | common/db_parsers/ncbi_gene.py:130-140 | the symbols and alias lists the parser returns satisfy those conditions, so every name it keeps finds its own gene |
| NcbiGenes.ConflictTable | common/db_parsers/ncbi_gene.py:373-376 | the conflict table holds the names of both conflict maps; a name of the second map has type CONFLICT_2, any other has CONFLICT_1; each list is the sorted set of the symbols in conflict |
| NcbiGenes.Genes.constructor | common/db_parsers/ncbi_gene.py:355-376 | the tables keep the parsed lists; `gene_id2index` inverts the gene ids, `alias2index` is built symbols first and then aliases, and `conflicts` is the conflict table |
| NcbiGenes.NewGenes | common/db_parsers/ncbi_gene.py:368-371 | building the tables fails with KeyError exactly when a symbol has no alias list |
| NcbiGenes.Genes.Resolve | common/db_parsers/ncbi_gene.py:409-419 | a name that parses as an integer is looked up as a gene id only; any other name as a symbol or alias, then upper-cased; a found position is below the number of genes |
| NcbiGenes.Genes.MapSymbols | common/db_parsers/ncbi_gene.py:399-438 | the loop yields the entries of the specification Mapped, and the used positions strictly increasing, holding exactly the positions claimed |
| NcbiGenes.Genes.Mapped | common/db_parsers/ncbi_gene.py:407-437 | one entry per name, each with the position its name resolves to; every used position is a gene's |
| NcbiGenes.UsedClaims | common/db_parsers/ncbi_gene.py:420-437 | the used positions are exactly those some name found, and each is held by the name of the first lookup that found it |
| NcbiGenes.AssignDuplicate | common/db_parsers/ncbi_gene.py:420-433 | an entry carries DUPLICATE_ID exactly when an earlier name found the same position, and the warning names the first name that found it |
| NcbiGenes.Genes.DuplicateWarning | common/db_parsers/ncbi_gene.py:420-433 | the same, stated for the names given to `map_symbols` |
| NcbiGenes.Genes.MappedKinds | common/db_parsers/ncbi_gene.py:420-433 | every warning `map_symbols` gives has one of the four warning types |
| NcbiGenes.Genes.ResolveGeneId | common/db_parsers/ncbi_gene.py:411-412 | an integer name finds a gene exactly when it is a gene id, and then the gene with that id |
| NcbiGenes.Genes.ResolveName | common/db_parsers/ncbi_gene.py:413-419 | with separated names, a symbol or alias finds its own gene, and a spelling that upper-cases to it and is no name itself finds the same gene under the upper-case name |
| NcbiGenes.Genes.MapSymbolsToGeneIds | common/db_parsers/ncbi_gene.py:440-449 | each entry carries the gene id of the position found, or nothing, with the same warning; the used ids are the gene ids of the used positions in increasing position order |
| NcbiGenes.Genes.GetRecord | common/db_parsers/ncbi_gene.py:451-470 | AssertionError exactly when not exactly one selector is given; a result is the symbol, id and description of one gene |
| NcbiGenes.Genes.Selected | common/db_parsers/ncbi_gene.py:463-467 | a selector fails only with ValueError (a gene id that is not an integer) or KeyError (an unknown id or name) |
| NcbiGenes.Genes.RecordByGeneId | common/db_parsers/ncbi_gene.py:463-465 | a gene id selects a record exactly when it is in the table, the record with that id; otherwise KeyError |
| NcbiGenes.Genes.RecordByName | common/db_parsers/ncbi_gene.py:466-470 | with separated names, a symbol or any of its aliases selects the symbol's gene |
| NcbiGenes.FormatIdListIsEnumeration | common/db_parsers/ncbi_gene.py:496-510 | `format_id_list` gives '' for no names, the name for one, and "a, b and c" otherwise |
| NcbiGenes.WarningMsgsKept | common/db_parsers/ncbi_gene.py:512-531 | one message per warning whose type is not excluded, in order, each the type's format filled with the name and the formatted aliases; IndexError exactly when a kept type has no format |
| NcbiGenes.DefaultWordingCovers | common/db_parsers/ncbi_gene.py:512-531 | with the default exclusions and formats, warnings of the four types always get messages |
| NcbiGenes.MessageNamesId | common/db_parsers/ncbi_gene.py:338-345 | each default message opens with its fixed text followed by the identifier |
| Bri.BoldSearch | common/db_parsers/bri.py:166-167 | the leftmost position where the bold-tag pattern matches; none before it |
| Bri.BoldTerm | common/db_parsers/bri.py:166-171 | the captured term contains no '<' |
| Bri.CodeSearch | common/db_parsers/bri.py:207-209 | the leftmost position where the code pattern matches; none before it |
| Bri.CodeLine | common/db_parsers/bri.py:207-211 | no match exactly when the pattern matches nowhere; otherwise a five-digit id and a name that starts after the whitespace and stops at the end of the line |
| Bri.ErrorPersists | common/db_parsers/bri.py:154-223 | once a prefix of the file fails, the whole file fails with that error |
| Bri.LoadConsistent | common/db_parsers/bri.py:144-223 | the tables read are consistent: the root is known, every parent is a known term, the named terms are the typed terms and all have parents, every indexed id is named, and the breadcrumb holds at most an A and a B term |
| Bri.LoadTracks | common/db_parsers/bri.py:149-201 | the reader's breadcrumb and counters follow the lines read: the last A term, the last B term since it, and the numbers of A and B lines |
| Bri.BoldLineRead | common/db_parsers/bri.py:159-181 | an A line with a bold term makes the term a child of the root, resets the breadcrumb to it, and types it "A<n>" for the n-th such line |
| Bri.BLineRead | common/db_parsers/bri.py:183-201 | a B line fails with IndexError exactly when no A line came before; otherwise its stripped term is a child of the last A term, whatever B lines came between, and is typed "B<n>" for the n-th B line |
| Bri.CLineRead | common/db_parsers/bri.py:203-221 | a C line that does not match is an AttributeError, one before any A line an IndexError; otherwise its id and name are both children of the innermost open term, the id is named by the name, typed "C" and appended to the index |
| Bri.WalkShape | common/db_parsers/bri.py:243-250 | a walk visits its start and the terms whose parent edge it follows; every edge links a visited term to its parent, which is visited or the root |
| Bri.WalkOfTerm | common/db_parsers/bri.py:246-247 | when every term but the root has a known parent, a walk fails only by running out of steps |
| Bri.ClosureShape | common/db_parsers/bri.py:225-252 | the closure holds the given terms; every visited term but the root has its parent edge, and the edges are exactly those |
| Bri.ClosureOfTerms | common/db_parsers/bri.py:243-250 | starting from known terms, the closure fails only by running out of steps |
| Bri.ClosureErrorPersists | common/db_parsers/bri.py:243-250 | once the walks of a prefix of the terms fail, the closure fails the same way |
| Bri.KeggOntology.Empty | common/db_parsers/bri.py:129-133 | the fields as set before the file is read: empty index, name and type tables, no namespace |
| Bri.KeggOntology.FinishInit | common/db_parsers/bri.py:134-138 | stores the parent dictionary and URL formats, and makes term2index the inverse of the index; the object becomes valid |
| Bri.KeggOntology.LoadBrite | common/db_parsers/bri.py:140-223 | the reading loop fills the index, name and type tables and returns the parent dictionary exactly as the reference reader does, or its error |
| Bri.KeggOntology.WalkUp | common/db_parsers/bri.py:244-250 | the inner loop follows parents from the start to the root, and its result is the reference walk |
| Bri.KeggOntology.TransitiveClosure | common/db_parsers/bri.py:225-252 | the given terms and every term and edge on their walks up to the root, as the reference closure gives them |
| Bri.KeggOntology.GetTerm | common/db_parsers/bri.py:254-274 | an AssertionError exactly when neither or both of id and index are given; an out-of-range index is an IndexError; otherwise the term's name, type, namespace "KEGG Pathways", prefix and URL formats, for the id given or the id at the index (negative indices count from the end) |
| Bri.KeggOntology.TermByIndex | common/db_parsers/bri.py:262-263 | an index in range selects the same term as the id at that position |
| Bri.KeggOntology.TermIndexInverts | common/db_parsers/bri.py:137-138 | term2index holds exactly the indexed terms, and the position it records selects that term |
| Bri.KeggOntology.ClosureOfKnownTerms | common/db_parsers/bri.py:225-252 | in a valid ontology the closure of known terms fails only by running out of steps |
| Bri.NewKeggOntology | common/db_parsers/bri.py:116-138 | an error exactly when the reader fails; otherwise a fresh valid object holding what the reader read and the given prefix and URL formats |
| Obo.Unescaped | common/db_parsers/obo.py:121-177 | the unescaped text never keeps a line break, since the last rule deletes them all |
| Obo.ReplaceEscapeChars | common/db_parsers/obo.py:173-177 | the loop applies the replacements in list order and yields the reference unescaping |
| Obo.PlainUnescaped | common/db_parsers/obo.py:121-177 | text with no backslash and no line break is left as it is |
| Obo.EscapedBackslashBeforeN | common/db_parsers/obo.py:121-177 | the rules act in sequence, not as one decoder: an escaped backslash followed by `n` becomes a line break escape whose break the last rule deletes, leaving one backslash |
| Obo.HeaderOf | common/db_parsers/obo.py:136-194 | a header exactly when the line starts with '[' and has a later ']' with at least one character between |
| Obo.HeaderShape | common/db_parsers/obo.py:136-194 | a stanza name is the non-empty text between the leading '[' and the first ']' |
| Obo.TagValue | common/db_parsers/obo.py:198-199 | a ValueError exactly when the line has no ': '; otherwise the tag is the text before the first ': ' and the value is the rest cut at its first ' ! ' |
| Obo.TagValueRoundTrip | common/db_parsers/obo.py:198-199 | a written tag-value line reads back as its tag and its value with the line break |
| Obo.StanzaBody | common/db_parsers/obo.py:179-202 | the reader resumes after where it started, after the header when there is one, and at the end of the file otherwise |
| Obo.BodyStep | common/db_parsers/obo.py:183-200 | each line is skipped when blank or a comment, ends the body when a header, fails when it has no ': ', and otherwise puts its pair in front of the rest |
| Obo.ParseStanzaBody | common/db_parsers/obo.py:179-202 | the reading loop gives the reference body: the pairs up to the next header or the end, or the first bad line's error |
| Obo.StanzaBodyRoundTrip | common/db_parsers/obo.py:179-202 | pairs written as lines and followed by a header read back pair by pair, and reading stops after the header |
| Obo.LastIndexOf | common/db_parsers/obo.py:137 | the position of the last occurrence of the character, or none when it does not occur |
| Obo.QuotedText | common/db_parsers/obo.py:137-213 | the match holds no line break and sits between the opening quote and a closing one at the front of the value |
| Obo.QuotedRoundTrip | common/db_parsers/obo.py:137-217 | a quoted definition followed by references reads back as its text, quotes inside it included |
| Obo.NewStanza | common/db_parsers/obo.py:249-250 | a stanza starts with its record type, no raw lines, no fields, relationships or transitive types, and not obsolete |
| Obo.ProcessTag | common/db_parsers/obo.py:205-258 | a handler keeps the record type and the transitive types already recorded; an unhandled tag is appended as a raw line and nothing else changes; a handled one leaves raw lines alone; the error cases are exactly a relationship of fewer than two words and a true `is_transitive` before `id` |
| Obo.ProcessTagAsWritten | common/db_parsers/obo.py:224-233 | as written, `transitive_over` stores the raw value, and the other tags behave as in the corrected handlers |
| Obo.TransitiveOverMatchesRelationship | common/db_parsers/obo.py:230-239 | the type stored by `transitive_over: T` is the type `relationship: T id` records |
| Obo.TransitiveOverKeepsLineBreak | common/db_parsers/obo.py:230-238 | as written, the line `transitive_over: part_of` with no ` ! ` comment stores "part_of" with its line break, which differs from what `relationship: part_of GO:1` records |
| Obo.IsTransitiveOnlyTrue | common/db_parsers/obo.py:224-228 | `is_transitive` adds the typedef's own id exactly when its value reads `true` |
| Obo.IsTransitiveFalseAsWritten | common/db_parsers/obo.py:224-228 | as written, `is_transitive: false` marks the typedef transitive |
| Obo.ObsoleteOnlyTrue | common/db_parsers/obo.py:241-244 | `is_obsolete` marks the stanza only for the value `true`, and never clears the mark |
| Obo.DefStored | common/db_parsers/obo.py:209-217 | a definition stores the unescaped quoted text, and the empty text when there is no quote |
| Obo.IsARecorded | common/db_parsers/obo.py:219-222 | `is_a: id` records the stripped parent id as an is_a relationship |
| Obo.ProcessTags | common/db_parsers/obo.py:253-258 | applying the pairs in order keeps the record type and never loses a transitive type |
| Obo.RawLinesKept | common/db_parsers/obo.py:253-258 | raw_lines keeps exactly the pairs without a handler, in file order |
| Obo.ErrorStays | common/db_parsers/obo.py:253-256 | once a prefix of the pairs fails, the stanza fails with that error |
| Obo.NextRecord | common/db_parsers/obo.py:247-259 | the record has the stanza's name as its type, and reading moves on past the header that ends it |
| Obo.GetNextRecord | common/db_parsers/obo.py:247-259 | reading the body and handling its pairs gives the reference record |
| Obo.ProcessPairs | common/db_parsers/obo.py:253-258 | the handler loop gives the reference result of the pairs in order, stopping at the first error |
| Obo.Store | common/db_parsers/obo.py:268-273 | a KeyError exactly for a term or typedef without an id; a term is stored under its id, which is removed from its fields; other stanzas change nothing; no stored key is lost and the tables stay valid |
| Obo.Loaded | common/db_parsers/obo.py:264-273 | the stanza loop keeps the tables valid and never loses a stored key |
| Obo.LoadedFile | common/db_parsers/obo.py:262-273 | a file read from its header stanza gives valid tables |
| OboOntology.IsAParents | common/db_parsers/obo.py:294-297 | every `is_a` target in the relationship list is among the parents |
| OboOntology.ReachStep | common/db_parsers/obo.py:289-297 | reachability along `is_a` goes one step further |
| OboOntology.ReachUnique | common/db_parsers/obo.py:287-297 | what a typedef reaches is determined by the typedef |
| OboOntology.ExpansionExclusive | common/db_parsers/obo.py:281-297 | expansion either succeeds or fails, never both |
| OboOntology.ExpansionInherits | common/db_parsers/obo.py:284-297 | after expansion a typedef keeps its own transitive types and inherits those of its `is_a` parents, which are typedefs |
| OboOntology.GatheredCurrent | common/db_parsers/obo.py:284-293 | although the loop reads typedefs it has already expanded, gathering over a closed set of ids gives the same types from the current and the original table |
| OboOntology.Ontology.Empty | common/db_parsers/obo.py:151-157 | the fields as set before the file is read: empty tables and index, not fully parsed, the given URL format |
| OboOntology.Ontology.GetTerm | common/db_parsers/obo.py:41-171 | an AssertionError when neither or both of id and index are given; an out-of-range index is an IndexError; otherwise the stored record of the id given or at the index, with its relationships and its key from term2index |
| OboOntology.Ontology.TermOf | common/db_parsers/obo.py:169-171 | a term found by id carries that id, its stored record and its relationships |
| OboOntology.Ontology.GetTermById | common/db_parsers/obo.py:162-171 | a lookup by id reads that id's record |
| OboOntology.Ontology.GetTermAtIndex | common/db_parsers/obo.py:167-169 | a lookup by a valid index reads the record of the id stored there |
| OboOntology.Ontology.GetTermByKey | common/db_parsers/obo.py:49-276 | a term found by id is found again at its key |
| OboOntology.Ontology.KeyOrder | common/db_parsers/obo.py:60-276 | keys order terms as their ids: equal keys mean equal ids, and a smaller key a smaller id |
| OboOntology.Ontology.ParseEntireFile | common/db_parsers/obo.py:262-279 | on success the terms are those the stanza reader stores, the typedefs are their expansion, and the object is valid and fully parsed; a failure comes from the reader or from an `is_a` target that is not a typedef |
| OboOntology.Ontology.BuildIndex | common/db_parsers/obo.py:275-276 | the index is the sorted term ids and term2index its inverse |
| OboOntology.Ontology.ReadStanzas | common/db_parsers/obo.py:264-273 | the stanza loop stores exactly the tables the reference reader gives, or fails where it fails |
| OboOntology.Ontology.ExpandedValid | common/db_parsers/obo.py:281-297 | expansion keeps the typedef table well formed |
| OboOntology.Ontology.ExpandTypedefs | common/db_parsers/obo.py:281-297 | each typedef gains the transitive types of everything it reaches along `is_a`, or expansion fails exactly when it reaches an id that is not a typedef (KeyError) |
| OboOntology.Ontology.Ancestors | common/db_parsers/obo.py:287-297 | the inner loop gives the ids a typedef reaches and the union of their types, or a failure only when a reached id is not a typedef |
| OboOntology.Ontology.AddIsAParents | common/db_parsers/obo.py:294-297 | the `is_a` parents of a relationship list join the ids to visit |
| OboOntology.Ontology.TransitiveClosure | common/db_parsers/obo.py:300-325 | fails exactly when a start or reached term or a needed typedef is missing; otherwise the ids reached along followed relationships and the edges followed |
| OboOntology.Ontology.Worklist | common/db_parsers/obo.py:312-323 | the worklist loop visits until nothing is left and gives the reached ids and edges, or fails exactly when the closure does |
| OboOntology.Ontology.StartClosure | common/db_parsers/obo.py:307-310 | succeeds exactly when every start term exists, with their relationships as work and their edges |
| OboOntology.Ontology.FollowRels | common/db_parsers/obo.py:319-323 | a relationship is followed when it or the one that led here is `is_a`, or the typedef that led here is transitive over it; a missing typedef fails |
| OboOntology.Ontology.ClosureFollowsIsA | common/db_parsers/obo.py:319-323 | along `is_a` the closure goes all the way up: an `is_a` parent of a visited id is visited |
| OboOntology.Ontology.CompareTo | common/db_parsers/obo.py:86-115 | 0 for equal keys; otherwise 1 when the other term is in this term's closure, -1 when this term is in the other's, and no order when neither is; a closure that fails makes the comparison fail |
| Gluelib.ReadEntry | common/pkg/gluelib.py:73-81 | an entry's name is the value of its last 'name' field; every other field is kept, a later repetition overriding an earlier one |
| Gluelib.Config2Dict | common/pkg/gluelib.py:70-84 | every entry's name is a key, and the last entry of a name gives that name's fields |
| Gluelib.Dict2Config | common/pkg/gluelib.py:86-102 | a KeyError exactly when some entry lacks one of the six fields; otherwise one entry per key in iteration order, holding the name and the six fields in their fixed order |
| Gluelib.ReadWritten | common/pkg/gluelib.py:86-102 | an entry written by `dict2config` reads back as its name and fields |
| Gluelib.Config2DictOfDict2Config | common/pkg/gluelib.py:70-102 | reading back what `dict2config` wrote gives the original dictionary when every entry has exactly the six written fields |
| Gluelib.ReadBackAll | common/pkg/gluelib.py:70-84 | entries that read back the dictionary in its iteration order give the dictionary again when each entry has exactly the six fields |
| Gluelib.CalculateNode2Dependents | common/pkg/gluelib.py:104-114 | the inverse of the prerequisite relation: n is listed under d exactly when n is a node with prerequisite d, and no listed set is empty |
| Gluelib.DepGraph.constructor | common/pkg/gluelib.py:148-203 | the graph before the product is visited: every counter at 0, each node's dependents those the database records for it, empty order and visited list |
| Gluelib.DepGraph.VisitNode | common/pkg/gluelib.py:264-287 | a node on the call chain is the cycle Exception and changes nothing; an unknown node is a KeyError; on success the node is in the order, which stays a topological order without repetitions in which every node comes after its prerequisites; every visit but those of the product raises the node's counter by one |
| Gluelib.DepGraph.VisitPrereqs | common/pkg/gluelib.py:282-287 | the prerequisites are visited in order, stopping at the first failure, and the node is appended after all of them |
| Gluelib.DepGraph.OrderExtends | common/pkg/gluelib.py:287 | appending a node whose prerequisites are all ordered keeps the order topological and free of repetitions |
| Gluelib.DepGraph.CalculateNewDependents | common/pkg/gluelib.py:212-224 | each ordered node gains as dependents exactly the ordered nodes that list it as a prerequisite; every other part of the state is unchanged |
| Gluelib.DependentsRecorded | common/pkg/gluelib.py:212-224 | afterwards every prerequisite of an ordered node is known and counts that node among its dependents, and no node lost a dependent |
| Gluelib.AddedAreNew | common/pkg/gluelib.py:216-222 | the inverted map restricted to the order gives exactly the new dependents |
| Gluelib.DepGraph.GetStatus | common/pkg/gluelib.py:320-339 | an unknown node is a KeyError; a node missing from the database is not present; an installed node is out of date exactly when its age in days has reached the lifetime (30 unless configured), and current otherwise |
| Gluelib.DepGraph.Remove | common/pkg/gluelib.py:461-474 | without force, a product with dependents is a DependencyError that changes nothing; otherwise its record leaves the database and the file list keeps only the files that still exist |
| EtermLayout.Magic32 | common/db_parsers/etermdb.py:68 | the magic number is written as four little-endian bytes that read back as the number taken modulo 2^32, so a negative magic is stored as its u32 wrap-around |
| EtermLayout.CountedTextsRoundTrip | common/db_parsers/etermdb.py:70 | a string list written with its count reads back as the same list and leaves the bytes after it untouched |
| EtermLayout.HeaderRoundTrip | common/db_parsers/etermdb.py:56-70 | the header (`EXTERMDB`, the ETD magic, the database name, the counted namespace names) reads back as the magic modulo 2^32, the name and the namespaces, with the following bytes untouched |
| EtermLayout.Flat | common/db_parsers/etermdb.py:104-105 | the hit lists written back to back hold as many numbers as the counts written before them add up to |
| EtermLayout.Regroup | common/db_parsers/etermdb.py:102-105 | cutting the flat numbers by the written counts gives lists of exactly those lengths |
| EtermLayout.RegroupFlat | common/db_parsers/etermdb.py:102-105 | cutting the flat hit lists by their own lengths gives the hit lists back |
| EtermLayout.ZipUnzips | common/db_parsers/etermdb.py:108-115 | pairing the parent column with the edge-type column, term by term, gives back the relationship lists |
| EtermLayout.ExactlyRoundTrip | common/db_parsers/etermdb.py:100-105 | reading n little-endian u32 values from n written values gives them back and leaves the rest |
| EtermLayout.SectionRoundTrip | common/db_parsers/etermdb.py:73-116 | a well-formed namespace section (equal-length term columns, values below 2^32, NUL-free strings) reads back as the magic modulo 2^32 and the same section, and the bytes after it are untouched |
| EtermLayout.WriteNamespace | common/db_parsers/etermdb.py:73-116 | the bytes written are the section layout: separator, magic, edge types, M, flags, hit counts, hits, ids, descriptions, parent counts, parents, edge types, metadata |
| EtermLayout.WriteLengths | common/db_parsers/etermdb.py:102-103 | the loop writes the length of every list, in order, as u32 |
| EtermLayout.WriteItems | common/db_parsers/etermdb.py:104-105 | the loop writes every element of every list, in order, as u32 |
| EtermLayout.WriteRelationColumn | common/db_parsers/etermdb.py:110-115 | the loop writes the parent indices (or the edge-type indices) of every relationship of every term, in order |
| EtermHits.FilterTerm2Hits | common/db_parsers/etermdb.py:119-121 | exactly the terms with more than one hit are kept, with their hits unchanged |
| EtermHits.FilterIdempotent | common/db_parsers/etermdb.py:119-121 | filtering twice is filtering once |
| EtermHits.GroupedMeaning | common/db_parsers/etermdb.py:124 | the dictionary of sets built from (term, hit) pairs has a key for exactly the terms of some pair, and its set for a term holds exactly that term's hits |
| EtermHits.GroupedAdd | common/db_parsers/etermdb.py:141 | adding one hit to the defaultdict is grouping the pairs with that pair added |
| EtermHits.GatherMeaning | common/db_parsers/etermdb.py:126-141 | reading the file succeeds exactly when every line does; then the pairs are those given by some line; otherwise the error is that of a failing line |
| EtermHits.GatherPersists | common/db_parsers/etermdb.py:126-141 | once a prefix of the file fails, reading the whole file fails with the same error |
| EtermHits.FilteredGather | common/db_parsers/etermdb.py:119-142 | after filtering, term t holds hit i exactly when some line gives (t, i) and some line gives t another hit |
| EtermHits.ParseGoLine | common/db_parsers/etermdb.py:224-228 | a line starting with '#' is skipped; an empty line is an IndexError; a line with fewer than five tab-separated fields or a gene id that is not an integer is a ValueError; otherwise the gene id is the integer of field 1 |
| EtermHits.FilterCodes | common/db_parsers/etermdb.py:212-217 | with no filter codes, only IEA is filtered; otherwise exactly the given codes are |
| EtermHits.GoRowPairs | common/db_parsers/etermdb.py:230-235 | a NOT qualifier, a filtered evidence code, an unknown gene or an unknown term give no hit; otherwise the gene's index is a hit of every term the annotated term reaches |
| EtermHits.GoHitsMeaning | common/db_parsers/etermdb.py:210-236 | term t keeps gene i exactly when some line annotates i to t (directly or below it, not NOT, not filtered) and some line gives t another gene |
| EtermHits.GoTerm2Hits | common/db_parsers/etermdb.py:210-236 | the loop over the lines computes the filtered dictionary of the reference reading, and fails with the first failing line's error |
| EtermHits.GoStep | common/db_parsers/etermdb.py:224-235 | one line of the loop fails as that line does, or adds exactly that line's pairs to the dictionary |
| EtermHits.AddToAll | common/db_parsers/etermdb.py:234-235 | the inner loop adds the gene to the set of every term the annotated term reaches |
| EtermHits.ParseKeggLine | common/db_parsers/etermdb.py:128-137 | a line with fewer than two words, or a word without exactly one ':', fails; a first part other than "path" is an AssertionError; another organism's gene is skipped; otherwise the gene is the second part of the second word |
| EtermHits.KeggLine | common/db_parsers/etermdb.py:128-141 | a line gives at most one pair: the pathway without the organism prefix and the index the gene symbol maps to, and nothing when the symbol maps to no gene |
| EtermHits.KeggHitsMeaning | common/db_parsers/etermdb.py:123-142 | pathway t keeps gene i exactly when some line of the organism maps to i under t and some line gives t another gene |
| EtermHits.KeggTerm2Hits | common/db_parsers/etermdb.py:123-142 | the loop over the lines computes the filtered dictionary of the reference reading, and fails with the first failing line's error |
| EtermHits.KeggStep | common/db_parsers/etermdb.py:128-141 | one line of the loop fails as that line does, or adds exactly that line's pair to the dictionary |
| Bri.FormatId | common/db_parsers/bri.py:78-96 | a pathway is shown as `KEGG:` with the organism prefix and its number, a TypeError when there is no prefix; a higher level term as `KEGG:` and its type |
| EtermKegg.EntryOf | common/db_parsers/etermdb.py:167-179 | a term's first-pass entry has flag 0 for a pathway and 1 above, its hits sorted, its name and its parent; an unknown term, a pathway without an organism prefix or a missing parent raises |
| EtermKegg.LinkOf | common/db_parsers/etermdb.py:182-186 | no parent gives no relationship; a parent gives one `is_a` link to its position, and a KeyError when it has none |
| EtermKegg.KeggSectionMeaning | common/db_parsers/etermdb.py:145-189 | entry 0 is the root (flag 2, id `KEGG:Pathway`, no hits, no parent); entry k + 1 is term k with flag 0 for a pathway and 1 above, increasing hits equal to its hit set, its name, and a single `is_a` link to the position of its parent when it has one |
| EtermKegg.KeggLinksResolve | common/db_parsers/etermdb.py:155-186 | when the terms are the closure of keys other than the root and every entry is built, the second pass always succeeds: each parent is in the closure or is the root |
| EtermKegg.KeggProcessNamespace | common/db_parsers/etermdb.py:145-189 | a failing closure is returned as its error; otherwise the terms are the closure's, once each, and the result is the reference section of that order |
| EtermKegg.FirstPass | common/db_parsers/etermdb.py:157-179 | the loop builds the root entry and then every term's entry in order, with each term's position recorded, and stops with the first term's error |
| EtermKegg.EnterTerm | common/db_parsers/etermdb.py:168-178 | one iteration of the first pass gives the term's reference entry or its error |
| EtermKegg.SecondPass | common/db_parsers/etermdb.py:182-186 | the loop gives every entry's links in order, or the KeyError of the first parent without a position |
| EtermGo.NsTerms | common/db_parsers/etermdb.py:250-251 | the keys kept are exactly those whose term lies in the namespace, in order; the list fails exactly when some key has no term |
| EtermGo.EntryOf | common/db_parsers/etermdb.py:257-268 | a term's first-pass entry holds its sorted hits, its id, its name, and its relationships turned to (parent, edge type); it fails exactly when the term cannot be read |
| EtermGo.EdgeTypes | common/db_parsers/etermdb.py:265-267 | the edge types gathered are exactly the types of the relationships of the entries |
| EtermGo.IndexRels | common/db_parsers/etermdb.py:275-276 | the positions of a term's relationships are built exactly when every parent and edge type has a position, and relationship n becomes the pair of those positions |
| EtermGo.GoSectionMeaning | common/db_parsers/etermdb.py:239-280 | one entry per term, flag 0, increasing hits equal to its hit set, its id and name; the edge types are sorted and include every relationship's type; relationship n of term k is stored as the positions of its parent and of its edge type |
| EtermGo.GoLinksResolve | common/db_parsers/etermdb.py:271-277 | once the entries are built, the second pass succeeds exactly when every parent is among the terms, and otherwise raises KeyError |
| EtermGo.LinksResolve | common/db_parsers/etermdb.py:271-277 | over any entries, the second pass succeeds exactly when their parents are among the terms, and otherwise raises KeyError |
| EtermGo.KeyErrorOnly | common/db_parsers/etermdb.py:275-276 | resolving a list of relationships raises nothing but KeyError |
| EtermGo.GoProcessNamespace | common/db_parsers/etermdb.py:239-280 | a key without a term raises its error; a failing closure fails; otherwise the terms are the closure of the namespace's keys, once each, and the result is the reference section of that order |
| EtermGo.GoFirstPass | common/db_parsers/etermdb.py:255-269 | the loop builds every term's entry in order, records the positions and gathers the edge types, and stops with the first term's error |
| EtermGo.EnterGoTerm | common/db_parsers/etermdb.py:257-268 | one iteration gives the term's reference entry, and adds exactly its relationships' types to the edge types |
| EtermGo.GoSecondPass | common/db_parsers/etermdb.py:272-277 | the loop gives every entry's relationship positions in order, or the first error |
| EtermGo.Kept | common/db_parsers/etermdb.py:264-268 | the relationships kept are exactly those whose parent has a position |
| EtermGo.GoSectionKeptResolves | common/db_parsers/etermdb.py:271-277 | with the unreached parents left out, the section is built whenever every term has a record |
| EtermGo.GoSectionKeptAgrees | common/db_parsers/etermdb.py:271-277 | leaving out unreached parents changes nothing whenever the section as written is built |
| EtermGo.UnfollowedParentRaises | common/db_parsers/etermdb.py:252-277 | A part_of B, B regulates C: the closure of A succeeds with A and B only, yet the section as written raises KeyError for every order of the terms, while the intended one is built |
| Wrappers.Collect | common/db_parsers/etermdb.py:256-277 | a loop that appends values and stops at the first exception gives all values in order, or the error of some element |
| Wrappers.CollectPersists | common/db_parsers/etermdb.py:256-277 | once a prefix holds an error, the whole list gives that error |
| Indexing.Arrange | common/db_parsers/etermdb.py:256 | iterating over a set visits each element exactly once |
| Indexing.EnumeratedNext | common/db_parsers/etermdb.py:259 | recording the position of the next element of a list keeps the dictionary equal to that of the prefix |
| Ordering.SortedNats | common/db_parsers/etermdb.py:261 | `sorted` of a set of numbers is increasing and holds exactly its elements |
| Validators.IntValidator | web/validators.py:31-44 | a digit string is accepted and clamped into [xmin, xmax]: below gives xmin, above gives xmax, inside gives its value; anything else is a ValidationError |
| Validators.IntValidatorIdempotent | web/validators.py:31-44 | validating the decimal text of an accepted value gives that value again |
| Validators.HashValidator | web/validators.py:46-51 | the text is returned unchanged exactly when it reads as a hexadecimal integer, else ValidationError |
| Validators.HexTextValid | web/validators.py:46-51 | every `'%x'` rendering of an integer passes the hash validator |
| Validators.FloatValidator | web/validators.py:53-66 | a parsed number inside [xmin, xmax] is returned; an unparsable one is a ValidationError, one outside the range an OutOfRangeError |
| Validators.DfValidator | web/validators.py:75-79 | the damping factor is one minus the validated dissipation, so it lies in [1 - xmax, 1 - xmin]; errors are the float validator's |
| Validators.DaValidator | web/validators.py:81-92 | a non-negative number is returned; a negative one is OutOfRangeError, an unparsable one ValidationError |
| Validators.DfcritValidator | web/validators.py:68-73 | exactly df, da, dr and ap are accepted, unchanged |
| Validators.ChosenDamping | web/validators.py:106-111 | the damping entry is the field the criterion names (df, da or dr), none for ap, KeyError when that field is missing |
| Validators.ContextGroupValidator | web/validators.py:95-116 | no sources and no sinks gives no context; both give `context<n>` with the nodes and the chosen damping; exactly one side is a PathwayError |
| Validators.TokenizeProteinList | web/validators.py:118-124 | the tokens are non-empty and free of separators, and there are none exactly when the text is all separators |
| Validators.TokenizeJoined | web/validators.py:118-124 | separator-free names listed with any separator between them tokenize back to the same list |
| Validators.WordsJoined | web/validators.py:124 | `split()` of words joined by single spaces gives the words back |
| Validators.ProteinListValidator | web/validators.py:127-133 | the tokens are validated with unknown names refused: the first name without a node raises BadIdentifier, otherwise the nodes of the usable names are returned |
| Validators.AntisinkMapValidator | web/validators.py:135-145 | the map holds exactly the valid nodes of the tokens, each at 0.0, unknown names being ignored |
| Validators.FindInputOption | web/validators.py:149-167 | an allowed value gives `(allowed[v], v)`; otherwise a truthy default; otherwise ValidationError for a present key and InsufficientArgsError for a missing one |
| Network.FirstIn | web/ITMProbe/network.py:104-108 | the result is a tested name that is a graph node |
| Network.FirstInNone | web/ITMProbe/network.py:104-109 | there is no result exactly when no tested name is a graph node |
| Network.FirstInIsFirst | web/ITMProbe/network.py:104-108 | every name tried before the one found is not a node |
| Network.ProbeNetwork.NodeOf | web/ITMProbe/network.py:98-109 | no gene gives no node; a node found is a graph node |
| Network.ProbeNetwork.NodeOfTested | web/ITMProbe/network.py:101-108 | a node found is one of the names tried for the gene |
| Network.ProbeNetwork.Found | web/ITMProbe/network.py:118-119 | each name leads to the node of its gene, a graph node, or to none |
| Network.ProbeNetwork.GetNetworkNode | web/ITMProbe/network.py:98-109 | the search loop returns the first tested name that is a graph node, or none |
| Network.ValidIds | web/ITMProbe/network.py:118-121 | the valid ids are nodes the names lead to, at most one per name |
| Network.ValidIdsFound | web/ITMProbe/network.py:118-121 | every valid id is the node of one of the names |
| Network.ProbeNetwork.ValidIdsAreNodes | web/ITMProbe/network.py:118-121 | the valid ids are graph nodes |
| Network.FirstMissing | web/ITMProbe/network.py:122-129 | the result is the first name without a node, every earlier name having one; none when all have one |
| Network.ProbeNetwork.LookUp | web/ITMProbe/network.py:116-118 | the node of every name, as `get_network_node` finds it |
| Network.Scan | web/ITMProbe/network.py:115-136 | the loop over the names gives the valid ids and the warnings in order, or stops at the first name without a node when unknown names are refused |
| Network.ProbeNetwork.RecordWarnings | web/ITMProbe/network.py:137-139 | the message of every warning, worded for the form field, is appended after the old ones |
| Network.ProbeNetwork.ValidateEntries | web/ITMProbe/network.py:115-141 | with unknown names refused, the first name without a node raises BadIdentifier and no message is recorded; otherwise the valid ids are returned and the messages of the warnings are appended after the old ones |
| Network.ProbeNetwork.ValidateSymbols | web/ITMProbe/network.py:111-141 | the same, for the entries `map_symbols` gives the names |
| Network.NothingSilentlyDropped | web/ITMProbe/network.py:118-136 | every name contributes a node, a warning or both |
| Network.ProbeNetwork.RepeatsAddNothing | web/ITMProbe/network.py:120-121 | a name repeating a gene named earlier adds no node |
| Network.ProbeNetwork.MessagesNameField | web/ITMProbe/network.py:41-51 | every recorded message starts with the form field and a colon |
| Network.BadIdentifierNamesField | web/ITMProbe/network.py:129-133 | the BadIdentifier message starts with the form field and a colon |
| Network.PairCountsCount | web/ITMProbe/network.py:167-176 | a pair has a counter exactly when one of its positive entries exists, and the counter is their number |
| Network.CountIsDirections | web/ITMProbe/network.py:178-185 | for two distinct nodes the count is the number of directions with a positive link, so `d` means one direction and `u` both |
| Network.SelfLoopOnce | web/ITMProbe/network.py:167-176 | a positive self-loop is counted once, so it is written `d` |
| Network.CountPairs | web/ITMProbe/network.py:167-176 | the counting loop gives the pair counts of the entries |
| Network.SifLines | web/ITMProbe/network.py:178-185 | one line per counted pair, with the gene ids of its nodes and `d` exactly for a count of 1 |
| Network.ToSif | web/ITMProbe/network.py:160-185 | the counts of the entries and one line per counted pair, every line belonging to a pair |
| Text.ParseFloatDigits | web/validators.py:59 | `float` of a string of digits is the number the digits denote |
| FormValues.MakeSelector | web/ITMProbe/display_opts.py:35-42 | the attribute part of a selector is present exactly when its value is non-empty, and then holds the value, name and tag |
| FormValues.DictOf | web/ITMProbe/rendering.py:72 | `dict(pairs)` has exactly the keys of the pairs, and a key that is not repeated later maps to its own value |
| FormValues.DictOfFrom | web/ITMProbe/rendering.py:77 | every entry of `dict(pairs)` is one of the pairs |
| FormValues.Pick | web/ITMProbe/rendering.py:72-79 | a form value among the options gives its meaning; a missing or unknown one gives the first option; either way the result is one of the options |
| Rendering.BrewerColormaps | web/ITMProbe/rendering.py:33-39 | the eleven preferred Brewer maps, in order, each with the number of colours appended |
| Rendering.RenderingSettings.CgiArgs | web/ITMProbe/rendering.py:69-81 | the scaling and colour map are the ones the form names, else the first offered; each is one of the offered choices |
| Rendering.RenderingSettings.GetUrlArgs | web/ITMProbe/rendering.py:83-88 | the url arguments gain the option's form value and the chosen scaling's and colour map's form values; nothing else changes |
| Rendering.RenderingSettings.Validate | web/ITMProbe/rendering.py:90-97 | the data column, colour map and scaling are written, colours are mixed exactly when the colour map is none, the extra arguments override, and other arguments are kept |
| Rendering.OneColorMaps | web/ITMProbe/rendering.py:107-108 | each Brewer map of 8 colours is offered under its lower-case name |
| Rendering.OneColorRendering | web/ITMProbe/rendering.py:102-110 | logarithmic then linear scaling, and the Brewer maps of 8 colours |
| Rendering.MixedColorsRendering | web/ITMProbe/rendering.py:112-120 | square-root then linear scaling, and the single CMY mixture with no colour map |
| Rendering.OneColorNeverMixed | web/ITMProbe/rendering.py:90-110 | a one-colour option never mixes colours, whatever the form holds |
| Rendering.MixtureAlwaysMixed | web/ITMProbe/rendering.py:90-120 | the mixture option always mixes colours, whatever the form holds |
| Rendering.ColormapNamesDistinct | web/ITMProbe/rendering.py:33-39 | the lower-case form values of the Brewer maps differ from each other |
| Rendering.DictOfDistinct | web/ITMProbe/rendering.py:77 | with keys that differ, `dict` maps each key to its own value |
| Rendering.EveryColormapChoosable | web/ITMProbe/rendering.py:75-81 | every Brewer map offered is chosen when the form names its lower-case name |
| SelectionCriteria.SelectionSettings.MasterOptionData | web/ITMProbe/selection_criteria.py:42-60 | the cutoff field and its label are made visible exactly when the criterion uses a cutoff, hidden otherwise |
| SelectionCriteria.SelectionSettings.Validate | web/ITMProbe/selection_criteria.py:62-76 | the participation-ratio flag is written; a cutoff criterion fails with KeyError on a missing cutoff and ValueError on an unreadable one, else stores the number and shows the field; the master option is recorded |
| SelectionCriteria.PresetsBehave | web/ITMProbe/selection_criteria.py:79-86 | the ratio and node-count presets always succeed without a cutoff, and only the cutoff preset reads one |
| SelectionCriteria.CutoffDigitsAccepted | web/ITMProbe/selection_criteria.py:68-72 | a cutoff typed as a whole number is stored as that number |
| DisplayOpts.MaxNodes | web/ITMProbe/display_opts.py:89-92 | 40 when the form names no limit; digits are clamped into [1, 200]; anything else is a ValidationError |
| DisplayOpts.NeatoSeed | web/ITMProbe/display_opts.py:100-103 | 54321 when the form names no seed; digits are clamped into [0, 2^32 - 1]; anything else is a ValidationError |
| DisplayOpts.DisplayOptions.constructor | web/ITMProbe/display_opts.py:54-62 | the ranking attributes, criteria and renderings are kept, and the lists of form settings start empty |
| DisplayOpts.DisplayOptions.RankingChoice | web/ITMProbe/display_opts.py:66-68 | the chosen ranking is one of the ranking attributes |
| DisplayOpts.DisplayOptions.RankingDefaultIsFirst | web/ITMProbe/display_opts.py:66-68 | a ranking the form names is taken; a missing or unknown one gives the first ranking attribute |
| DisplayOpts.DisplayOptions.CriterionChoice | web/ITMProbe/display_opts.py:76-78 | the chosen criterion is one of the criteria, the one the form names, else the first |
| DisplayOpts.DisplayOptions.GetRankingAttr | web/ITMProbe/display_opts.py:64-72 | the chosen column orders the layout, its form value goes to the url, and its master option is recorded; nothing else changes |
| DisplayOpts.DisplayOptions.GetCriterion | web/ITMProbe/display_opts.py:74-85 | the chosen criterion validates the form; its master option is recorded even when validation fails, and on success its properties too |
| DisplayOpts.DisplayOptions.GetMaxNodes | web/ITMProbe/display_opts.py:87-96 | the node limit goes to the layout and the url and is shown on the form; a bad value fails with the form unchanged |
| DisplayOpts.DisplayOptions.GetNeatoSeed | web/ITMProbe/display_opts.py:98-107 | the seed goes to the layout program and the url and is shown on the form; a bad value fails with the form unchanged |
| DisplayOpts.MaxNodesStable | web/ITMProbe/display_opts.py:89-92 | the accepted limit, sent back as text, is accepted unchanged |
| DisplayOpts.NeatoSeedStable | web/ITMProbe/display_opts.py:100-103 | the accepted seed, sent back as text, is accepted unchanged |
| WebModels.Dissipate | web/ITMProbe/nchannel.py:65-74 | the damping parameters other than the one the criterion names become none, and every other argument is kept |
| WebModels.EmittingValidate | web/ITMProbe/emitting.py:76-95 | the criterion is consumed and leaves only its damping parameter; no source is an InsufficientSources error, more than six a TooManyBoundaries error |
| WebModels.AbsorbingValidate | web/ITMProbe/absorbing.py:73-92 | the criterion is consumed and leaves only its damping parameter; no sink is an InsufficientSinks error, more than six a TooManyBoundaries error |
| WebModels.ChannelValidate | web/ITMProbe/nchannel.py:58-87 | a missing criterion or node list is a KeyError; sources are checked before sinks, each needing one to six nodes; the two unchosen damping parameters become none |
| WebModels.ChannelKeepsOnlyChosen | web/ITMProbe/nchannel.py:65-74 | exactly the two damping parameters the criterion does not name are set to none |
| WebModels.EmittingKeepsOnlyChosen | web/ITMProbe/emitting.py:83-87 | the criterion `df` drops `da` and keeps `df`; `da` drops `df` and keeps `da` |
| WebModels.PerNodeRenderings | web/ITMProbe/emitting.py:108-116 | one rendering per node, the i-th with a data column and the form value `dc<i>` |
| WebModels.AddPerNode | web/ITMProbe/emitting.py:108-116 | the loop appends the per-node renderings and changes nothing else |
| WebModels.EmittingSetDisplaySettings | web/ITMProbe/emitting.py:97-116 | the emitting renderings are appended to the display options, which change nowhere else |
| WebModels.AbsorbingSetDisplaySettings | web/ITMProbe/absorbing.py:95-111 | the absorbing renderings are appended to the display options, which change nowhere else |
| WebModels.EmittingRenderingCount | web/ITMProbe/emitting.py:97-116 | more than one source adds interference first and one rendering per source; one source adds nothing |
| WebModels.AbsorbingRenderingCount | web/ITMProbe/absorbing.py:95-111 | more than one sink adds one rendering per sink, plus the colour mixture for two or three sinks |
| WebModels.PerNodeFormValuesDistinct | web/ITMProbe/emitting.py:108-116 | the per-node renderings have different form values, so each can be chosen |
| SaddleSumValidate.StrippedLines | web/SaddleSum/validate.py:58-61 | one stripped line per line of the pasted text |
| SaddleSumValidate.StripWithin | web/SaddleSum/validate.py:61 | stripping adds no character |
| SaddleSumValidate.StripIdempotent | web/SaddleSum/validate.py:61 | stripping twice strips nothing more |
| SaddleSumValidate.FixRawWeightsLines | web/SaddleSum/validate.py:58-61 | the normalised weights split back into exactly the stripped lines |
| SaddleSumValidate.FixRawWeightsIdempotent | web/SaddleSum/validate.py:58-61 | normalising normalised weights changes nothing |
| SaddleSumValidate.RawWeights | web/SaddleSum/validate.py:74-79 | the second text box when non-empty, else the first, normalised; empty when neither is given |
| SaddleSumValidate.TermDbChoice | web/SaddleSum/validate.py:68-71 | the named term database is taken exactly when it is an `.etd` file of the directory; a missing name is InsufficientArgsError, a bad one ValidationError |
| SaddleSumValidate.EvalueOpts | web/SaddleSum/validate.py:82-84 | `-e` with the E-value cutoff when given and in [0, 1]; nothing when absent |
| SaddleSumValidate.MinTermSizeOpts | web/SaddleSum/validate.py:87-90 | `-m` with the term size clamped into [1, 10^7] when given; nothing when absent; ValidationError for non-digits |
| SaddleSumValidate.EffectiveSizeOpts | web/SaddleSum/validate.py:93-97 | `-n` with the effective size only when it is positive and at most 10^16; nothing when absent or zero |
| SaddleSumValidate.Stats | web/SaddleSum/validate.py:100-102 | the statistics the form names when known, else `wsum` |
| SaddleSumValidate.TransformOpts | web/SaddleSum/validate.py:106-111 | `-t` with the transformation the form names, unless it is none |
| SaddleSumValidate.CutoffOpts | web/SaddleSum/validate.py:115-128 | no cutoff type is InsufficientArgsError, an unknown one ValidationError; `none` gives nothing, `rank` gives `-r` with a clamped rank, `wght` gives `-w` with a weight |
| SaddleSumValidate.FlagOpts | web/SaddleSum/validate.py:131-136 | `-d` and `-a` appear exactly when their keys are present, whatever their values |
| SaddleSumValidate.ValidateProgramArgs | web/SaddleSum/validate.py:64-138 | the term database and the option groups in order, or the first error met |
| SaddleSumValidate.TransformUnflagged | web/SaddleSum/validate.py:106-111 | the transformation group never passes `-d`, `-a` or `-n` |
| SaddleSumValidate.CutoffUnflagged | web/SaddleSum/validate.py:115-128 | the cutoff group never passes `-d`, `-a` or `-n` |
| SaddleSumValidate.FlagSources | web/SaddleSum/validate.py:82-136 | a flag is among the options exactly when the effective-size or flag group passes it |
| SaddleSumValidate.ProgramFlags | web/SaddleSum/validate.py:82-136 | `-d` and `-a` are passed exactly when their keys are present, `-n` exactly when a positive effective size is given |
| SaddleSumValidate.FirstOfFound | web/SaddleSum/validate.py:100-155 | `find_input_option(...)[0]` on a string default gives its first character |
| SaddleSumValidate.StatsAsWritten | web/SaddleSum/validate.py:100-102 | a known statistics name is taken as given |
| SaddleSumValidate.ImageFormatAsWritten | web/SaddleSum/validate.py:151-152 | a known image format is taken as given |
| SaddleSumValidate.ColormapAsWritten | web/SaddleSum/validate.py:154-155 | a known colour map is taken as given |
| SaddleSumValidate.DefaultsTruncated | web/SaddleSum/validate.py:100-155 | a form without these fields gets the one-letter settings `w`, `n` and `B`, none of which is valid |
| SaddleSumValidate.ImageFormat | web/SaddleSum/validate.py:151-152 | the image format the form names, `netmapsvg` otherwise, and always one of the two formats |
| SaddleSumValidate.Colormap | web/SaddleSum/validate.py:154-155 | the colour map the form names, `Blues8` otherwise, and always one of the offered maps |
| SaddleSumValidate.OutputFormat | web/SaddleSum/validate.py:145-148 | the output format the form names, `html` otherwise |
| SaddleSumValidate.ValidateOutputArgs | web/SaddleSum/validate.py:141-157 | a valid output format, image format and colour map, and a query id that passes the hash check |
| SaddleSumValidate.ValidateTermScoresArgs | web/SaddleSum/validate.py:159-182 | the stored query id must read as hexadecimal and name stored results, and the term id must be given; each failure has its own error |
| Render.GraphvizLayout.constructor | common/graphics/render.py:39-75 | the layout keeps the nodes, edges and attribute dictionaries it is given; a directed graph is a `digraph` with `->` edges, an undirected one a `graph` with `--` edges |
| Render.WriteAttrs | common/graphics/render.py:86-87 | the text of one attribute dictionary, each item as ` key=value,` in order |
| Render.WriteDefaults | common/graphics/render.py:83-88 | one block for each of `graph`, `node`, `edge` that the defaults name, in that order |
| Render.WriteNodes | common/graphics/render.py:91-97 | one line for each node with a non-empty attribute dictionary, in the order of the shown nodes, and nothing for the others |
| Render.WriteEdges | common/graphics/render.py:100-108 | one line per shown edge, in order, with an attribute bracket exactly when the edge has a non-empty dictionary |
| Render.GraphvizLayout.WriteLayoutDot | common/graphics/render.py:77-110 | the DOT text: the opening line, the default blocks, the node lines, the edge lines and the closing brace |
| Render.GraphvizLayout.LayoutLines | common/graphics/render.py:77-110 | without line breaks in names and attributes, the DOT text has two lines plus one per default block present, one per node with attributes and one per edge |
| Render.NodesLines | common/graphics/render.py:91-97 | the node lines are exactly as many as the shown nodes that have attributes |
| Render.EdgesLines | common/graphics/render.py:100-108 | the edge lines are exactly as many as the shown edges |
| Render.DefaultsLines | common/graphics/render.py:83-88 | one line per default block that the defaults name |
| Render.KeptLines | common/graphics/render.py:171-173 | the kept lines are the lines of neato's output that are not a closing brace, nothing else |
| Render.KeepLines | common/graphics/render.py:171-175 | the stored layout is neato's lines after the first, in order, without the closing brace lines |
| Render.KeptTextLines | common/graphics/render.py:171-175 | the stored layout is the concatenation of the kept lines |
| Render.GraphvizLayout.KeepLayout | common/graphics/render.py:170-175 | neato output without a first line is StopIteration and keeps the old layout; otherwise the layout becomes the kept lines after the first |
| Render.GraphvizLayout.WriteColoredDot | common/graphics/render.py:178-209 | the opening line, the given default blocks closed by ` ];`, the stored layout, the given node lines and the closing brace |
| Render.GraphvizLayout.SaveLayout | common/graphics/render.py:212-217 | the stored layout inside `G { ... }`, which is what the coloured writer writes with no colours and no defaults |
| Render.NoColors | common/graphics/render.py:212-217 | without node dictionaries no node line is written |
| Render.NoDefaults | common/graphics/render.py:212-217 | without defaults no default block is written |
| ItmGraphics.DiscretizeLinear | common/graphics/itm_graphics.py:43-46 | the linear bin factory fails with ZeroDivisionError exactly when there are no bins |
| ItmGraphics.DiscretizeSqrt | common/graphics/itm_graphics.py:49-52 | the square-root bin factory fails with ZeroDivisionError exactly when there are no bins |
| ItmGraphics.LinearEnds | common/graphics/itm_graphics.py:43-46 | the linear edges start at `a` for bin 0 and reach `b` at bin `num_bins` |
| ItmGraphics.LinearMonotone | common/graphics/itm_graphics.py:43-46 | with `a <= b` the linear edges never decrease with the bin number |
| ItmGraphics.SqrtEnds | common/graphics/itm_graphics.py:49-52 | the square-root edges start at a², reach b² at bin `num_bins` and are never negative |
| ItmGraphics.LogUpperEnds | common/graphics/itm_graphics.py:37-40 | the exponent of the logarithmic edges is `b` at bin `num_bins` and grows by `step` from one bin to the next |
| ItmGraphics.Digitize | common/graphics/itm_graphics.py:153 | the bin number of a value is at most the number of bin edges |
| ItmGraphics.DigitizeBrackets | common/graphics/itm_graphics.py:153 | for non-decreasing edges the bin number `i` brackets the value as `bins[i-1] <= x < bins[i]`, with the missing edge at either end left out |
| ItmGraphics.DigitizeMonotone | common/graphics/itm_graphics.py:153 | a larger value never gets a lower bin number |
| ItmGraphics.HexText | common/graphics/itm_graphics.py:197 | hexadecimal text is non-empty and uses only lower-case hexadecimal digits |
| ItmGraphics.HexTextValue | common/graphics/itm_graphics.py:197 | the hexadecimal text of n reads back as n, and is at most two digits below 256 |
| ItmGraphics.Hex2RoundTrip | common/graphics/itm_graphics.py:197 | `%.2x` of a byte value is exactly two digits that read back as the value |
| ItmGraphics.ColorTextRoundTrip | common/graphics/itm_graphics.py:197 | a colour with byte channels is written as nine characters, `"#`, three digit pairs that read back as red, green and blue, and a closing quote |
| ItmGraphics.Painted | common/graphics/itm_graphics.py:156-161 | after the paint loop the node dictionaries are keyed by exactly the shown nodes |
| ItmGraphics.PaintedNode | common/graphics/itm_graphics.py:195-203 | a node shown once holds its own fill colour and a white font exactly when its fill is dark, and nothing else |
| ItmGraphics.PaintNodes | common/graphics/itm_graphics.py:195-203 | the loop over the shown nodes builds the dictionaries that painting the nodes in order gives |
| ItmGraphics.OneColorDefaults | common/graphics/itm_graphics.py:140-150 | the one-colour defaults have the same three blocks as the mixed-colour defaults; they differ only in that the node block also names the colour scheme |
| ItmGraphics.Pick | common/graphics/itm_graphics.py:188-193 | red is always the first column; green is the third column if there is one, else full; blue is the second column if there is one, else full |
| ItmGraphics.Channels | common/graphics/itm_graphics.py:186 | one channel per column, each 255 less a bin number, so between 255 less the number of edges and 255 |
| ItmGraphics.ChannelMatrix | common/graphics/itm_graphics.py:184-186 | the new matrix has one row per node and one column per value column, and each entry is 255 less the value's bin number |
| ItmGraphics.MixedPaints | common/graphics/itm_graphics.py:195-203 | one paint per node |
| ItmGraphics.RenderMixedColor | common/graphics/itm_graphics.py:170-207 | fails (no picker bound) exactly when there are shown nodes and no value column; otherwise each shown node gets the fill its channels pick, with the mixed-colour defaults |
| ItmGraphics.MixedChannelsInRange | common/graphics/itm_graphics.py:184-197 | with at most 255 bin edges every picked channel is a byte |
| ItmGraphics.LowValuesWhite | common/graphics/itm_graphics.py:184-203 | a node whose values all lie below the first edge is filled white and keeps the black font |
| ItmGraphics.MixedDarkens | common/graphics/itm_graphics.py:186 | a larger value in a column never gives a brighter channel |
| ItmGraphics.OnePaints | common/graphics/itm_graphics.py:153-161 | one paint per node |
| ItmGraphics.RenderOneColor | common/graphics/itm_graphics.py:136-167 | fails with IndexError exactly when some value's bin is past the colour list; otherwise each shown node is filled with 1 + its bin number, white font on dark colours, with the one-colour defaults |
| ItmGraphics.OneColorFill | common/graphics/itm_graphics.py:153-157 | a one-colour fill is a decimal number from 1 to the number of colours, and a larger value never gets a lower number |
| ItmGraphics.StyleRules | common/graphics/itm_graphics.py:104-122 | sinks end as octagons, other sources as hexagons, both 0.35 high and 0.08 + 0.08 per character wide; other nodes with a self-loop stay ellipses 0.20 high; every other node has only its width 0.02 + 0.08 per character |
| ItmGraphics.StyleNodes | common/graphics/itm_graphics.py:104-122 | after the width, source and sink passes the dictionaries are keyed by exactly the shown nodes, each styled by those rules |
| ItmGraphics.Widen | common/graphics/itm_graphics.py:105-106 | every shown node gets its width, a missing dictionary being created; other dictionaries are unchanged |
| ItmGraphics.Mark | common/graphics/itm_graphics.py:109-122 | each listed node that is shown takes the boundary attributes over its old ones; the others are unchanged |
| ItmGraphics.MergeTwice | common/graphics/itm_graphics.py:109-122 | a node listed twice as a source or sink ends as if listed once |
| ItmGraphics.Arcs | common/graphics/itm_graphics.py:67 | a pair is an arc exactly when its edge has positive weight |
| ItmGraphics.ScanEdges | common/graphics/itm_graphics.py:64-82 | every edge key joins two different shown nodes along a graph edge, in one orientation only, and an undirected key has its reverse edge too; every edge between two different shown nodes has a key; the ellipses are exactly the shown nodes with a self-loop |
| ItmGraphics.NoEdgesOut | common/graphics/itm_graphics.py:66 | a name that is not a node has no out-edges to scan |
| ItmGraphics.ScanStep | common/graphics/itm_graphics.py:65-67 | after the scan of one more shown node its out-edges are covered too |
| ItmGraphics.ScanNode | common/graphics/itm_graphics.py:67-82 | the scan of one node's out-edges keeps the edge map sound, keeps every old key and covers each of its edges to another shown node, and marks the node an ellipse when it has a self-loop |
| ItmGraphics.ScanOut | common/graphics/itm_graphics.py:68-82 | one out-edge to a shown node becomes a directed key, marks its reverse key undirected, or as a self-loop makes the node an ellipse, keeping the edge map sound |
| ItmGraphics.AddDirected | common/graphics/itm_graphics.py:80-82 | a new directed key for an edge whose reverse has no key keeps the edge map sound |
| ItmGraphics.MarkUndirected | common/graphics/itm_graphics.py:77-79 | marking the reverse key undirected on meeting the edge keeps the edge map sound |
| ItmGraphics.OutsListed | common/graphics/itm_graphics.py:67 | the out-edges listed for a node are exactly its edges of positive weight, with their weights |
| ItmGraphics.Arrows | common/graphics/itm_graphics.py:85-86 | exactly the keys marked directed get an arrow, `dir=forward` |
| ItmGraphics.NeatoOptionsInjective | common/graphics/itm_graphics.py:124-128 | different seeds, or a seed and none, give different neato options |
| ItmGraphics.MakeLayout | common/graphics/itm_graphics.py:55-133 | the layout shows the given nodes; its edges are sorted and join different shown nodes along graph edges, one orientation per pair, covering every such pair; only keys marked directed get an arrow, and an arrowless edge has its reverse; every shown node is styled by the rules above; the defaults and the neato program and options are passed on |
| SaddleResults.Lines | web/SaddleSum/results.py:60-64 | the lines the generator reads hold no line break; the text after the last break is dropped |
| SaddleResults.Rows | web/SaddleSum/results.py:74-75 | one row per body line that is not a `---` rule, so never more rows than lines |
| SaddleResults.RowsSnoc | web/SaddleSum/results.py:74-75 | a further body line adds its tab-split row at the end, unless it is a rule |
| SaddleResults.SectionsOf | web/SaddleSum/results.py:58-77 | reading the lines section by section: either IndexError is raised or at least one section is yielded |
| SaddleResults.BodyEndIs | web/SaddleSum/results.py:67-68 | the body of a section ends at its first empty line or line starting with '#' |
| SaddleResults.Step | web/SaddleSum/results.py:64-76 | one loop pass: once raised nothing changes, raising yields nothing, and a yield appends exactly the open section |
| SaddleResults.Outcome | web/SaddleSum/results.py:77 | the generator raised exactly when its state says so |
| SaddleResults.TabSections | web/SaddleSum/results.py:58-77 | the loop over the lines yields exactly the sections of the section-by-section reading, and raises exactly when it does |
| SaddleResults.RunAppend | web/SaddleSum/results.py:64-76 | reading `a` then `b` leaves the state reading `a + b` leaves |
| SaddleResults.StaysFailed | web/SaddleSum/results.py:67-68 | after IndexError no further line changes anything |
| SaddleResults.BodyRun | web/SaddleSum/results.py:64-76 | after a section's opener, the lines before the body ends leave the counter at the line number, the title from the second line and the rows of the body read so far |
| SaddleResults.RowsInit | web/SaddleSum/results.py:74-75 | the rows of a body are those of all but its last line and then the last line's row |
| SaddleResults.SectionRun | web/SaddleSum/results.py:58-77 | from just after a section's opener, the rest of the lines yields what they yield section by section |
| SaddleResults.EndsAt | web/SaddleSum/results.py:67-73 | an empty line ending a body raises; a line starting with '#' yields the section and opens the next |
| SaddleResults.RunThrough | web/SaddleSum/results.py:64-76 | reading past a line is reading the lines before it, it, and the rest |
| SaddleResults.SectionsAt | web/SaddleSum/results.py:67-73 | the sections of lines whose first body ends before the end: IndexError on an empty line, else the section and then the rest |
| SaddleResults.ThenAssoc | web/SaddleSum/results.py:70 | yielding sections one group after another is yielding them together |
| SaddleResults.RunAgrees | web/SaddleSum/results.py:58-77 | what the line-by-line loop yields, or raises, is what the section-by-section reading gives, for every list of lines |
| SaddleResults.ParseTabOutput | web/SaddleSum/results.py:80-94 | the data of the first five sections and every later section as a namespace; fewer than five is StopIteration, an empty data line anywhere IndexError |
| SaddleResults.ParseTermScores | web/SaddleSum/results.py:97-104 | the data of the first two sections; fewer than two is StopIteration, or IndexError when the generator raised first; a later empty line is never reached |
| SaddleResults.RowLines | web/SaddleSum/results.py:74-75 | one tab-joined line per row, in order |
| SaddleResults.JoinSnoc | web/SaddleSum/results.py:60 | joining one more item appends the separator and the item |
| SaddleResults.LinesDropTail | web/SaddleSum/results.py:60-64 | lines joined with a line break after each, then text without a break, read back as those lines |
| SaddleResults.RowLineBack | web/SaddleSum/results.py:74-75 | a writable row's line is no rule and splits back into the row |
| SaddleResults.RowsOfRowLines | web/SaddleSum/results.py:74-75 | the rows of the lines written for writable rows are those rows |
| SaddleResults.TabLinesClean | web/SaddleSum/results.py:60 | no line written for writable sections holds a line break |
| SaddleResults.JoinClean | web/SaddleSum/results.py:60 | joining items without a character, by another separator, has no such character |
| SaddleResults.OneSection | web/SaddleSum/results.py:58-77 | a written section followed by the end or another section's opener reads back as that section, then whatever follows yields |
| SaddleResults.SectionsOfTabLines | web/SaddleSum/results.py:58-77 | the lines written for a non-empty list of writable sections read back as exactly those sections, without IndexError |
| SaddleResults.TabTextRoundTrip | web/SaddleSum/results.py:58-77 | the tab text written for writable sections is read back by the generator as exactly those sections |
| SaddleResults.Command | web/SaddleSum/results.py:40-42 | `saddlesum` alone without a path, else the path followed by `saddlesum` |
| SaddleResults.RunOutcome | web/SaddleSum/results.py:54-56 | the output exactly when the exit status is zero, else SaddleSumError |
| SaddleResults.SavedCommand | web/SaddleSum/results.py:113-115 | IndexError exactly when there are fewer than two arguments |
| SaddleResults.SaveQueryData | web/SaddleSum/results.py:107-115 | the caller's argument list gets the weights file as its second last argument, nothing else changes, and the saved command is those arguments joined by spaces |
| SaddleResults.StripClean | web/SaddleSum/results.py:124 | stripping a text without whitespace at either end changes nothing |
| SaddleResults.JoinEnds | web/SaddleSum/results.py:115 | a space-join of clean arguments has no whitespace at either end and no line break |
| SaddleResults.TermScoresReplaySavedRun | web/SaddleSum/results.py:118-128 | the saved command of a run with clean arguments, read back, is the run's arguments with the weights file, `-T` and the term after the program, and `-F txt` before the last two for text output |
| SaddleResults.ArgsClean | web/SaddleSum/results.py:43 | every argument of a run with clean parts is clean |
| SaddleResults.CleanNoSpace | web/SaddleSum/results.py:124 | a clean argument holds no space |
| SvgOutput.Flags | web/SaddleSum/svgoutput.py:43-47 | the dictionary holds every term of the relations and marks True exactly the terms some relation points to that have no relation of their own, whatever order the relations come in |
| SvgOutput.RootList | web/SaddleSum/svgoutput.py:43-49 | the terms marked True are exactly the roots, each listed once |
| SvgOutput.FindRoots | web/SaddleSum/svgoutput.py:42-54 | the answer is True exactly when there is more than one root; then the list is extended by one relation `root is_a ALL` per root, each root once, and otherwise left as it was |
| SvgOutput.ArrangedLinks | web/SaddleSum/svgoutput.py:50-52 | appending one `is_a ALL` relation per listed root links every root exactly once |
| SvgOutput.AddedLinks | web/SaddleSum/svgoutput.py:51-52 | the appended relations start exactly at the roots and all end at 'ALL' |
| SvgOutput.JoinedSingleRoot | web/SaddleSum/svgoutput.py:98-101 | once the roots are joined, 'ALL' is the only root of the term graph, provided no term is already called 'ALL' |
| SvgOutput.Level | web/SaddleSum/svgoutput.py:104 | a row's level is read from its third field; a shorter row is IndexError and a field that is not an integer ValueError |
| SvgOutput.Levels | web/SaddleSum/svgoutput.py:104 | the levels of all rows in order, or the error of the first row that fails |
| SvgOutput.MinPositive | web/SaddleSum/svgoutput.py:104 | the smallest positive level: positive, one of the levels, at most every positive level; nothing exactly when no level is positive |
| SvgOutput.Base | web/SaddleSum/svgoutput.py:104 | the base is the smallest positive level of the table; a table without a positive level is ValueError, and a row that fails first passes its error on |
| SvgOutput.Bins | web/SaddleSum/svgoutput.py:105 | seven positive bins starting at 10^-base, each a tenth of the one before |
| SvgOutput.FillIndex | web/SaddleSum/svgoutput.py:111-113 | the fill colour index is always one of the eight colours 1 to 8 |
| SvgOutput.FillSteps | web/SaddleSum/svgoutput.py:111-113 | within the scale the index is the level above the base plus two; below it the first colour, above it the eighth |
| SvgOutput.FillMonotone | web/SaddleSum/svgoutput.py:111-113 | a higher level never gets a lower colour index |
| SvgOutput.FillMarksPositive | web/SaddleSum/svgoutput.py:104-113 | with the base taken from the table, a term's colour index is 2 or more exactly when its level is positive |
| SvgOutput.FontColor | web/SaddleSum/svgoutput.py:114 | the font is white or black |
| SvgOutput.WhiteFont | web/SaddleSum/svgoutput.py:111-114 | the font is white exactly for terms at least four levels above the base |
| SvgOutput.LastWinsKeys | web/SaddleSum/svgoutput.py:119-121 | the dictionary filled by assignments holds exactly the keys assigned |
| SvgOutput.LastWinsValue | web/SaddleSum/svgoutput.py:119-121 | a key holds the value of its last assignment |
| SvgOutput.LastRowStyles | web/SaddleSum/svgoutput.py:108-121 | every term gets an attribute dictionary, that of its last row in the table |
| SvgOutput.NodeAttrs | web/SaddleSum/svgoutput.py:109-121 | a term's dictionary has its label, its fill colour index in quotes and the font colour that index calls for |
| SvgOutput.RelColor | web/SaddleSum/svgoutput.py:35-39 | exactly the five relation types is_a, part_of, regulates, negatively_regulates and positively_regulates have a colour |
| SvgOutput.ColouredOnlyKnown | web/SaddleSum/svgoutput.py:124-129 | an edge has a colour attribute exactly when some relation drawn as that edge has a coloured type |
| SvgOutput.LastColourWins | web/SaddleSum/svgoutput.py:124-129 | an edge's colour is that of the last coloured relation drawn as it |
| SvgOutput.DefaultAttr | web/SaddleSum/svgoutput.py:72-91 | default blocks for the graph, the nodes and the edges, the node block naming the colour scheme |
| SvgOutput.NodeAttributes | web/SaddleSum/svgoutput.py:108-121 | the loop gives the identifiers in order and the dictionary of each term's last row, or ValueError exactly when some row has fewer than four fields |
| SvgOutput.EdgeAttributes | web/SaddleSum/svgoutput.py:124-129 | the loop shows every relation as its edge, in order, and colours the edges as the assignments in order leave them |
| SvgOutput.DotLayoutArgs | web/SaddleSum/svgoutput.py:63-141 | the roots are joined before anything can fail; a failing level or no positive level passes its error on, then a row of three fields is ValueError; otherwise the bins of the base and the layout of the joined relations |
| SvgOutput.FormatOption | web/SaddleSum/svgoutput.py:164-175 | the formats svg and netmapsvg both ask dot for SVG; any other is KeyError |
| SvgOutput.DotProgram | web/SaddleSum/svgoutput.py:176 | the `dot` program inside the given directory, or `dot` alone with no directory |
| SvgOutput.Reversed | web/SaddleSum/svgoutput.py:179-180 | the legend lists run from last to first |
| SvgOutput.RenderEnrichedSubgraph | web/SaddleSum/svgoutput.py:144-188 | an unknown format is KeyError before the roots are joined; then the layout's errors, then a colour scheme without colours is KeyError; otherwise the directed graph 'ontology_part' of the layout, the DOT text Render writes for it, and the reversed legend |
| SvgOutput.CreateAndSaveImage | web/SaddleSum/svgoutput.py:192-197 | a picture is drawn exactly when there is at least one relation, and succeeds exactly when rendering does |
| Biogrid.ParseRecord | common/db_parsers/biogrid_main3.py:97-102 | a line gives a record exactly when it has six fields and fields 0-3 and 5 are integers, the record holding those values and field 4; otherwise IndexError when every present field read as an integer parses, ValueError when the first bad read is a present non-integer |
| Biogrid.IntField | common/db_parsers/biogrid_main3.py:97-102 | `int(fields[i])` succeeds exactly when field i exists and is an integer; IndexError for a missing field, ValueError for a non-integer |
| Biogrid.StepKeepsWellFormed | common/db_parsers/biogrid_main3.py:104-125 | scanning a record keeps one orientation per undirected pair, no empty evidence list, each evidence filed under a system of its kind and a counted publication |
| Biogrid.CountsEveryLine | common/db_parsers/biogrid_main3.py:104 | after any sequence of records, a publication's count grew by the number of records citing it, whether or not they pass the filters |
| Biogrid.DroppedLine | common/db_parsers/biogrid_main3.py:104-111 | a record with an unknown gene or an unmapped system changes only its publication's count, by one |
| Biogrid.UndirectedLine | common/db_parsers/biogrid_main3.py:114-123 | an undirected record appends its evidence under the reversed pair when that is present and under its own pair otherwise, counts its system, and leaves the directed table alone |
| Biogrid.KeepByThroughput | common/db_parsers/biogrid_main3.py:128-136 | a pair with several evidences is kept; one with a single evidence is kept exactly when its publication is exempt or counted no more than the cutoff; an empty list is IndexError |
| Biogrid.NotInDirectedSymmetric | common/db_parsers/biogrid_main3.py:139-145 | the directed rule gives the same answer for both orientations of a pair |
| Biogrid.FilterUndirected | common/db_parsers/biogrid_main3.py:147-152 | a pair with an accepted directed orientation is refused without consulting the throughput filter; otherwise the throughput filter decides |
| Biogrid.FiltersTotal | common/db_parsers/biogrid_main3.py:128-152 | on tables that scanning can produce, neither filter raises for a stored pair |
| Biogrid.AcceptedMembers | common/db_parsers/biogrid_main3.py:169-171 | whatever the visiting order, the accepted directed pairs are exactly the visited pairs that pass the throughput filter |
| Biogrid.InsertsWeights | common/db_parsers/biogrid_main3.py:172-178 | a run of `insert_edge` calls adds to each weight exactly the increments of the calls on that pair |
| Biogrid.InsertsNodes | common/db_parsers/biogrid_main3.py:172-178 | after a run of `insert_edge` calls the nodes are the old ones plus every name the calls mention |
| Biogrid.DirectedContribution | common/db_parsers/biogrid_main3.py:167-172 | over distinct pairs the directed loop adds the directed increment to (a, b) exactly when (a, b) is a visited pair that passes the filter |
| Biogrid.PieceContribution | common/db_parsers/biogrid_main3.py:177-178 | inserting both orientations of a pair adds its weight once to each orientation, and four times its weight to a self-loop |
| Biogrid.UndirectedContribution | common/db_parsers/biogrid_main3.py:174-178 | over distinct pairs with one orientation each, the undirected loop adds to (a, b) the gain of whichever orientation of it passes `filter_undirected` |
| Biogrid.GraphWeights | common/db_parsers/biogrid_main3.py:162-180 | the weight of every pair in the built graph is its accepted directed increment plus its undirected gain, whatever order the dictionaries are visited in |
| Biogrid.DirectedWins | common/db_parsers/biogrid_main3.py:139-152 | a pair with an accepted directed orientation gains nothing from the undirected loop |
| Biogrid.Version | common/db_parsers/biogrid_main3.py:90 | the version is read exactly when the first line holds a ':'; otherwise IndexError |
| Biogrid.BioGridParser.constructor | common/db_parsers/biogrid_main3.py:61-85 | empty tables and accepted pairs, the given maps and cutoff, and the exempt publications as a set, empty when none are given |
| Biogrid.BioGridParser.Load | common/db_parsers/biogrid_main3.py:88-92 | an empty file is StopIteration and a first line without ':' IndexError, both leaving the tables alone; otherwise the version is stored and the tables are those of scanning the remaining lines up to the first failing one, whose error is returned |
| Biogrid.BioGridParser.ScanBody | common/db_parsers/biogrid_main3.py:91-92 | the tables after the loop are those of scanning the lines up to the first failing one, and that line's error is returned |
| Biogrid.BioGridParser.ScanLine | common/db_parsers/biogrid_main3.py:95-125 | a line that does not parse returns the parse error and changes nothing; otherwise the tables become those of one scanning step, and stay well formed |
| Biogrid.BioGridParser.ScanRecord | common/db_parsers/biogrid_main3.py:104-125 | the tables become those of one scanning step and stay well formed; the accepted pairs and the version are unchanged |
| Biogrid.FileRecord | common/db_parsers/biogrid_main3.py:104-125 | the dictionary updates in turn give the tables of one scanning step |
| Biogrid.BioGridParser.GetGraph | common/db_parsers/biogrid_main3.py:162-180 | the tables are unchanged; the accepted pairs gain exactly the directed pairs passing the filter (none without directed systems); IndexError exactly when there is no undirected system; otherwise a new graph built by the directed then the undirected insertions |
| Biogrid.BuildGraph | common/db_parsers/biogrid_main3.py:162-180 | the directed loop runs only with directed systems, every dictionary is visited once, the weights are values of their maps, and the graph is the one the two loops' insertions build |
| Biogrid.DirectedLoop | common/db_parsers/biogrid_main3.py:167-172 | the accepted pairs gain the visited pairs passing the filter, and the graph receives their insertions in visiting order |
| Biogrid.VisitDirected | common/db_parsers/biogrid_main3.py:169-172 | a passing pair is accepted and inserted with the directed weight; any other changes nothing |
| Biogrid.UndirectedLoop | common/db_parsers/biogrid_main3.py:174-178 | the graph receives both orientations of every visited pair passing `filter_undirected`, in visiting order |
| Biogrid.VisitUndirected | common/db_parsers/biogrid_main3.py:175-178 | a passing pair is inserted in both orientations with the undirected weight; any other changes nothing |
| Biogrid.Insert | common/db_parsers/biogrid_main3.py:172 | one `insert_edge` extends the run of insertions the graph was built by |
| Biogrid.AnyValue | common/db_parsers/biogrid_main3.py:168 | `values()[0]` of a non-empty dictionary is one of its values |
| Biogrid.ListPairs | common/db_parsers/biogrid_main3.py:169 | iteration visits every key of the dictionary exactly once |
| Output.PlainDecimalIsNumeric | ITMProbe/output.py:32-37 | every string in plain decimal notation (surrounding whitespace, a sign, digits with at most one point) is one that `float` accepts, so `is_numeric` holds for it |
| Output.Corner | ITMProbe/output.py:42 | `rows[0][0]` exists exactly when the first row is there and non-empty; otherwise IndexError |
| Output.FirstColumn | ITMProbe/output.py:45 | `[row[0] for row in rows]` has one entry per row, each the row's first; IndexError exactly when some row is empty |
| Output.OptionalColumn | ITMProbe/output.py:44-50 | the headers or formats are absent exactly when the first entry is NULL, and are otherwise the first column, one entry per row; IndexError on an empty first row, or on any empty row when the first entry is not NULL |
| Output.FormatRow | ITMProbe/output.py:51 | a formatted row is as long as the shorter of the formats and the row, and cell j is format j applied to value j; an error is the error of one of those cells |
| Output.FormatBody | ITMProbe/output.py:49-55 | one text row per data row; without formats, cell j of a row is `str` of value j and nothing can fail; with formats, each row is its formatted row |
| Output.TrueIndices | ITMProbe/output.py:62 | an index is listed exactly when its flag is set, and the list is strictly increasing |
| Output.Formatted | ITMProbe/output.py:39-64 | on success the title is `title[0][0]`, the body has one row per data row and at least one, no row is longer than the first, and a column is in `float_cols` exactly when it lies within the first row and some row has a numeric cell there |
| Output.FormattedColumns | ITMProbe/output.py:44-55 | the headers are absent exactly when the first header entry is NULL and are otherwise the first column of the header query; without formats every cell is `str` of its value |
| Output.FormattedCells | ITMProbe/output.py:49-52 | with formats, each row is cut to the number of formats, and cell j is the value under format j, which is not NULL |
| Output.FormattedTable | ITMProbe/output.py:39-64 | the method returns exactly what `formatted_table` returns or raises, as `Formatted` states it |
| Output.NumericFlags | ITMProbe/output.py:57-60 | the `numeric_cols` loop gives IndexError exactly when some row is longer than the first, and otherwise sets a column's flag exactly when some row has a numeric cell there |
| Output.MarkRow | ITMProbe/output.py:59-60 | one row sets the flag of each column whose cell is numeric and keeps the others; IndexError exactly when the row has more cells than flags |
| Output.HeaderNames | ITMProbe/output.py:72-77 | the header texts, one per header, exist exactly when no header is NULL; a NULL header is a TypeError |
| Output.StartWidths | ITMProbe/output.py:72-77 | without headers, one zero per cell of the first row, and IndexError on an empty body; with headers, one width per header, each the header's length or the cap when that is smaller |
| Output.ColumnMax | ITMProbe/output.py:79-81 | the longest cell of a column: no cell there is longer, and a positive result is the length of one of them |
| Output.Widths | ITMProbe/output.py:79-81 | IndexError exactly when a row has more cells than there are widths; otherwise each width is at least its start and at least every cell of its column, and equals the start or one cell's length |
| Output.ColumnWidths | ITMProbe/output.py:79-81 | the `column_widths` loop computes exactly `Widths` |
| Output.WidenRow | ITMProbe/output.py:80-81 | one row widens each column to its cell's length and leaves the others; IndexError exactly when the row has more cells than widths |
| Output.Fit | ITMProbe/output.py:84-92 | a fitted cell has exactly the column's width; a shorter text is kept whole and padded with spaces, a longer one is cut to the width |
| Output.CellAsWritten | ITMProbe/output.py:84-92 | as Python 2 runs the format, the cell is the fitted text for a positive width and a ValueError for width 0 |
| Output.FitRow | ITMProbe/output.py:84-85 | a fitted row has one cell per column the row reaches, each fitted to its width |
| Output.Rule | ITMProbe/output.py:93-96 | the rule under the headers is made of dashes only |
| Output.EmptyColumnRaises | ITMProbe/output.py:72-85 | a headerless table holding one empty cell: as written the format raises ValueError before anything is written; fitted as intended it prints two empty lines |
| Output.TextColumnWidths | ITMProbe/output.py:71-85 | when printing succeeds there is one width per header (or per cell of the first row), every cell fits its column, each width reaches the capped header length, and no body cell is cut |
| Output.RowSpansRule | ITMProbe/output.py:84-100 | a line with a cell in every column is exactly as long as the rule, sum of widths plus one space between neighbours |
| Output.PrintTableText | ITMProbe/output.py:67-102 | the method writes exactly the title block, the fitted header line and rule, every fitted row and a closing empty line, or raises what `TextPrinted` raises |
| Output.WriteRows | ITMProbe/output.py:99-101 | the loop appends every fitted row, joined with spaces and ended by a line break, in order |
| Output.PrintTableTab | ITMProbe/output.py:119-131 | the method writes exactly the tab output, and stops with TypeError after the title when a header is NULL |
| Output.WriteTabRows | ITMProbe/output.py:129-131 | the loop appends every row, joined with tabs and ended by a line break, in order |
| Output.TabRowsReadBack | ITMProbe/output.py:125-131 | for non-empty rows of cells free of tabs and line breaks, splitting the written rows at line breaks and each line at tabs gives back the rows, with one empty piece at the end |
| Output.TabTitleLines | ITMProbe/output.py:122-123 | a title free of line breaks is written as three lines, `#`, `# ` and the upper-cased title, and `#`, before the table |
| Output.PrintTableCsv | ITMProbe/output.py:105-116 | the method writes the title record and an empty record, the header record, every row and a closing empty record, as `CsvPrinted` states |
| Output.WriteCsvRows | ITMProbe/output.py:114-115 | the loop appends every row's record, in order |
| Output.CsvFieldReadBack | ITMProbe/output.py:108-116 | every field the writer emits reads back as the original text: one without a delimiter, quote or line break as it is, any other quoted with its quotes doubled |
| Output.TableFormatNamed | ITMProbe/output.py:134-137 | a known name gives the format whose name it is; any other name is a KeyError, and no format has it as its name |
| Script.Delta | ITMProbe/core/script.py:52-54 | `delta(i, j)` is 1 exactly when i equals j and 0 exactly when they differ |
| Script.PivotPicks | ITMProbe/core/script.py:40-54 | summing `val*delta(id, i)` over a group's rows gives the sum of the values of the rows whose id is i, so each pivot column collects one source or sink only |
| Script.PivotColumnNamed | ITMProbe/core/script.py:40-49 | the pivot column text starts with `sum(<tbl>`, and ends in `datacol` followed by the decimal digits of i, which read back as i |
| Script.SrcColNamesColumn | ITMProbe/core/script.py:40-43 | `srccol(i, tbl)` sums a column of tbl and names it `datacol<i>` |
| Script.SnkColNamesColumn | ITMProbe/core/script.py:46-49 | `snkcol(i, tbl)` sums a column of tbl and names it `datacol<i>` |
| Script.ParticipationRatio.constructor | ITMProbe/core/script.py:59-61 | both running sums start at zero |
| Script.ParticipationRatio.Step | ITMProbe/core/script.py:63-65 | a step adds the absolute value to the sum and the square to the sum of squares, and changes nothing else |
| Script.ParticipationRatio.Finalize | ITMProbe/core/script.py:67-68 | the result is the squared sum over the sum of squares; a zero sum of squares raises ZeroDivisionError |
| Script.Aggregate | ITMProbe/core/script.py:57-68 | a new aggregate stepped through a column in order and then finalized gives (Σ abs(x))² / Σx² of the column, or ZeroDivisionError |
| Script.AllZero | ITMProbe/core/script.py:63-68 | the sum of squares is zero exactly when every value is zero, and then the sum of absolute values is zero too, so only an all-zero column raises |
| Script.SquareOfSumAtLeast | ITMProbe/core/script.py:63-68 | (Σ abs(x))² is at least Σx² |
| Script.SquareOfSumAtMost | ITMProbe/core/script.py:63-68 | (Σ abs(x))² is at most n·Σx² for n the number of non-zero values |
| Script.RatioBounds | ITMProbe/core/script.py:67-68 | a participation ratio that is defined lies between 1 and the number of non-zero values of the column |
| Script.TargetsMeaning | ITMProbe/core/script.py:191-196 | a name is declared by the statements exactly when some statement has it as its target |
| Script.Declared | ITMProbe/core/script.py:191-196 | after the parse actions the variables are the starting ones plus every target; each target holds None and every other variable keeps its value |
| Script.CheckedMeaning | ITMProbe/core/script.py:198-201 | the parse actions accept the statements exactly when every `$var$` of statement k is among the starting variables or the targets of the statements before k (a statement's own target does not count) |
| Script.FirstMissing | ITMProbe/core/script.py:203-207 | no name is reported exactly when every required `@var` is defined; otherwise the reported `@var` is the first required one, in order, that is missing |
| Script.ParseOutcome | ITMProbe/core/script.py:203-227 | parsing succeeds exactly when there is a statement, every reference is defined before use and every required `@var` is defined, and then leaves the declared variables |
| Script.Substituted | ITMProbe/core/script.py:166-173 | substitution raises KeyError exactly when some `$var$` of the statement is not a variable; a success uses only variables that exist |
| Script.Joined | ITMProbe/core/script.py:173 | joining the substituted pieces can fail only with TypeError |
| Script.NullVariableRaises | ITMProbe/core/script.py:179-182 | a `$var$` whose query returned no row holds None, and a statement using it raises TypeError |
| Script.RunStops | ITMProbe/core/script.py:166-182 | a statement that raises ends the run: the result of the whole script is that error |
| Script.RunKeepsKeys | ITMProbe/core/script.py:176-182 | after k statements the variables are the starting ones plus the targets of those k statements |
| Script.RunWithoutKeyError | ITMProbe/core/script.py:166-182 | when every reference is declared before use and every target is declared, running never raises KeyError and keeps the set of variable names |
| Script.ParsedRunsWithoutKeyError | ITMProbe/core/script.py:164-187 | after a successful parse no statement raises KeyError, and every required table is present when the statements finish |
| Script.Initial | ITMProbe/core/script.py:159-162 | the starting variables are `$semicolumn$` and the caller's names; the caller's values override, and `$semicolumn$` is `;` unless the caller sets it |
| Script.Final | ITMProbe/core/script.py:184-187 | the result maps each required name v to the value of `@v`, and raises KeyError exactly when one is missing |
| Script.ScriptNeverKeyError | ITMProbe/core/script.py:154-189 | a script either fails to parse or runs without KeyError, and a completed run returns a table for every required name |
| Script.ScriptContext.constructor | ITMProbe/core/script.py:101-106 | a new context has no current variable, no variables and the given required names |
| Script.ScriptContext.SetVar | ITMProbe/core/script.py:191-192 | the target becomes the current variable and nothing else changes |
| Script.ScriptContext.AddVar | ITMProbe/core/script.py:194-196 | the current variable is declared with None and then cleared |
| Script.ScriptContext.CheckVar | ITMProbe/core/script.py:198-201 | a reference passes exactly when it is a variable; otherwise ParseFatalException |
| Script.ScriptContext.CheckRefs | ITMProbe/core/script.py:198-201 | checking the references of an expression in order passes exactly when every one is a variable |
| Script.ScriptContext.ValidateStatements | ITMProbe/core/script.py:203-207 | the missing `@var` reported is the first required one that is not a variable |
| Script.ScriptContext.ParseScript | ITMProbe/core/script.py:209-227 | firing the parse actions in grammar order succeeds exactly when the specified parse does, with every target declared as None; on failure it raises the same exception |
| Script.ScriptContext.RunStatements | ITMProbe/core/script.py:166-182 | the statement loop produces exactly the variables (or the error) of running the statements in order |
| Script.ScriptContext.Execute | ITMProbe/core/script.py:154-189 | `execute` returns exactly what parsing, running and collecting the required tables give |
| Commands.EffectiveCutoff | ITMProbe/commands.py:134-135 | a cutoff survives exactly when the participation ratio is not in use and a cutoff was given, and then it is the given one |
| Commands.Criterion | ITMProbe/commands.py:136-139 | the criterion is empty exactly when there is no cutoff; otherwise it reads `WHERE `, the ordering column, ` > ` and the formatted cutoff |
| Commands.ScriptVars | ITMProbe/commands.py:131-146 | the script variables are exactly `$orderby$`, `$maxrows$`, `$usepr$` and `$criterion$`; the row limit and the flag read back as the integer and as 1 or 0; the criterion is empty exactly when the participation ratio is used or no cutoff is given |
| Commands.UsePrIgnoresCutoff | ITMProbe/commands.py:134-135 | with the participation ratio in use the variables do not depend on the cutoff |
| Commands.CutoffReachesCriterion | ITMProbe/commands.py:136-137 | without the participation ratio a given cutoff appears in the criterion after the ordering column |
| Commands.SaddleSumVars | ITMProbe/commands.py:339-343 | the SaddleSum weight script gets no row limit (-1), no participation ratio, an empty criterion and the chosen value column |
| Commands.BinsKindNamed | ITMProbe/commands.py:315-319 | the bin factory is found exactly for `log_upper`, `linear` and `sqrt`; any other name is a KeyError |
| Commands.ValueColumnsStatement | ITMProbe/commands.py:323-329 | the value columns are every data column exactly for a mixed picture with no columns named; otherwise the statement selects the named columns, or else the ordering column, as a quoted literal |
| Commands.Image | ITMProbe/commands.py:308-330 | an unknown bin factory is a KeyError; otherwise the picture gets 256 bins when mixed and 8 otherwise, and the report variables plus `$valcolstmt$` |
| Commands.GraphOf | ITMProbe/commands.py:61-89 | with neither `graph_path` nor `graph` the call fails with RuntimeError; a file path wins over an inline graph and becomes the file name; the name is `graph_name` or else 'Custom graph' |
| Commands.GraphFromKwargs | ITMProbe/commands.py:61-91 | the graph is stored under `G`; the source used and `graph_name` are removed; every other argument is kept unchanged and nothing else is added |
| Commands.LastAt | ITMProbe/commands.py:280-296 | the row found is the last one that writes the given position with enough values, and no such row exists when none is found |
| Commands.OneColorMeaning | ITMProbe/commands.py:292-296 | the one-colour rows fail exactly when a shown node has no value; otherwise each position holds the first value of the last row naming it, or keeps its value |
| Commands.EarlierDuplicateUnwritten | ITMProbe/commands.py:258 | a shown node listed twice is never drawn at its earlier place |
| Commands.FillOneColor | ITMProbe/commands.py:292-296 | filling the array in place leaves exactly the one-colour values, or reports the same IndexError |
| Commands.OneColorStops | ITMProbe/commands.py:293-296 | an IndexError on a row ends the loop with that error |
| Commands.OneColorNodeValues | ITMProbe/commands.py:258-296 | the one-colour node values are the rows applied to zeros through the index of the shown nodes |
| Commands.Overlay | ITMProbe/commands.py:282-286 | at most three values of a row replace the start of a grid row, and the rest is kept |
| Commands.MixedMeaning | ITMProbe/commands.py:279-286 | the mixed rows fail exactly when a node is indexed past the grid; otherwise each of the first three cells holds that value of the last row long enough to have it, and later columns are kept |
| Commands.GridOf | ITMProbe/commands.py:279 | the view of the two-dimensional array has its shape and its cells |
| Commands.SetCells | ITMProbe/commands.py:282-286 | writing one row of the grid in place overlays that row and changes nothing else |
| Commands.FillMixed | ITMProbe/commands.py:280-286 | filling the grid in place leaves exactly the mixed values, or reports an IndexError exactly when they fail |
| Commands.MixedStops | ITMProbe/commands.py:283-286 | an IndexError on a row ends the loop with an error |
| Commands.MixedNodeValues | ITMProbe/commands.py:258-286 | the mixed node values are the rows applied to a zero grid of three columns per shown node, and never fail |
| Commands.BinEdges | ITMProbe/commands.py:274-276 | the bin edges are the first column of every row, and a row without columns is an IndexError |
| CommandTool.Follow | common/commandtool/__init__.py:37-41 | looking up a dotted name walks the nested dictionaries key by key; it fails only with KeyError (missing key) or TypeError (a key below a non-dictionary) |
| CommandTool.Store | common/commandtool/__init__.py:43-68 | storing under a path succeeds only on a dictionary and leaves a dictionary |
| CommandTool.StoreThenFollow | common/commandtool/__init__.py:43-68 | after a successful store, looking the same path up gives the value stored |
| CommandTool.StoreKeepsOthers | common/commandtool/__init__.py:43-68 | a store leaves every path that diverges from the stored one looking up as before |
| CommandTool.StoreSucceeds | common/commandtool/__init__.py:55-68 | a store succeeds exactly when the path without its last key leads to a dictionary; a missing intermediate key makes the store a KeyError |
| CommandTool.StoreBelow | common/commandtool/__init__.py:57-67 | once the walk has reached a dictionary, the store succeeds or fails, with the same error, as the store of the rest of the path into that dictionary |
| CommandTool.AttributeDict.constructor | common/commandtool/__init__.py:25 | the new dictionary holds the given entries |
| CommandTool.AttributeDict.Get | common/commandtool/__init__.py:37-41 | the loop over the dot-separated parts gives what the lookup of the whole path gives |
| CommandTool.AttributeDict.GetAttr | common/commandtool/__init__.py:26-30 | attribute access succeeds exactly when the lookup does, with its value; a missing key becomes AttributeError |
| CommandTool.AttributeDict.SetAttr | common/commandtool/__init__.py:32-35 | setting an attribute always fails with AttributeError |
| CommandTool.AttributeDict.Set | common/commandtool/__init__.py:43-68 | item assignment changes the tree exactly as the store of the old tree does, and on failure leaves the entries unchanged with the store's error |
| CommandTool.IndentOf | common/commandtool/__init__.py:257-268 | the scan counts one column per space and `tabstop` per tab, up to the first other character |
| CommandTool.DocLines | common/commandtool/__init__.py:254-256 | a docstring has at least one line once carriage returns become line feeds, and no line holds either character |
| CommandTool.LeastMeaning | common/commandtool/__init__.py:258-271 | the least indentation is absent exactly when every line is empty; otherwise it is at most that of every non-empty line and equal to that of one |
| CommandTool.DedentMeaning | common/commandtool/__init__.py:272-279 | removing n columns takes only indentation from the front, at least n columns from a line indented that far and all indentation from one indented no further |
| CommandTool.DedentedLinesMeaning | common/commandtool/__init__.py:272-279 | each output line keeps its text and loses only indentation, empty lines stay empty, every non-empty line loses at least the least indentation and one line loses all of it |
| CommandTool.StrippedDocstringMeaning | common/commandtool/__init__.py:253-280 | the stripped docstring has no carriage return and its lines are exactly the docstring's lines dedented |
| CommandTool.LeastIndent | common/commandtool/__init__.py:257-271 | the first loop finds the least indentation of the non-empty lines |
| CommandTool.StripDocstring | common/commandtool/__init__.py:253-280 | the two loops give the docstring with the least indentation removed, as the reference function defines it |
| CommandTool.ReplaceAbsent | common/commandtool/__init__.py:254 | replacing a character that does not occur leaves the text unchanged |
| CommandTool.TabIndentedLineLost | common/commandtool/__init__.py:272-279 | the docstring made of a tab and "ab" strips to the empty text as written and to "ab" as intended |
| CommandTool.MetavarsAsWrittenEmpty | common/commandtool/__init__.py:233-251 | as written, `extract_metavars` never records a metavar, so it returns an empty dictionary and never fails |
| CommandTool.ConflictUnreported | common/commandtool/__init__.py:233-251 | two options sharing the metavar DIR with the values X and Y conflict, yet pass as written |
| CommandTool.ExtractMetavarsMeaning | common/commandtool/__init__.py:233-251 | the intended extraction fails exactly when two options share a metavar with different values; otherwise each metavar maps to the name and value of its first user |
| CommandTool.AllowedPositionsMeaning | common/commandtool/__init__.py:296-300 | a position is valid exactly when an option with that position sits under an allowed key |
| CommandTool.SettleUsesMeaning | common/commandtool/__init__.py:302-312 | settling one key's options fails exactly on an option outside the valid positions, and otherwise leaves the key holding the last option's setting |
| CommandTool.SettleSucceeds | common/commandtool/__init__.py:301-312 | settling fails exactly when some option has a position outside the valid ones |
| CommandTool.SettleSettings | common/commandtool/__init__.py:301-312 | after settling, each key with options holds the value of its last option, or True for a flag, and no other key is present |
| CommandTool.SetErrorOnUnique | common/commandtool/__init__.py:292-312 | with distinct keys and unique positions, `set_error_on` fails exactly when a key outside `allowed` has an option |
| CommandTool.OptionNamesMeaning | common/commandtool/__init__.py:283-290 | a name is listed exactly when some option has it as a short or long spelling |
| CommandTool.OptionNamesFromList | common/commandtool/__init__.py:283-290 | the loop lists every short and then every long name of each option, in order |
| CommandTool.CheckTableOk | common/commandtool/__init__.py:433-480 | the option table is accepted exactly when the internal names are distinct, every type is shared, program or command, and no two spellings give the same key |
| CommandTool.CheckTableContents | common/commandtool/__init__.py:433-480 | after an accepted table the internal names are those configured and `by_option` holds exactly the keys of the spellings, each under its own name |
| CommandTool.InternalNamesOfItems | common/commandtool/__init__.py:434-444 | the internal names met are the dictionary's keys, once each and in order |
| CommandTool.DictionaryOptionsMeaning | common/commandtool/__init__.py:434-480 | for a dictionary the internal-name check never fires, so the table is accepted exactly when every type is known and no key repeats |
| CommandTool.GroupOptions | common/commandtool/__init__.py:487-501 | the loop with its counter groups the options as the reference grouping does |
| CommandTool.GroupEntries | common/commandtool/__init__.py:528-540 | every entry of a group records an option given with that internal name and a type in the chosen kinds, at its own position, with its value |
| CommandTool.GroupKeys | common/commandtool/__init__.py:528-540 | an internal name has a group exactly when an option of that name and kind was given |
| CommandTool.GroupOrdered | common/commandtool/__init__.py:528-540 | within a group the positions increase |
| CommandTool.GroupComplete | common/commandtool/__init__.py:528-540 | every option of a chosen kind appears in its name's group |
| CommandTool.GroupMeaning | common/commandtool/__init__.py:528-540 | the four facts together: groups are exactly the options of each name and kind, at their positions, in order |
| CommandTool.NoCommandOptions | common/commandtool/__init__.py:482-506 | without a command the options are grouped, and the parse fails with GetoptError exactly when an option of type command was given |
| CommandTool.TypeGroupsPartition | common/commandtool/__init__.py:524-542 | with every type known, each option lands in exactly one of the program, command and shared groups |
| CommandTool.ParsedMetavarsChecked | common/commandtool/__init__.py:411-420 | the check after parsing sees the program options then the command options; as written it always passes, as intended it fails exactly on a conflict |
| CommandTool.ResolveCommandMeaning | common/commandtool/__init__.py:507-522 | the command found is an entry named like the word or aliasing it; with non-empty names the word is refused exactly when no entry has it as name or alias |
| CommandTool.NameWins | common/commandtool/__init__.py:509-518 | a word that names an entry resolves to itself, whatever aliases other entries list |
| CommandTool.ManPage | common/commandtool/__init__.py:85-209 | a man page is refused with ManError exactly when the section is 0 or the group is empty |
| CommandTool.TitleBlockShape | common/commandtool/__init__.py:176-178 | the title is a rule of '=' as long as the program name, the name and the rule again |
| CommandTool.ManPageTitle | common/commandtool/__init__.py:176-193 | a page opens with the title block and ends with three line feeds |
| CommandTool.ManPageManual | common/commandtool/__init__.py:184-186 | a page names the manual section and group it was given |

## Left out

Numerics and foreign code:

- Floating point: values are exact reals. Rounding, overflow to inf, and nan are not modelled. Tolerances (1e-3, 1e-11, 1e-14) are plain constants.
- Laplacian.SparseLaplacian.Solve: the sparse LU factorisation (`dsolve.factorized`) and `linalg.inv` are parameters of type `Factorizer` and `Inverter`. The predicates `Solves` and `Inverts` constrain them, and every meaning lemma assumes them. Numerical accuracy is not modelled.
- Laplacian.SparseLaplacian.Solve: requires `Ready()`. On a full-graph operator before `set_boundary_ixs` the source raises AttributeError; the model excludes that call rather than returning the error.
- Newton.Candidate: a zero derivative is treated as the bisection case, which is what numpy float64 division gives (inf or nan fails both bracket tests). A derivative that is a Python float 0.0 raises ZeroDivisionError at newton.py:17 instead.
- Newton.RootfindNewton: the objective is a total function. An exception raised inside the objective is not modelled. Default arguments (`maxiter=50`, `tol=1e-11`, `df=1.0` and the like) are explicit parameters.
- Emitting.ProcessContextMuNewton: returns `Err("ZeroDivisionError")` when the largest mask entry is 0. numpy's `x0 * df_mask / df_mask.max()` (emitting.py:78) gives nan with a warning instead, and Newton then runs on nan.
- Emitting.ProcessContextMuNewton: requires at least one source. With none, `H_row_sum.sum() / m` (emitting.py:88) divides a numpy float by 0 and yields nan.
- Emitting.NewEmittingAnalysis: requires at least one source when neither a context nor a fixed damping is given, for the same reason.
- Absorbing.ProcessContextMuNewton: returns `Err("ZeroDivisionError")` when the largest mask entry is 0 (absorbing.py:101) or the connected count is 0 (absorbing.py:111-112). numpy gives inf or nan there without raising.
- NChannel.ProcessContextMuNewton: returns `Err("ZeroDivisionError")` when the largest mask entry is 0 (nchannel.py:188). numpy gives nan there.
- NChannel.Quotient: a numpy division by a zero float is taken as 0, where numpy gives inf or nan (nchannel.py:212-216).
- AdjMatrix.AdjacencyMatrix.GetDfMask: map keys are natural numbers. A negative key, which numpy would wrap to index from the end, cannot be expressed.
- The CRC32 checksum of the `gene_info` file, gluelib's MD5 `get_hash`, and `process_to_be_copied` (relpath) are foreign calls, and are not modelled.

Termination and resource bounds:

- Bri.KeggOntology.WalkUp: gives up with "Diverges" after as many steps as there are terms. On a cycle of parents the source loops forever.
- OboOntology.Ontology.ExpandTypedefs: visits each reached typedef once. The source's worklist adds `is_a` targets without checking whether they were visited, so on an `is_a` cycle it loops forever.
- OboOntology.Ontology.TransitiveClosure: visits each relationship pair once. The source re-adds pairs already visited, so on a cycle of followed relationships it loops forever; on acyclic input the results agree.
- Dictionary iteration order: the model fixes one order, or chooses one where the source's dictionary decides it. This covers `alias_map`, `node2dependents`, `priorityDictionary`'s choice among equal keys, and the order of set elements.

Files and I/O:

- File, subprocess, sqlite, pickle and JSON I/O are not modelled. Files arrive as their lines or bytes, and outputs are returned values.
- The `open_gene_info` record reader and the extra record fields of `NCBIGeneRecord` are not modelled.
- NcbiIndex.ReadIndex: the conflict tables are read as intended (see "## Findings"), so `NcbiIndex.TablesRoundTrip`, `NcbiIndex.GenesRoundTrip`, `NcbiIndex.BodyRoundTrip` and `NcbiIndex.IndexRoundTrip` are round trips of the corrected reader; `NcbiIndex.ReadConflictsAsWritten` is the conflict reader as written, which differs from the corrected one only when the table size read is 0.
- NcbiIndex.IndexRoundTrip: requires `N + 1` offsets. The gene parser gives no offsets when the species has no genes, and the reader would then read one offset too many.
- The Obo file-level constructor, `roots`, `all_terms_transitive_closure`, `as_graph`, `__repr__`/`__str__` and the comparison cache are not modelled. The cache does not change results.
- Digraph: `copy`, `_restore_attrs`, `toJSON`, `outgoing_edges_length`, `get_edges` and `__str__` are pickle, JSON or printing wrappers, and are not modelled.
- CsrGraph: the pickle-based one-argument constructor and its arity ValueError are not modelled. The mutators that raise NotImplementedError are not modelled either.
- Filesys: `makedirs2`, `copytree_filter`, `check_file_exists` and `import_module` are filesystem and import wrappers, and are not modelled.
- Gluelib: `load_object`/`get_module`, `_load_classes`, `install_all`, `verify_all`, `upgrade`, `get_info`, `list_all_deps`, `remove_tree`, `_update_installation_database` and the JSON database are not modelled. They import modules and run the node classes' own actions.
- Gluelib.DepGraph.GetStatus: `today` is a whole number of days. The source subtracts datetimes that carry the time of day.

- EtermKegg, EtermGo: `create_kegg_etd`, `create_go_etd` and `create_combined_etd` are not modelled. They open the ontology and gene files, gather the namespaces, copy the gene index with `index_gene_info`, and write each section with `write_namespace`, which EtermLayout models.
- EtermKegg, EtermGo: the URL formats that the callers append to each section's metadata are constants of the file layout and are not modelled.
- EtermGo.GoProcessNamespace: models the second pass as written, so it raises KeyError on a parent the closure did not reach (see Findings). The intended section is EtermGo.GoSectionKept, which EtermGo.GoSectionKeptAgrees shows equal to the written one whenever that one is built.
- `_write_gmt`, `create_kegg_gmt` and `create_go_gmt` write tab-separated GMT files and are not modelled.
- Bri.FormatId: only the plain form is modelled. The `html=True` form wraps the id in an anchor built from the term's URL.

BioGRID loader:

- Biogrid.BioGridParser.constructor: the gene index file is not read; the map from gene ids to symbols it yields is a parameter. `__init__` is split into the constructor and Load, which reads the lines of the BioGRID file.
- Biogrid.BioGridParser.Load: an empty line has no integer in field 0, so it is a ValueError, as in the source.
- Biogrid.BioGridParser.GetGraph: the dictionaries are visited in an order, and `values()[0]` picks a value, that the model leaves open and returns; Python 2 decides both by hashing.
- Biogrid: `create_network` is not modelled. It writes the CSR graph, the antisinks and the network file.
- Biogrid.Record: the BioGRID ids in fields 2 and 3 are read (and can fail) but not kept, as in the source.

Result tables:

- Output.Formatted: `str.format` and `str` on the query's values are the parameters `format` and `show`; the values themselves are of a type parameter.
- Output.PrintTableText: the file written to is the returned text; `max_header_width` is an optional natural number, so a negative cap is not modelled. The cells are fitted as intended (see "## Findings"); `Output.TextPrintedAsWritten` is the printer as Python 2 runs it.
- Output.CsvPrinted: only the `csv` module's default dialect is modelled, with its minimal quoting and `\r\n` line ends; all cells are text, and a NULL header is written as an empty field.
- Output.IsNumeric: `float` on byte strings as Python 2 reads them; digits outside ASCII are not accepted.

Scripts:

- Script.ScriptContext.ParseScript: the `pyparsing` grammar is not modelled; a script is given as its statements, each a target and the pieces of its expression (SQL text and `$var$` references). The only syntax error modelled is an empty script.
- Script.ScriptContext.Execute: the database is the parameter `run`, which gives the rows a statement's SQL returns (keyed by the statement's position, so the database may change between statements); cell values are their `str` text. The connection, `ATTACH`, `get_properties` and `create_function` are not modelled.
- Script.ScriptContext.Execute: the required tables are collected once after the last statement rather than after every statement; the names only grow during a run, so the result is the same.
- Script.Aggregate: values are real numbers. When every value is a Python 2 integer, `finalize` divides with floor division; that case is not modelled.
- Script.ParticipationRatio.Finalize: the error's message is not modelled, only ZeroDivisionError.
- Script.FirstMissing: the MissingVarException message (`Required script variable ... is not defined.`) is not modelled; the model gives the missing `@var`.

Commands:

- Commands: `run`, `table`, `report`, `report_tables`, `custom_layout`, `layout`, `weights`, `standalone_run`, `batch_run` and `load_default_script` read files, run scripts, build models and print tables; those steps are modelled in their own modules or left out as I/O. Only their computations are modelled here.
- Commands.Criterion: the `'%.6e'` text of the cutoff is the parameter `exp6`.
- Commands.GraphOf: the graph is described by where it comes from. Reading the pickled file and building the CSR matrix are not modelled. A missing key in an inline graph is not modelled either, because an inline graph is a record with every field.
- Commands.BinsKindNamed: the bin factory is returned by kind; the factories themselves are in ItmGraphics.
- Commands.OneColorNodeValues, Commands.MixedNodeValues: a script row is its node name followed by numbers, so a row without a node name cannot be expressed.

Web front end:

- Text.ParseFloat: reads plain decimal notation only. Python's `float` also accepts exponents, `inf`, `nan` and underscores between digits; those inputs are refused here.
- SaddleSumValidate: a `'%.6e'` option is kept as the number it formats (`Exp6`); the text rendering is not modelled.
- SaddleSumValidate.ValidateProgramArgs: the term database is returned by name; `os.path.join` with the directory and the `glob` listing are a parameter (the set of files).
- SaddleSumValidate.ValidateOutputArgs: `hash(time.time())` is a parameter.
- WebModels: the generic argument checks of `models.py` (`validate_args`, which runs each option's validator first) are not part of this model; the model validators receive their result.
- WebModels: `TooManyBoundaries` carries its kind in the error string, as in "TooManyBoundaries: sources".
- Rendering, DisplayOpts, WebModels: a rendering option, ranking list or criterion list that is empty makes the source raise IndexError on its first element; the model requires them non-empty, as every caller builds them.
- DisplayOpts: `validate_display_args`, `validate_rendering_args`, `get_image_url_map`, `get_layout_url_map`, `image_spec`, `master_select_data`, `form_settings_data` and the image processors assemble the dictionaries the members above fill, and are not modelled.
- Rendering: `master_option_data` only lists the form values of the choices, and is not modelled.
- DisplayOpts.DisplayOptions.GetCriterion: on a failed validation only the recorded master option is part of the new state; the source's argument dictionary is a local value here.
- Network.ToSif: gene ids are a parameter (the list the loaded gene table gives each node).
- Dictionaries are maps: the insertion order of Python dictionaries is not modelled.

SaddleSum runs:

- SaddleResults: the saddlesum processes (`Popen`, the weights written to its input, its output and error text read back) are not modelled; the exit status and both texts are parameters of RunOutcome.
- SaddleResults.SaveQueryData: writing the weights file and the command file is not modelled; the command text is returned.
- SaddleResults.TermScoreArgs: `get_saddlesum_term_scores` computes `command` from `cmd_path` (web/SaddleSum/results.py:130-132) and never uses it, since it runs the program named in the saved command; only the arguments are modelled.
- SaddleResults.TermScoresReplaySavedRun: requires every argument non-empty and free of whitespace; an argument holding a space splits into several when the command is read back.

Graph pictures:

- Render: `open_pipe` and `render_colored` run Graphviz through pipes; the model writes the DOT text neato reads and keeps neato's output, given as its lines.
- Render: an attribute dictionary is the sequence of its items in iteration order, values already as text. ItmGraphics builds maps with numeric values kept as `Num`; Python's `str` of a float and the dictionaries' iteration order, which link the two, are not modelled.
- ItmGraphics.LogUpperExponent: gives the exponent of each logarithmic edge; `pow` of a real base to a real exponent is not modelled.
- ItmGraphics.RenderOneColor: the colour list of the scheme (`BrewerColors[colormap]`) is a parameter; a missing scheme, which raises KeyError in the source, cannot be expressed.
- ItmGraphics.RenderMixedColor, ItmGraphics.RenderOneColor: require one row of values per shown node, as every caller builds them; the neato run and the legend are not modelled.
- ItmGraphics.MakeLayout: the layout is returned as the arguments handed to `NeatoLayout`; the neato run that follows is the one Render models.
- SvgOutput.FindRoots: `_find_roots` extends the caller's list in place, so the caller sees the added relations; the model returns the extended list. The order of the roots is the dictionary's, chosen arbitrarily here.
- SvgOutput.Level: Python's `int` also accepts whitespace around the digits; such a level is refused here.
- SvgOutput.NodeAttrs: the 24-column `textwrap` wrapping of the name is the parameter `wrap`. The dictionary's items are given in the order label, fillcolor, fontcolor.
- SvgOutput.Bins: `10**-m` is a Python float; here it is the exact real.
- SvgOutput.RenderEnrichedSubgraph: running `dot` through its pipes and the SVG post-processing of its output (the image processors and the navigator options) are not modelled. The Brewer colour table is the parameter `brewer`.
- SvgOutput.CreateAndSaveImage: opening the graphics file is modelled only as whether it happens.

Command-line toolkit:

- CommandTool: `build_help`, `uniform_path`, `get_text`, `handle_html_config_row`, `parse_html_config`, `makeHandler` and `handle_program` format help text, resolve paths, read an HTML configuration file, or print, log and exit; they are not modelled.
- CommandTool: `getopt.gnu_getopt` is not modelled. The options it returns are a parameter, and every name it returns is required to be configured, as getopt guarantees.
- CommandTool: the split of shared options into program and command options after the command (common/commandtool/__init__.py:544-660) is not modelled. It runs getopt again on the words before the command.
- CommandTool.Node: a value in an `AttributeDict` is a text leaf or a nested dictionary. Other Python values, and the aliasing of a nested dictionary reachable from two places, are not modelled.
- CommandTool.AttributeDict.Set: a key missing on the way is a KeyError and a non-dictionary on the way is an AttributeError or TypeError, as in the source; the messages are not modelled.
- CommandTool.ManPage: the section is an integer, so a section of None or '' is not modelled; the clock that dates the page when `date` is '' is the parameter `today`.
- CommandTool.ExtractMetavars, CommandTool.SetErrorOn: an option dictionary is the sequence of its items in iteration order; the error messages are not modelled, only GetoptError.
- CommandTool.ResolveCommand: the aliases are the sequence of the dictionary's items in iteration order. A word that is an alias of two commands resolves to the later one, as the loop is written.
- CommandTool: the alias `strip_docsting` is the same function as `strip_docstring`.

## Findings

| source | as written | input that shows it | evidently intended | confidence | as-written member | corrected member |
|---|---|---|---|---|---|---|
| ITMProbe/output.py:84-92 | `'{0:{1}.{2}}'.format(s, n, n)` with n = 0 makes the specification `0.0`, whose leading 0 requests zero padding with `=` alignment, and Python 2 refuses that for strings with ValueError | a table without headers whose only column holds empty strings, such as the body `[[""]]` | print a column of width 0 as empty cells | medium, not executed | Output.CellAsWritten, Output.EmptyColumnRaises | Output.Fit, Output.RowSpansRule |
| ITMProbe/core/nchannel.py:116-134 | after `A = A.T.tocsr()`, the rows and columns of the disconnected nodes are located in `df_mask` with the transposed matrix's `indptr` and `indices`, but `df_mask` is laid out like the untransposed matrix | 3 nodes; 0 links to 0, 1 and 2; 1 and 2 link only to themselves; source 0, sink 1: node 2 is disconnected, yet the link 0→2 stays on and the on-path link 1→1 is switched off | switch off exactly the links into or out of disconnected nodes, by the matrix's own pattern | high, not executed | NChannel.PrunedAsWritten, NChannel.TransposedPruningMisplaced | NChannel.PruneToPaths, NChannel.PrunedToPaths |
| common/utils/filesys.py:91-105 | `write_string_list([])` stores the buffer "\0", which `read_string_list` splits into `['', '']` and cuts to `['']` | the empty list | the empty list reads back as the empty list, as every non-empty list of NUL-free strings does | medium, not executed | Filesys.EmptyListReadsAsOneEmptyString | Filesys.WriteTerminated, Filesys.RoundTripTerminated |
| common/db_parsers/ncbi_gene.py:221-283 | the writer stores an empty conflict table as its size 0, no counts, and an empty string list; the reader stops after the size, so the next read starts inside that string list | both conflict tables empty: the second is read back as `{'': set()}` | read the empty table's string list too, so that every table reads back as written | high, not executed | NcbiIndex.EmptyConflictsMisread | NcbiIndex.ConflictsRoundTrip |
| common/db_parsers/obo.py:224-228 | `bool(value)` is true for any non-empty value; on a line without a ` ! ` comment the value keeps its line break, and with one it is the text before the comment, so `false` is non-empty either way | `is_transitive: false` | mark the typedef transitive only for the value `true`, as `_process_obsolete` does for `is_obsolete` | high, not executed | Obo.IsTransitiveFalseAsWritten | Obo.IsTransitiveOnlyTrue |
| common/db_parsers/obo.py:230-233 | `transitive_over` stores its value unstripped; on a line without a ` ! ` comment that value keeps its line break, while `_process_relationship` strips and splits, so `transitive_closure` (obo.py:321) does not match the two (a trailing comment, as in `transitive_over: part_of ! part_of`, happens to drop the line break) | `transitive_over: part_of` with `relationship: part_of GO:1` | store the stripped relationship type | high, not executed | Obo.TransitiveOverKeepsLineBreak | Obo.TransitiveOverMatchesRelationship |
| common/db_parsers/etermdb.py:264-276 | the first pass stores every relationship of every term, and the second pass looks each parent up among the section's terms; but `transitive_closure` does not follow a relationship whose type the typedef that reached its term is not transitive over | A part_of B, B regulates C, `part_of` transitive over `part_of` only: the closure of A is {A, B}, and looking up C raises KeyError | keep only the relationships whose parent is in the section | medium, not executed | EtermGo.UnfollowedParentRaises | EtermGo.GoSectionKept, EtermGo.GoSectionKeptResolves |
| web/SaddleSum/validate.py:100-102 | the default of the statistics choice is the string `'wsum'`, and `find_input_option(...)[0]` takes its first character | a form without a `stats` field: the program gets `-s w` | the default pair `('wsum', 'wsum')`, giving `wsum` | high, not executed | SaddleSumValidate.StatsAsWritten, SaddleSumValidate.DefaultsTruncated | SaddleSumValidate.Stats |
| web/SaddleSum/validate.py:151-152 | the default image format is the string `'netmapsvg'`, and `[0]` takes its first character | a form without an `image_format` field: the format is `n` | the default pair, giving `netmapsvg` | high, not executed | SaddleSumValidate.ImageFormatAsWritten, SaddleSumValidate.DefaultsTruncated | SaddleSumValidate.ImageFormat |
| web/SaddleSum/validate.py:154-155 | the default colour map is the string `'Blues8'`, and `[0]` takes its first character | a form without a `color_map` field: the colour map is `B` | the default pair, giving `Blues8` | high, not executed | SaddleSumValidate.ColormapAsWritten, SaddleSumValidate.DefaultsTruncated | SaddleSumValidate.Colormap |
| common/commandtool/__init__.py:272-279 | each non-empty line is cut by `line[min:]`, where `min` counts columns (a tab counts `tabstop`), not characters | the docstring made of a tab and "ab", tabstop 4: the tab counts 4 columns, `min` keeps its start value 3 (the docstring's length), and `line[3:]` is empty | remove `min` columns of indentation, a tab taking `tabstop` of them | high, not executed | CommandTool.StripDocstringAsWritten, CommandTool.TabIndentedLineLost | CommandTool.StrippedDocstring, CommandTool.StrippedDocstringMeaning |
| common/commandtool/__init__.py:238-250 | a metavar is recorded only inside the branch that finds it already recorded, so the dictionary stays empty and no conflict is ever reported | `-d X` and `--dir Y`, both with metavar DIR | record a metavar when first seen and raise GetoptError when a later option gives it another value | high, not executed | CommandTool.ExtractMetavarsAsWritten, CommandTool.ConflictUnreported | CommandTool.ExtractMetavars, CommandTool.ExtractMetavarsMeaning |
