/** The commands of ITM Probe (ITMProbe/commands.py) that compute rather
  * than read and write: the variables handed to the report, layout and
  * image scripts, the bin and value-column choices of a picture, the
  * checks that pick the graph a model runs on, and the vectors of node
  * values and bin edges a picture is drawn from. Loading files, running
  * the scripts and rendering are left out; the formatting of a float as
  * `'%.6e'` is a parameter. */
module Commands {
  import opened Wrappers
  import opened Text
  import opened Indexing

  const OrderByVar := "$orderby$"
  const MaxRowsVar := "$maxrows$"
  const UsePrVar := "$usepr$"
  const CriterionVar := "$criterion$"
  const ValColStmtVar := "$valcolstmt$"
  const ValColVar := "$valcol$"

  // ------------------------------------------------------------------
  // Script variables
  // ------------------------------------------------------------------

  /** With the participation ratio in use the cutoff is dropped
    * (ITMProbe/commands.py:134-135). */
  function EffectiveCutoff(usePr: bool, cutoff: Option<real>): (c: Option<real>)
    ensures c.Some? <==> !usePr && cutoff.Some?
    ensures c.Some? ==> c == cutoff
  {
    if usePr then None else cutoff
  }

  /** `'WHERE %s > %.6e' % (order_by, cutoff)`, or nothing without a
    * cutoff (ITMProbe/commands.py:136-139). */
  function Criterion(orderBy: string, cutoff: Option<real>, exp6: real -> string): (s: string)
    ensures s == "" <==> cutoff.None?
    ensures cutoff.Some? ==>
              |s| == 9 + |orderBy| + |exp6(cutoff.value)| &&
              s[..6] == "WHERE " && s[6..6 + |orderBy|] == orderBy &&
              s[6 + |orderBy|..9 + |orderBy|] == " > " &&
              s[9 + |orderBy|..] == exp6(cutoff.value)
  {
    match cutoff
    case None => ""
    case Some(x) => "WHERE " + orderBy + " > " + exp6(x)
  }

  /** `str(int(flag))`. */
  function FlagText(flag: bool): string
  {
    if flag then "1" else "0"
  }

  /** `get_script_vars`: the column to order by, the row limit as decimal
    * text, the participation-ratio flag as `'1'` or `'0'` and the
    * selection criterion (ITMProbe/commands.py:131-146). */
  function ScriptVars(maxRows: int, orderBy: string, usePr: bool, cutoff: Option<real>,
                      exp6: real -> string): (vars: map<string, string>)
    ensures vars.Keys == {OrderByVar, MaxRowsVar, UsePrVar, CriterionVar}
    ensures vars[OrderByVar] == orderBy
    ensures ParseInt(vars[MaxRowsVar]) == Some(maxRows)
    ensures ParseInt(vars[UsePrVar]) == Some(if usePr then 1 else 0)
    ensures vars[CriterionVar] == "" <==> usePr || cutoff.None?
  {
    assert ParseInt("1") == Some(1) && ParseInt("0") == Some(0) by {
      assert IntToString(1) == "1" && IntToString(0) == "0";
    }
    map[OrderByVar := orderBy,
        MaxRowsVar := IntToString(maxRows),
        UsePrVar := FlagText(usePr),
        CriterionVar := Criterion(orderBy, EffectiveCutoff(usePr, cutoff), exp6)]
  }

  /** With the participation ratio in use, no cutoff changes the
    * variables (ITMProbe/commands.py:134-135). */
  lemma {:induction false} UsePrIgnoresCutoff(maxRows: int, orderBy: string, c1: Option<real>, c2: Option<real>,
                                              exp6: real -> string)
    ensures ScriptVars(maxRows, orderBy, true, c1, exp6) == ScriptVars(maxRows, orderBy, true, c2, exp6)
  {
    assert EffectiveCutoff(true, c1) == EffectiveCutoff(true, c2);
  }

  /** Without the participation ratio a given cutoff reaches the
    * criterion, and the criterion names the ordering column
    * (ITMProbe/commands.py:136-137). */
  lemma CutoffReachesCriterion(maxRows: int, orderBy: string, x: real, exp6: real -> string)
    ensures var c := ScriptVars(maxRows, orderBy, false, Some(x), exp6)[CriterionVar];
            c[..6] == "WHERE " && c[6..6 + |orderBy|] == orderBy && c[9 + |orderBy|..] == exp6(x)
  {
    assert EffectiveCutoff(false, Some(x)) == Some(x);
  }

  /** `get_saddlesum_weights`: every row, no participation ratio, no
    * cutoff, and the chosen value column (ITMProbe/commands.py:339-343). */
  function SaddleSumVars(valueCol: string, exp6: real -> string): (vars: map<string, string>)
    ensures vars.Keys == {OrderByVar, MaxRowsVar, UsePrVar, CriterionVar, ValColVar}
    ensures vars[ValColVar] == valueCol && vars[CriterionVar] == ""
    ensures ParseInt(vars[MaxRowsVar]) == Some(-1) && ParseInt(vars[UsePrVar]) == Some(0)
  {
    ScriptVars(-1, "total_content", false, None, exp6)[ValColVar := valueCol]
  }

  // ------------------------------------------------------------------
  // Picture settings
  // ------------------------------------------------------------------

  /** The bin factories `image` knows by name. */
  datatype BinsKind = LogUpper | Linear | SqrtBins

  /** `_bins_functions[bins_func]`: an unknown name is a KeyError
    * (ITMProbe/commands.py:315-319). */
  function BinsKindNamed(name: string): (r: Result<BinsKind>)
    ensures r.Ok? <==> name in {"log_upper", "linear", "sqrt"}
    ensures r.Err? ==> r.error == "KeyError"
    ensures r == Ok(Linear) <==> name == "linear"
  {
    if name == "log_upper" then Ok(LogUpper)
    else if name == "linear" then Ok(Linear)
    else if name == "sqrt" then Ok(SqrtBins)
    else Err("KeyError")
  }

  /** The SQL statement that picks the value columns: every data column
    * for a mixed picture, otherwise the ordering column, unless the caller
    * names the columns (ITMProbe/commands.py:323-329). */
  function ValueColumnsStatement(mixed: bool, valueCols: Option<string>, orderBy: string): (s: string)
    ensures s == "SELECT group_concat(colid) FROM datacols" <==> mixed && valueCols.None?
    ensures !(mixed && valueCols.None?) ==>
              var named := if valueCols.Some? then valueCols.value else orderBy;
              |s| == 9 + |named| && s[..8] == "SELECT '" && s[8..8 + |named|] == named && s[8 + |named|..] == "'"
  {
    if valueCols.None? && mixed then "SELECT group_concat(colid) FROM datacols"
    else
      var named := if valueCols.Some? then valueCols.value else orderBy;
      var s := "SELECT '" + named + "'";
      assert s[..8] == "SELECT '" && s[8..8 + |named|] == named && s[8 + |named|..] == "'";
      assert s[7] == '\'' && "SELECT group_concat(colid) FROM datacols"[7] == 'g';
      s
  }

  /** What `image` hands on to the picture: the number of bins, the bin
    * factory and the script variables. */
  datatype ImageSetup = ImageSetup(numBins: nat, kind: BinsKind, vars: map<string, string>)

  /** `image` up to the call of `custom_image`: 256 bins for a mixed
    * picture and 8 otherwise, the named bin factory, and the report
    * variables with the value-column statement added
    * (ITMProbe/commands.py:308-330). */
  function Image(mixed: bool, valueCols: Option<string>, maxRows: int, orderBy: string, usePr: bool,
                 cutoff: Option<real>, binsFunc: string, exp6: real -> string): (r: Result<ImageSetup>)
    ensures r.Ok? <==> BinsKindNamed(binsFunc).Ok?
    ensures r.Err? ==> r.error == "KeyError"
    ensures r.Ok? ==> r.value.numBins == (if mixed then 256 else 8) && r.value.kind == BinsKindNamed(binsFunc).value
    ensures r.Ok? ==> r.value.vars.Keys == {OrderByVar, MaxRowsVar, UsePrVar, CriterionVar, ValColStmtVar}
    ensures r.Ok? ==> r.value.vars[ValColStmtVar] == ValueColumnsStatement(mixed, valueCols, orderBy)
    ensures r.Ok? ==> forall v :: v in r.value.vars && v != ValColStmtVar ==>
                        r.value.vars[v] == ScriptVars(maxRows, orderBy, usePr, cutoff, exp6)[v]
  {
    var numBins := if mixed then 256 else 8;
    var kind :- BinsKindNamed(binsFunc);
    var vars := ScriptVars(maxRows, orderBy, usePr, cutoff, exp6);
    Ok(ImageSetup(numBins, kind, vars[ValColStmtVar := ValueColumnsStatement(mixed, valueCols, orderBy)]))
  }

  // ------------------------------------------------------------------
  // Choosing the graph
  // ------------------------------------------------------------------

  /** The arrays of a graph given inline: node names and the CSR layout
    * of its weights, with optional node weights. */
  datatype GraphSpec = GraphSpec(nodes: seq<string>, data: seq<real>, indices: seq<int>, indptr: seq<int>,
                                 nodeWeights: Option<map<string, real>>)

  /** Where the graph comes from: a stored file or inline arrays. */
  datatype Origin = FromFile(path: string) | FromArrays(spec: GraphSpec)

  /** The graph object `graph_from_kwargs` builds, described by its
    * origin, its file name and its name. */
  datatype Graph = Graph(origin: Origin, filename: Option<string>, name: Arg)

  /** A keyword argument of a model: text, an inline graph, a built
    * graph, or anything else. */
  datatype Arg = Word(s: string) | GraphArg(spec: GraphSpec) | Built(g: Graph) | OtherArg

  const DefaultGraphName := "Custom graph"

  /** The graph a set of keyword arguments describes: from the file
    * `graph_path` when given, else from the inline `graph`, named by
    * `graph_name` or 'Custom graph'; neither source is a RuntimeError and
    * a source of the wrong kind a TypeError
    * (ITMProbe/commands.py:61-89). */
  function GraphOf(kwargs: map<string, Arg>, jsonFilename: Option<string>): (r: Result<Graph>)
    ensures r.Err? && r.error == "RuntimeError" <==> "graph_path" !in kwargs && "graph" !in kwargs
    ensures r.Ok? <==> ("graph_path" in kwargs && kwargs["graph_path"].Word?) ||
                       ("graph_path" !in kwargs && "graph" in kwargs && kwargs["graph"].GraphArg?)
    ensures r.Ok? && "graph_path" in kwargs ==> r.value.origin == FromFile(kwargs["graph_path"].s)
                                                && r.value.filename == Some(kwargs["graph_path"].s)
    ensures r.Ok? && "graph_path" !in kwargs ==> r.value.origin == FromArrays(kwargs["graph"].spec)
                                                 && r.value.filename == jsonFilename
    ensures r.Ok? ==> r.value.name == if "graph_name" in kwargs then kwargs["graph_name"] else Word(DefaultGraphName)
  {
    var origin :-
      if "graph_path" in kwargs then
        if kwargs["graph_path"].Word? then Ok(FromFile(kwargs["graph_path"].s)) else Err("TypeError")
      else if "graph" in kwargs then
        if kwargs["graph"].GraphArg? then Ok(FromArrays(kwargs["graph"].spec)) else Err("TypeError")
      else Err("RuntimeError");
    var filename := if origin.FromFile? then Some(origin.path) else jsonFilename;
    var name := if "graph_name" in kwargs then kwargs["graph_name"] else Word(DefaultGraphName);
    Ok(Graph(origin, filename, name))
  }

  /** `graph_from_kwargs`: the source and the name are taken out of the
    * arguments and the graph is stored under 'G'; an inline graph given
    * beside a file stays (ITMProbe/commands.py:61-91). */
  function GraphFromKwargs(kwargs: map<string, Arg>, jsonFilename: Option<string>): (r: Result<map<string, Arg>>)
    ensures r.Ok? <==> GraphOf(kwargs, jsonFilename).Ok?
    ensures r.Err? ==> r.error == GraphOf(kwargs, jsonFilename).error
    ensures r.Ok? ==> "G" in r.value && r.value["G"] == Built(GraphOf(kwargs, jsonFilename).value)
    ensures r.Ok? ==> "graph_path" !in r.value && "graph_name" !in r.value
    ensures r.Ok? && "graph_path" !in kwargs ==> "graph" !in r.value
    ensures r.Ok? ==> forall k :: k in kwargs && k !in {"graph_path", "graph_name", "G"} &&
                                  !(k == "graph" && "graph_path" !in kwargs) ==>
                                    k in r.value && r.value[k] == kwargs[k]
    ensures r.Ok? ==> forall k :: k in r.value && k != "G" ==> k in kwargs
  {
    var g :- GraphOf(kwargs, jsonFilename);
    var used := if "graph_path" in kwargs then "graph_path" else "graph";
    Ok((kwargs - {used, "graph_name"})["G" := Built(g)])
  }

  // ------------------------------------------------------------------
  // Node values and bin edges of a picture
  // ------------------------------------------------------------------

  /** A row the image script returns: the node name, then its values. */
  datatype Row = Row(node: string, values: seq<real>)

  /** The last row, of the first `n`, that writes position `i` with at
    * least `need` values. */
  function LastAt(idx: map<string, nat>, rows: seq<Row>, i: nat, need: nat): (k: Option<nat>)
    ensures k.Some? ==> k.value < |rows| && rows[k.value].node in idx && idx[rows[k.value].node] == i
                        && |rows[k.value].values| >= need
    ensures k.Some? ==> forall m :: k.value < m < |rows| ==>
                          !(rows[m].node in idx && idx[rows[m].node] == i && |rows[m].values| >= need)
    ensures k.None? ==> forall m :: 0 <= m < |rows| ==>
                          !(rows[m].node in idx && idx[rows[m].node] == i && |rows[m].values| >= need)
  {
    if rows == [] then None
    else
      var last := rows[|rows| - 1];
      if last.node in idx && idx[last.node] == i && |last.values| >= need then Some(|rows| - 1)
      else LastAt(idx, rows[..|rows| - 1], i, need)
  }

  /** One row of a one-colour picture: a shown node gets its first value;
    * a shown node without values, or past the end, is an IndexError
    * (ITMProbe/commands.py:293-296). */
  function OneColorStep(v: seq<real>, idx: map<string, nat>, row: Row): Result<seq<real>>
  {
    if row.node !in idx then Ok(v)
    else if idx[row.node] >= |v| || row.values == [] then Err("IndexError")
    else Ok(v[idx[row.node] := row.values[0]])
  }

  /** The node values of a one-colour picture after the rows, in order. */
  function OneColor(v: seq<real>, idx: map<string, nat>, rows: seq<Row>): Result<seq<real>>
  {
    if rows == [] then Ok(v)
    else
      var prev :- OneColor(v, idx, rows[..|rows| - 1]);
      OneColorStep(prev, idx, rows[|rows| - 1])
  }

  /** A row that cannot be stored. */
  predicate BadOneColorRow(n: nat, idx: map<string, nat>, row: Row)
  {
    row.node in idx && (idx[row.node] >= n || row.values == [])
  }

  /** The rows fail exactly when one of them cannot be stored; otherwise
    * each position holds the first value of the last row naming it, and
    * keeps its old value when no row does. */
  lemma {:induction false} OneColorMeaning(v: seq<real>, idx: map<string, nat>, rows: seq<Row>)
    ensures OneColor(v, idx, rows).Err? <==> exists k :: 0 <= k < |rows| && BadOneColorRow(|v|, idx, rows[k])
    ensures OneColor(v, idx, rows).Ok? ==>
              var w := OneColor(v, idx, rows).value;
              |w| == |v| &&
              forall i :: 0 <= i < |v| ==>
                match LastAt(idx, rows, i, 0)
                case Some(k) => rows[k].values != [] && w[i] == rows[k].values[0]
                case None => w[i] == v[i]
    decreases |rows|
  {
    if rows != [] {
      var init := rows[..|rows| - 1];
      var last := rows[|rows| - 1];
      OneColorMeaning(v, idx, init);
      forall k | 0 <= k < |init| ensures init[k] == rows[k] { }
      if OneColor(v, idx, init).Ok? {
        var prev := OneColor(v, idx, init).value;
        if OneColor(v, idx, rows).Ok? {
          var w := OneColor(v, idx, rows).value;
          forall i | 0 <= i < |v|
            ensures match LastAt(idx, rows, i, 0)
                    case Some(k) => rows[k].values != [] && w[i] == rows[k].values[0]
                    case None => w[i] == v[i]
          {
            if LastAt(idx, rows, i, 0) != LastAt(idx, init, i, 0) {
              assert LastAt(idx, rows, i, 0) == Some(|rows| - 1);
            }
          }
        } else {
          assert BadOneColorRow(|v|, idx, rows[|rows| - 1]);
        }
      } else {
        var k :| 0 <= k < |init| && BadOneColorRow(|v|, idx, init[k]);
        assert BadOneColorRow(|v|, idx, rows[k]);
      }
    }
  }

  /** With the index built from the shown nodes, a node listed twice is
    * drawn at its last place only: the earlier place is never written
    * (ITMProbe/commands.py:258). */
  lemma EarlierDuplicateUnwritten(shown: seq<string>, rows: seq<Row>, i: nat, j: nat)
    requires i < j < |shown| && shown[i] == shown[j]
    ensures LastAt(Enumerated(shown), rows, i, 0).None?
  {
  }

  /** Fills the one-colour node values row by row. */
  method FillOneColor(values: array<real>, idx: map<string, nat>, rows: seq<Row>) returns (r: Result<()>)
    modifies values
    ensures r.Ok? <==> OneColor(old(values[..]), idx, rows).Ok?
    ensures r.Ok? ==> values[..] == OneColor(old(values[..]), idx, rows).value
    ensures r.Err? ==> OneColor(old(values[..]), idx, rows) == Err(r.error)
  {
    ghost var start := values[..];
    var k := 0;
    while k < |rows|
      invariant 0 <= k <= |rows|
      invariant OneColor(start, idx, rows[..k]) == Ok(values[..])
    {
      assert rows[..k + 1][..k] == rows[..k];
      var row := rows[k];
      if row.node in idx {
        var i := idx[row.node];
        if i >= values.Length || row.values == [] {
          OneColorStops(start, idx, rows, k + 1);
          return Err("IndexError");
        }
        values[i] := row.values[0];
      }
      k := k + 1;
    }
    assert rows[..k] == rows;
    r := Ok(());
  }

  /** A failing prefix makes the whole list fail. */
  lemma {:induction false} OneColorStops(v: seq<real>, idx: map<string, nat>, rows: seq<Row>, n: nat)
    requires n <= |rows| && OneColor(v, idx, rows[..n]).Err?
    ensures OneColor(v, idx, rows) == OneColor(v, idx, rows[..n])
    decreases |rows| - n
  {
    if n < |rows| {
      assert rows[..n + 1][..n] == rows[..n];
      OneColorStops(v, idx, rows, n + 1);
    } else {
      assert rows[..n] == rows;
    }
  }

  /** The one-colour node values: zero for each shown node, then the
    * rows of the script (ITMProbe/commands.py:258, 292-296). */
  method OneColorNodeValues(shown: seq<string>, rows: seq<Row>) returns (r: Result<seq<real>>)
    ensures r == OneColor(seq(|shown|, _ => 0.0), Enumerated(shown), rows)
  {
    var values := new real[|shown|](_ => 0.0);
    assert values[..] == seq(|shown|, _ => 0.0);
    var filled := FillOneColor(values, Enumerated(shown), rows);
    if filled.Err? {
      return Err(filled.error);
    }
    r := Ok(values[..]);
  }

  /** The first three values of a row over a row of the grid, the rest
    * of the grid row kept (ITMProbe/commands.py:282-286). */
  function Overlay(cells: seq<real>, vals: seq<real>): (r: seq<real>)
    ensures |r| == |cells|
    ensures forall j :: 0 <= j < |cells| ==> r[j] == if j < 3 && j < |vals| then vals[j] else cells[j]
  {
    seq(|cells|, j requires 0 <= j < |cells| => if j < 3 && j < |vals| then vals[j] else cells[j])
  }

  /** One row of a mixed-colour picture: a shown node gets up to three
    * values in its grid row; a row past the end of the grid is an
    * IndexError (ITMProbe/commands.py:280-286). */
  function MixedStep(g: seq<seq<real>>, idx: map<string, nat>, row: Row): Result<seq<seq<real>>>
  {
    if row.node !in idx then Ok(g)
    else if idx[row.node] >= |g| then Err("IndexError")
    else Ok(g[idx[row.node] := Overlay(g[idx[row.node]], row.values)])
  }

  /** The grid of a mixed-colour picture after the rows, in order. */
  function Mixed(g: seq<seq<real>>, idx: map<string, nat>, rows: seq<Row>): Result<seq<seq<real>>>
  {
    if rows == [] then Ok(g)
    else
      var prev :- Mixed(g, idx, rows[..|rows| - 1]);
      MixedStep(prev, idx, rows[|rows| - 1])
  }

  /** The rows fail exactly when one names a node indexed past the grid;
    * otherwise cell (i, j), j < 3, holds value j of the last row for
    * node i that has that many values, and keeps its old value when
    * no row has: a row with fewer values leaves the later columns of an
    * earlier row in place. */
  lemma {:induction false} MixedMeaning(g: seq<seq<real>>, idx: map<string, nat>, rows: seq<Row>)
    ensures Mixed(g, idx, rows).Err? <==>
              exists k :: 0 <= k < |rows| && rows[k].node in idx && idx[rows[k].node] >= |g|
    ensures Mixed(g, idx, rows).Ok? ==>
              var w := Mixed(g, idx, rows).value;
              |w| == |g| && (forall i :: 0 <= i < |g| ==> |w[i]| == |g[i]|) &&
              forall i, j :: 0 <= i < |g| && 0 <= j < |g[i]| ==>
                (j < 3 ==> match LastAt(idx, rows, i, j + 1)
                           case Some(k) => w[i][j] == rows[k].values[j]
                           case None => w[i][j] == g[i][j]) &&
                (j >= 3 ==> w[i][j] == g[i][j])
    decreases |rows|
  {
    if rows != [] {
      var init := rows[..|rows| - 1];
      MixedMeaning(g, idx, init);
      forall k | 0 <= k < |init| ensures init[k] == rows[k] { }
      if Mixed(g, idx, init).Ok? {
        if Mixed(g, idx, rows).Ok? {
          var prev := Mixed(g, idx, init).value;
          var w := Mixed(g, idx, rows).value;
          forall i, j | 0 <= i < |g| && 0 <= j < |g[i]|
            ensures (j < 3 ==> match LastAt(idx, rows, i, j + 1)
                               case Some(k) => w[i][j] == rows[k].values[j]
                               case None => w[i][j] == g[i][j]) &&
                    (j >= 3 ==> w[i][j] == g[i][j])
          {
            assert |prev[i]| == |g[i]|;
            if j < 3 && LastAt(idx, rows, i, j + 1) != LastAt(idx, init, i, j + 1) {
              assert LastAt(idx, rows, i, j + 1) == Some(|rows| - 1);
            }
          }
        }
      } else {
        var k :| 0 <= k < |init| && init[k].node in idx && idx[init[k].node] >= |g|;
        assert rows[k] == init[k];
      }
    }
  }

  /** The rows of a two-dimensional array. */
  function GridOf(a: array2<real>): (g: seq<seq<real>>)
    reads a
    ensures |g| == a.Length0
    ensures forall i :: 0 <= i < |g| ==> |g[i]| == a.Length1
    ensures forall i, j :: 0 <= i < a.Length0 && 0 <= j < a.Length1 ==> g[i][j] == a[i, j]
  {
    seq(a.Length0, i requires 0 <= i < a.Length0 reads a =>
      seq(a.Length1, j requires 0 <= j < a.Length1 reads a => a[i, j]))
  }

  /** Stores up to three values of a row into row `i` of the grid
    * (ITMProbe/commands.py:282-286). */
  method SetCells(a: array2<real>, i: nat, vals: seq<real>)
    requires i < a.Length0
    modifies a
    ensures GridOf(a) == old(GridOf(a))[i := Overlay(old(GridOf(a))[i], vals)]
  {
    ghost var before := GridOf(a);
    var numCols := if |vals| < 3 then |vals| else 3;
    var j := 0;
    while j < numCols && j < a.Length1
      invariant 0 <= j <= a.Length1 && j <= numCols
      invariant forall r, c :: 0 <= r < a.Length0 && 0 <= c < a.Length1 ==>
                  a[r, c] == if r == i && c < j then vals[c] else before[r][c]
    {
      a[i, j] := vals[j];
      j := j + 1;
    }
    ghost var want := before[i := Overlay(before[i], vals)];
    assert GridOf(a) == want by {
      forall r | 0 <= r < a.Length0 ensures GridOf(a)[r] == want[r] {
        assert |want[r]| == a.Length1;
        forall c | 0 <= c < a.Length1 ensures GridOf(a)[r][c] == want[r][c] { }
      }
    }
  }

  /** Fills the mixed-colour grid row by row. */
  method FillMixed(a: array2<real>, idx: map<string, nat>, rows: seq<Row>) returns (r: Result<()>)
    modifies a
    ensures r.Ok? <==> Mixed(old(GridOf(a)), idx, rows).Ok?
    ensures r.Ok? ==> GridOf(a) == Mixed(old(GridOf(a)), idx, rows).value
  {
    ghost var start := GridOf(a);
    var k := 0;
    while k < |rows|
      invariant 0 <= k <= |rows|
      invariant Mixed(start, idx, rows[..k]) == Ok(GridOf(a))
    {
      assert rows[..k + 1][..k] == rows[..k];
      var row := rows[k];
      if row.node in idx {
        var i := idx[row.node];
        if i >= a.Length0 {
          MixedStops(start, idx, rows, k + 1);
          return Err("IndexError");
        }
        SetCells(a, i, row.values);
      }
      k := k + 1;
    }
    assert rows[..k] == rows;
    r := Ok(());
  }

  /** A failing prefix makes the whole list fail. */
  lemma {:induction false} MixedStops(g: seq<seq<real>>, idx: map<string, nat>, rows: seq<Row>, n: nat)
    requires n <= |rows| && Mixed(g, idx, rows[..n]).Err?
    ensures Mixed(g, idx, rows).Err?
    decreases |rows| - n
  {
    if n < |rows| {
      assert rows[..n + 1][..n] == rows[..n];
      MixedStops(g, idx, rows, n + 1);
    } else {
      assert rows[..n] == rows;
    }
  }

  /** The mixed-colour node values: three zeros for each shown node,
    * then the rows of the script; the index built from the shown nodes
    * never points past the grid (ITMProbe/commands.py:258, 279-286). */
  method MixedNodeValues(shown: seq<string>, rows: seq<Row>) returns (g: seq<seq<real>>)
    ensures Mixed(seq(|shown|, _ => [0.0, 0.0, 0.0]), Enumerated(shown), rows) == Ok(g)
  {
    var a := new real[|shown|, 3]((_, _) => 0.0);
    ghost var zeros := seq(|shown|, _ => [0.0, 0.0, 0.0]);
    assert GridOf(a) == zeros by {
      forall i | 0 <= i < |shown| ensures GridOf(a)[i] == zeros[i] { }
    }
    var filled := FillMixed(a, Enumerated(shown), rows);
    MixedMeaning(zeros, Enumerated(shown), rows);
    assert Mixed(zeros, Enumerated(shown), rows).Ok? by {
      forall k | 0 <= k < |rows| && rows[k].node in Enumerated(shown)
        ensures Enumerated(shown)[rows[k].node] < |zeros| { }
    }
    g := GridOf(a);
  }

  /** The bin edges: the first column of the script's rows; a row with
    * no column is an IndexError (ITMProbe/commands.py:274-276). */
  method BinEdges(rows: seq<seq<real>>) returns (r: Result<seq<real>>)
    ensures r.Ok? <==> forall k :: 0 <= k < |rows| ==> rows[k] != []
    ensures r.Err? ==> r.error == "IndexError"
    ensures r.Ok? ==> |r.value| == |rows| && forall k :: 0 <= k < |rows| ==> r.value[k] == rows[k][0]
  {
    var bins := new real[|rows|](_ => 0.0);
    var k := 0;
    while k < |rows|
      invariant 0 <= k <= |rows|
      invariant forall m :: 0 <= m < k ==> rows[m] != [] && bins[m] == rows[m][0]
    {
      if rows[k] == [] {
        return Err("IndexError");
      }
      bins[k] := rows[k][0];
      k := k + 1;
    }
    r := Ok(bins[..]);
  }
}
