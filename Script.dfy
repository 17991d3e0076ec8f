/** ITM scripts of ITMProbe/core/script.py: the functions the SQL engine
  * is given (`delta`, `srccol`, `snkcol` and the aggregate
  * `participation_ratio`), and the script context, whose parse actions
  * check that every `$var$` a statement uses was defined before it and
  * that the script defines every required `@var`, and whose execution
  * substitutes the variables and stores the query results. */
module Script {
  import opened Wrappers
  import opened Text

  // ---------------------------------------------------------------------
  // SQL functions
  // ---------------------------------------------------------------------

  /** `delta(i, j)`. */
  function Delta(i: int, j: int): (r: int)
    ensures r == 1 <==> i == j
    ensures r == 0 <==> i != j
  {
    if i == j then 1 else 0
  }

  /** A row of a result table: the id of its source or sink and its value. */
  datatype Entry = Entry(id: int, val: real)

  /** `sum(tbl.val*delta(tbl.id, i))` over the rows of a group. */
  function PivotSum(rows: seq<Entry>, i: int): real
  {
    if rows == [] then 0.0
    else PivotSum(rows[..|rows| - 1], i) + rows[|rows| - 1].val * Delta(rows[|rows| - 1].id, i) as real
  }

  /** The sum of the values of the rows whose id is `i`. */
  function SelectedSum(rows: seq<Entry>, i: int): real
  {
    if rows == [] then 0.0
    else SelectedSum(rows[1..], i) + (if rows[0].id == i then rows[0].val else 0.0)
  }

  lemma {:induction false} SelectedSumSnoc(rows: seq<Entry>, e: Entry, i: int)
    ensures SelectedSum(rows + [e], i) == SelectedSum(rows, i) + (if e.id == i then e.val else 0.0)
  {
    if rows != [] {
      assert (rows + [e])[1..] == rows[1..] + [e];
      SelectedSumSnoc(rows[1..], e, i);
    } else {
      assert [e][1..] == [];
    }
  }

  /** Pivoting: the `delta` column sum for `i` is the sum of the values of
    * the rows about `i`, so each `datacol<i>` holds the rows of source or
    * sink `i` only. */
  lemma {:induction false} PivotPicks(rows: seq<Entry>, i: int)
    ensures PivotSum(rows, i) == SelectedSum(rows, i)
  {
    if rows != [] {
      var n := |rows| - 1;
      PivotPicks(rows[..n], i);
      SelectedSumSnoc(rows[..n], rows[n], i);
      assert rows[..n] + [rows[n]] == rows;
    }
  }

  /** The text `sum(<tbl>.val*delta(<tbl>.<id>, <i>))<gap>AS datacol<i>`. */
  function PivotColumn(tbl: string, id: string, gap: string, i: int): string
  {
    ("sum(" + tbl) + (".val*delta(" + tbl + "." + id + ", " + IntToString(i) + "))" + gap + "AS ") + ("datacol" + IntToString(i))
  }

  /** `srccol(i, tbl)`: the SQL column that pivots H on source `i`. */
  function SrcCol(i: int, tbl: string): string
  {
    PivotColumn(tbl, "sourceid", " ", i)
  }

  /** `snkcol(i, tbl)`: the SQL column that pivots F on sink `i`; it has
    * two spaces before `AS`. */
  function SnkCol(i: int, tbl: string): string
  {
    PivotColumn(tbl, "sinkid", "  ", i)
  }

  /** `s` sums a column of `tbl` and is named `datacol` followed by the
    * digits of `i`, which read back as `i`. */
  predicate ColumnNamed(s: string, i: int, tbl: string)
  {
    var d := IntToString(i);
    && |s| >= 4 + |tbl| + 7 + |d|
    && s[..4 + |tbl|] == "sum(" + tbl
    && s[|s| - |d| - 7..|s| - |d|] == "datacol"
    && ParseInt(s[|s| - |d|..]) == Some(i)
  }

  lemma PivotColumnNamed(tbl: string, id: string, gap: string, i: int)
    ensures ColumnNamed(PivotColumn(tbl, id, gap, i), i, tbl)
  {
    var mid := ".val*delta(" + tbl + "." + id + ", " + IntToString(i) + "))" + gap + "AS ";
    NamedFromPieces(PivotColumn(tbl, id, gap, i), mid, i, tbl);
  }

  lemma NamedFromPieces(s: string, mid: string, i: int, tbl: string)
    requires s == ("sum(" + tbl) + mid + ("datacol" + IntToString(i))
    ensures ColumnNamed(s, i, tbl)
  {
    var d := IntToString(i);
    ThreePieces("sum(" + tbl, mid, "datacol", d);
    assert s[|s| - |d|..] == d;
  }

  /** Where the pieces of `head + mid + (word + tail)` lie. */
  lemma ThreePieces<T>(head: seq<T>, mid: seq<T>, word: seq<T>, tail: seq<T>)
    ensures var s := head + mid + (word + tail);
      && |s| == |head| + |mid| + |word| + |tail|
      && s[..|head|] == head
      && s[|s| - |tail| - |word|..|s| - |tail|] == word
      && s[|s| - |tail|..] == tail
  {
  }

  /** The column `srccol` builds for source `i` is `datacol<i>`. */
  lemma SrcColNamesColumn(i: int, tbl: string)
    ensures ColumnNamed(SrcCol(i, tbl), i, tbl)
  {
    PivotColumnNamed(tbl, "sourceid", " ", i);
  }

  /** The column `snkcol` builds for sink `i` is `datacol<i>`. */
  lemma SnkColNamesColumn(i: int, tbl: string)
    ensures ColumnNamed(SnkCol(i, tbl), i, tbl)
  {
    PivotColumnNamed(tbl, "sinkid", "  ", i);
  }

  // ---------------------------------------------------------------------
  // participation_ratio
  // ---------------------------------------------------------------------

  function Abs(x: real): (r: real)
    ensures r >= 0.0 && (r == 0.0 <==> x == 0.0)
  {
    if x < 0.0 then -x else x
  }

  /** `x**2`. */
  function Sq(x: real): real
  {
    x * x
  }

  lemma SquarePositive(x: real)
    ensures Sq(x) >= 0.0
    ensures x != 0.0 ==> Sq(x) > 0.0
  {
    if x < 0.0 {
      calc {
        Sq(x);
        x * x;
        (-x) * (-x);
      >
        0.0;
      }
    } else if x > 0.0 {
      calc {
        Sq(x);
        x * x;
      >
        0.0;
      }
    }
  }

  /** The sum of the absolute values. */
  function SumAbs(xs: seq<real>): (s: real)
    ensures s >= 0.0
  {
    if xs == [] then 0.0 else SumAbs(xs[..|xs| - 1]) + Abs(xs[|xs| - 1])
  }

  /** The sum of the squares. */
  function SumSq(xs: seq<real>): (s: real)
    ensures s >= 0.0
  {
    if xs == [] then 0.0
    else
      SquarePositive(xs[|xs| - 1]);
      SumSq(xs[..|xs| - 1]) + Sq(xs[|xs| - 1])
  }

  /** The number of non-zero values. */
  function NonZero(xs: seq<real>): (n: nat)
    ensures n <= |xs|
  {
    if xs == [] then 0 else NonZero(xs[..|xs| - 1]) + (if xs[|xs| - 1] != 0.0 then 1 else 0)
  }

  /** The participation ratio of a column, (Σ|x|)² / Σx²; a column of
    * zeros divides by zero. */
  function Ratio(xs: seq<real>): Result<real>
  {
    if SumSq(xs) == 0.0 then Err("ZeroDivisionError") else Ok(Sq(SumAbs(xs)) / SumSq(xs))
  }

  /** The aggregate's state: the running sums of `step`. */
  class ParticipationRatio {
    var sum: real
    var sqSum: real

    constructor()
      ensures sum == 0.0 && sqSum == 0.0
    {
      sum := 0.0;
      sqSum := 0.0;
    }

    /** `step(x)`. */
    method Step(x: real)
      modifies this
      ensures sum == old(sum) + Abs(x) && sqSum == old(sqSum) + Sq(x)
    {
      sum := sum + Abs(x);
      sqSum := sqSum + Sq(x);
    }

    /** `finalize()`: the square of the sum over the sum of squares. */
    method Finalize() returns (r: Result<real>)
      ensures r.Ok? <==> sqSum != 0.0
      ensures r.Err? ==> r.error == "ZeroDivisionError"
      ensures r.Ok? ==> r.value == Sq(sum) / sqSum
    {
      if sqSum == 0.0 {
        return Err("ZeroDivisionError");
      }
      return Ok(Sq(sum) / sqSum);
    }
  }

  /** The SQL engine's use of the aggregate on a column: a new state, one
    * `step` per value in order, then `finalize`. */
  method Aggregate(xs: seq<real>) returns (r: Result<real>)
    ensures r == Ratio(xs)
  {
    var pr := new ParticipationRatio();
    var i := 0;
    while i < |xs|
      invariant i <= |xs|
      invariant pr.sum == SumAbs(xs[..i]) && pr.sqSum == SumSq(xs[..i])
    {
      assert xs[..i + 1][..i] == xs[..i];
      pr.Step(xs[i]);
      i := i + 1;
    }
    assert xs[..i] == xs;
    r := pr.Finalize();
  }

  /** Squares sum to zero exactly when every value is zero, and then the
    * absolute values sum to zero too. */
  lemma {:induction false} AllZero(xs: seq<real>)
    ensures SumSq(xs) == 0.0 <==> NonZero(xs) == 0
    ensures NonZero(xs) == 0 ==> SumAbs(xs) == 0.0
  {
    if xs != [] {
      AllZero(xs[..|xs| - 1]);
      SquarePositive(xs[|xs| - 1]);
    }
  }

  /** The step of (Σ|x|)² ≥ Σx²: (a + b)² ≥ q + b² when a² ≥ q. */
  lemma SquareGrowsAtLeast(a: real, b: real, q: real)
    requires a >= 0.0 && b >= 0.0 && Sq(a) >= q
    ensures Sq(a + b) >= q + Sq(b)
  {
    assert (a + b) * (a + b) == a * a + 2.0 * (a * b) + b * b;
    assert a * b >= 0.0;
  }

  /** (Σ|x|)² ≥ Σx². */
  lemma {:induction false} SquareOfSumAtLeast(xs: seq<real>)
    ensures Sq(SumAbs(xs)) >= SumSq(xs)
  {
    if xs != [] {
      var init := xs[..|xs| - 1];
      var x := xs[|xs| - 1];
      SquareOfSumAtLeast(init);
      AbsSquare(x);
      SquareGrowsAtLeast(SumAbs(init), Abs(x), SumSq(init));
    }
  }

  lemma AbsSquare(x: real)
    ensures Sq(Abs(x)) == Sq(x)
  {
    if x < 0.0 {
      assert (-x) * (-x) == x * x;
    }
  }

  lemma PositiveFactor(n: real, e: real)
    requires n > 0.0 && n * e >= 0.0
    ensures e >= 0.0
  {
  }

  /** 2ab ≤ q + n·b² whenever a² ≤ n·q with n > 0, since
    * n·(q + n·b² - 2ab) ≥ (a - n·b)² ≥ 0. */
  lemma CrossTerm(a: real, b: real, q: real, n: real)
    requires n > 0.0 && a * a <= n * q
    ensures 2.0 * (a * b) <= q + n * (b * b)
  {
    var d := a - n * b;
    SquarePositive(d);
    assert d * d == a * a - 2.0 * n * (a * b) + n * n * (b * b);
    assert n * (q + n * (b * b) - 2.0 * (a * b)) == n * q + n * n * (b * b) - 2.0 * n * (a * b);
    PositiveFactor(n, q + n * (b * b) - 2.0 * (a * b));
  }

  /** The step of (Σ|x|)² ≤ n·Σx² for a new non-zero value. */
  lemma SquareGrowsAtMost(a: real, b: real, q: real, n: real)
    requires n >= 0.0 && q >= 0.0 && Sq(a) <= n * q && (n == 0.0 ==> a == 0.0)
    ensures Sq(a + b) <= (n + 1.0) * (q + Sq(b))
  {
    if n > 0.0 {
      CrossTerm(a, b, q, n);
    }
    assert (a + b) * (a + b) == a * a + 2.0 * (a * b) + b * b;
    assert (n + 1.0) * (q + b * b) == n * q + q + n * (b * b) + b * b;
  }

  /** A product the solver treats as a term of its own, so that equal
    * factors give equal products. */
  function Times(a: real, b: real): real
  {
    a * b
  }

  /** The step of (Σ|x|)² ≤ n·Σx² for one more value `x`: `a`, `q`, `n`
    * are the sums and count before it, `sa`, `sq`, `sn` after it. */
  lemma SquareOfSumStep(a: real, q: real, n: real, x: real, sa: real, sq: real, sn: real)
    requires a >= 0.0 && q >= 0.0 && n >= 0.0 && (n == 0.0 ==> a == 0.0) && Sq(a) <= n * q
    requires sa == a + Abs(x) && sq == q + Sq(x) && sn == n + (if x != 0.0 then 1.0 else 0.0)
    ensures Sq(sa) <= Times(sn, sq)
  {
    if x != 0.0 {
      calc {
        Sq(sa);
        Sq(a + Abs(x));
      <= { SquareGrowsAtMost(a, Abs(x), q, n); }
        (n + 1.0) * (q + Sq(Abs(x)));
        { AbsSquare(x); }
        (n + 1.0) * (q + Sq(x));
        Times(sn, sq);
      }
    } else {
      calc {
        Sq(sa);
        Sq(a);
      <=
        n * q;
        Times(sn, sq);
      }
    }
  }

  /** (Σ|x|)² ≤ n·Σx² for n the number of non-zero values. */
  lemma {:induction false} SquareOfSumAtMost(xs: seq<real>)
    ensures Sq(SumAbs(xs)) <= Times(NonZero(xs) as real, SumSq(xs))
  {
    if xs != [] {
      var init := xs[..|xs| - 1];
      var x := xs[|xs| - 1];
      SquareOfSumAtMost(init);
      AllZero(init);
      SquareOfSumStep(SumAbs(init), SumSq(init), NonZero(init) as real, x, SumAbs(xs), SumSq(xs), NonZero(xs) as real);
    } else {
      calc {
        Sq(SumAbs(xs));
        0.0 * 0.0;
        Times(NonZero(xs) as real, SumSq(xs));
      }
    }
  }

  /** x/q lies between lo and hi when lo·q ≤ x ≤ hi·q and q > 0. */
  lemma QuotientBetween(x: real, q: real, lo: real, hi: real)
    requires q > 0.0 && lo * q <= x <= hi * q
    ensures lo <= x / q <= hi
  {
    var r := x / q;
    assert r * q == x;
    assert q * (r - lo) == x - lo * q;
    assert q * (hi - r) == hi * q - x;
    PositiveFactor(q, r - lo);
    PositiveFactor(q, hi - r);
  }

  /** The participation ratio lies between 1 and the number of non-zero
    * values: 1 for a column with one non-zero entry, the count when all
    * non-zero entries have the same magnitude. */
  lemma RatioBounds(xs: seq<real>)
    requires Ratio(xs).Ok?
    ensures 1.0 <= Ratio(xs).value <= NonZero(xs) as real
  {
    SquareOfSumAtLeast(xs);
    SquareOfSumAtMost(xs);
    QuotientBetween(Sq(SumAbs(xs)), SumSq(xs), 1.0, NonZero(xs) as real);
  }

  // ---------------------------------------------------------------------
  // Scripts
  // ---------------------------------------------------------------------

  /** A piece of a statement's expression: SQL text, or a `$var$` whose
    * value is substituted. */
  datatype Piece = Sql(text: string) | Ref(name: string)

  /** A parsed statement `target := expr;`, with `target` a `$var$` or an
    * `@var`. */
  datatype Statement = Statement(target: string, expr: seq<Piece>)

  /** A script variable's value: None, the text of a query's first cell,
    * or the rows of a query. */
  datatype Value = Null | Text(s: string) | Rows(rows: seq<seq<string>>)

  /** Every `$var$` the expression uses is among `known`. */
  predicate RefsIn(expr: seq<Piece>, known: set<string>)
  {
    forall j :: 0 <= j < |expr| && expr[j].Ref? ==> expr[j].name in known
  }

  /** The variables the statements assign. */
  function Targets(stmts: seq<Statement>): set<string>
  {
    if stmts == [] then {} else Targets(stmts[..|stmts| - 1]) + {stmts[|stmts| - 1].target}
  }

  /** The targets of a prefix are targets of the whole script. */
  lemma {:induction false} TargetsPrefix(stmts: seq<Statement>, k: nat)
    requires k <= |stmts|
    ensures Targets(stmts[..k]) <= Targets(stmts)
    decreases |stmts| - k
  {
    if k < |stmts| {
      TargetsPrefix(stmts, k + 1);
      assert stmts[..k + 1][..k] == stmts[..k];
    } else {
      assert stmts[..k] == stmts;
    }
  }

  /** `Targets` holds exactly the statements' targets. */
  lemma {:induction false} TargetsMeaning(stmts: seq<Statement>, x: string)
    ensures x in Targets(stmts) <==> exists k :: 0 <= k < |stmts| && stmts[k].target == x
  {
    if stmts != [] {
      var n := |stmts| - 1;
      TargetsMeaning(stmts[..n], x);
      if x in Targets(stmts[..n]) {
        var k :| 0 <= k < n && stmts[..n][k].target == x;
        assert stmts[k].target == x;
      } else if x != stmts[n].target {
        forall k | 0 <= k < |stmts|
          ensures stmts[k].target != x
        {
          if k < n {
            assert stmts[..n][k] == stmts[k];
          }
        }
      }
    }
  }

  /** The parse actions succeed: each statement uses only variables known
    * at the start or assigned by an earlier statement. */
  predicate Checked(known: set<string>, stmts: seq<Statement>)
  {
    stmts == [] ||
    (Checked(known, stmts[..|stmts| - 1]) && RefsIn(stmts[|stmts| - 1].expr, known + Targets(stmts[..|stmts| - 1])))
  }

  /** The variables after the parse actions: every target set to None. */
  function Declared(vars: map<string, Value>, stmts: seq<Statement>): (d: map<string, Value>)
    ensures d.Keys == vars.Keys + Targets(stmts)
    ensures forall x :: x in d && x !in Targets(stmts) ==> d[x] == vars[x]
    ensures forall x :: x in Targets(stmts) ==> d[x] == Null
  {
    if stmts == [] then vars
    else Declared(vars, stmts[..|stmts| - 1])[stmts[|stmts| - 1].target := Null]
  }

  /** The first required `@var` the variables lack, in the order of
    * `finalVars`. */
  function FirstMissing(finalVars: seq<string>, known: set<string>): (m: Option<string>)
    ensures m.None? <==> forall k :: 0 <= k < |finalVars| ==> "@" + finalVars[k] in known
    ensures m.Some? ==> exists k :: (0 <= k < |finalVars| && m.value == "@" + finalVars[k] && m.value !in known
              && forall j :: 0 <= j < k ==> "@" + finalVars[j] in known)
  {
    if finalVars == [] then None
    else if "@" + finalVars[0] !in known then Some("@" + finalVars[0])
    else
      var m := FirstMissing(finalVars[1..], known);
      assert forall k :: 0 <= k < |finalVars| - 1 ==> finalVars[1..][k] == finalVars[k + 1];
      m
  }

  /** The independent reading of `Checked`: statement k uses only the
    * known variables and the targets of the statements before it. */
  lemma {:induction false} CheckedMeaning(known: set<string>, stmts: seq<Statement>)
    ensures Checked(known, stmts) <==> forall k :: 0 <= k < |stmts| ==> CheckedAt(known, stmts, k)
  {
    if stmts != [] {
      var n := |stmts| - 1;
      var init := stmts[..n];
      CheckedMeaning(known, init);
      forall k | 0 <= k < n
        ensures CheckedAt(known, init, k) == CheckedAt(known, stmts, k)
      {
        assert init[k] == stmts[k] && init[..k] == stmts[..k];
      }
      assert CheckedAt(known, stmts, n) == RefsIn(stmts[n].expr, known + Targets(init));
    }
  }

  /** Statement k uses only the known variables and the targets of the
    * statements before it. */
  predicate CheckedAt(known: set<string>, stmts: seq<Statement>, k: nat)
    requires k < |stmts|
  {
    RefsIn(stmts[k].expr, known + Targets(stmts[..k]))
  }

  /** What parsing leaves: the variables with every target declared, or
    * the exception it raises. Parsing needs at least one statement. */
  function ParseOutcome(vars: map<string, Value>, stmts: seq<Statement>, finalVars: seq<string>): (r: Result<map<string, Value>>)
    ensures r.Ok? ==> r.value == Declared(vars, stmts)
    ensures r.Ok? <==> stmts != [] && Checked(vars.Keys, stmts)
                       && forall k :: 0 <= k < |finalVars| ==> "@" + finalVars[k] in vars.Keys + Targets(stmts)
  {
    if stmts == [] then Err("ParseException")
    else if !Checked(vars.Keys, stmts) then Err("ParseFatalException")
    else if FirstMissing(finalVars, Declared(vars, stmts).Keys).Some? then Err("MissingVarException")
    else Ok(Declared(vars, stmts))
  }

  /** `''.join` of the statement with its variables substituted: a name
    * missing from the variables raises KeyError while substituting, a
    * value that is not text raises TypeError while joining. */
  function Substituted(expr: seq<Piece>, vars: map<string, Value>): (r: Result<string>)
    ensures r.Err? && r.error == "KeyError" <==> !RefsIn(expr, vars.Keys)
    ensures r.Ok? ==> RefsIn(expr, vars.Keys)
  {
    if !RefsIn(expr, vars.Keys) then Err("KeyError") else Joined(expr, vars)
  }

  function Joined(expr: seq<Piece>, vars: map<string, Value>): (r: Result<string>)
    requires RefsIn(expr, vars.Keys)
    ensures r.Err? ==> r.error == "TypeError"
  {
    if expr == [] then Ok("")
    else
      var n := |expr| - 1;
      assert RefsIn(expr[..n], vars.Keys) by {
        assert forall j :: 0 <= j < n ==> expr[..n][j] == expr[j];
      }
      var init :- Joined(expr[..n], vars);
      match expr[n]
      case Sql(t) => Ok(init + t)
      case Ref(x) => if vars[x].Text? then Ok(init + vars[x].s) else Err("TypeError")
  }

  /** One statement run: the SQL after substitution goes to `run`, which
    * stands for the database; an `@var` stores the rows, a `$var$` the
    * text of the first cell, or None when there is no row. */
  function Executed(stmt: Statement, index: nat, vars: map<string, Value>,
                    run: (nat, string) -> seq<seq<string>>): Result<map<string, Value>>
  {
    var sql :- Substituted(stmt.expr, vars);
    var res := run(index, sql);
    if stmt.target == [] then Err("IndexError")
    else if stmt.target[0] == '@' then Ok(vars[stmt.target := Rows(res)])
    else if res == [] then Ok(vars[stmt.target := Null])
    else if res[0] == [] then Err("IndexError")
    else Ok(vars[stmt.target := Text(res[0][0])])
  }

  /** The variables after the first `k` statements ran. */
  function RunPrefix(stmts: seq<Statement>, k: nat, vars: map<string, Value>,
                     run: (nat, string) -> seq<seq<string>>): Result<map<string, Value>>
    requires k <= |stmts|
  {
    if k == 0 then Ok(vars)
    else
      var v :- RunPrefix(stmts, k - 1, vars, run);
      Executed(stmts[k - 1], k - 1, v, run)
  }

  /** A statement that raises ends the run: later statements do not run. */
  lemma {:induction false} RunStops(stmts: seq<Statement>, k: nat, vars: map<string, Value>,
                                    run: (nat, string) -> seq<seq<string>>)
    requires k <= |stmts| && RunPrefix(stmts, k, vars, run).Err?
    ensures RunPrefix(stmts, |stmts|, vars, run) == RunPrefix(stmts, k, vars, run)
    decreases |stmts| - k
  {
    if k < |stmts| {
      RunStops(stmts, k + 1, vars, run);
    }
  }

  /** The required tables: `final[v]` is the value of `@v`. */
  function Final(finalVars: seq<string>, vars: map<string, Value>): (r: Result<map<string, Value>>)
    ensures r.Ok? <==> forall k :: 0 <= k < |finalVars| ==> "@" + finalVars[k] in vars
    ensures r.Ok? ==> forall k :: 0 <= k < |finalVars| ==>
              finalVars[k] in r.value && r.value[finalVars[k]] == vars["@" + finalVars[k]]
  {
    if FirstMissing(finalVars, vars.Keys).Some? then Err("KeyError")
    else Ok(map v | v in finalVars :: vars["@" + v])
  }

  /** Running statements keeps every variable of the start and adds only
    * targets. */
  lemma {:induction false} RunKeepsKeys(stmts: seq<Statement>, k: nat, vars: map<string, Value>,
                                        run: (nat, string) -> seq<seq<string>>)
    requires k <= |stmts| && RunPrefix(stmts, k, vars, run).Ok?
    ensures RunPrefix(stmts, k, vars, run).value.Keys == vars.Keys + Targets(stmts[..k])
  {
    if k > 0 {
      RunKeepsKeys(stmts, k - 1, vars, run);
      assert stmts[..k][..k - 1] == stmts[..k - 1];
      assert Targets(stmts[..k]) == Targets(stmts[..k - 1]) + {stmts[k - 1].target};
    }
  }

  /** Once parsing succeeded, running never meets an undefined variable:
    * no statement raises KeyError, and every required table is there at
    * the end. */
  lemma {:induction false} ParsedRunsWithoutKeyError(vars: map<string, Value>, stmts: seq<Statement>,
                                                     finalVars: seq<string>, run: (nat, string) -> seq<seq<string>>, k: nat)
    requires ParseOutcome(vars, stmts, finalVars).Ok? && k <= |stmts|
    ensures var d := ParseOutcome(vars, stmts, finalVars).value;
      var r := RunPrefix(stmts, k, d, run);
      && (r.Err? ==> r.error != "KeyError")
      && (r.Ok? ==> Final(finalVars, r.value).Ok?)
  {
    var d := ParseOutcome(vars, stmts, finalVars).value;
    CheckedMeaning(vars.Keys, stmts);
    RunWithoutKeyError(stmts, k, vars.Keys, d, run);
  }

  /** Running statements whose references are all declared keeps the
    * variables' names and never raises KeyError. */
  lemma {:induction false} RunWithoutKeyError(stmts: seq<Statement>, k: nat, known: set<string>,
                                              d: map<string, Value>, run: (nat, string) -> seq<seq<string>>)
    requires k <= |stmts| && d.Keys == known + Targets(stmts)
    requires forall j :: 0 <= j < |stmts| ==> CheckedAt(known, stmts, j)
    ensures var r := RunPrefix(stmts, k, d, run);
      && (r.Err? ==> r.error != "KeyError")
      && (r.Ok? ==> r.value.Keys == d.Keys)
  {
    if k > 0 {
      RunWithoutKeyError(stmts, k - 1, known, d, run);
      var p := RunPrefix(stmts, k - 1, d, run);
      if p.Ok? {
        TargetsPrefix(stmts, k - 1);
        assert CheckedAt(known, stmts, k - 1);
        assert RefsIn(stmts[k - 1].expr, p.value.Keys);
        TargetsPrefix(stmts, k);
        assert stmts[..k][..k - 1] == stmts[..k - 1];
        assert stmts[k - 1].target in Targets(stmts[..k]);
      }
    }
  }


  /** A statement that uses a `$var$` whose query found no row raises
    * TypeError when joined. */
  lemma NullVariableRaises(x: string, vars: map<string, Value>)
    requires x in vars && vars[x] == Null
    ensures Substituted([Ref(x)], vars) == Err("TypeError")
  {
    assert RefsIn([Ref(x)], vars.Keys);
    assert [Ref(x)][..0] == [];
  }

  /** The variables `execute` starts from: `$semicolumn$` bound to `;`,
    * overridden and extended by the caller's text variables. */
  function Initial(given: map<string, string>): (vars: map<string, Value>)
    ensures vars.Keys == given.Keys + {"$semicolumn$"}
    ensures forall x :: x in given ==> vars[x] == Text(given[x])
    ensures "$semicolumn$" !in given ==> vars["$semicolumn$"] == Text(";")
  {
    map["$semicolumn$" := Text(";")] + map x | x in given :: Text(given[x])
  }

  /** `execute`: parse and check the script, run its statements in order,
    * and collect the required tables. */
  function ScriptRun(stmts: seq<Statement>, given: map<string, string>, finalVars: seq<string>,
                     run: (nat, string) -> seq<seq<string>>): Result<map<string, Value>>
  {
    var d :- ParseOutcome(Initial(given), stmts, finalVars);
    var v :- RunPrefix(stmts, |stmts|, d, run);
    Final(finalVars, v)
  }

  /** A script either fails to parse or runs without KeyError; when it
    * completes, the result has a table for every required name. */
  lemma ScriptNeverKeyError(stmts: seq<Statement>, given: map<string, string>, finalVars: seq<string>,
                            run: (nat, string) -> seq<seq<string>>)
    ensures var r := ScriptRun(stmts, given, finalVars, run);
      && (r.Err? ==> r.error != "KeyError")
      && (r.Ok? ==> forall k :: 0 <= k < |finalVars| ==> finalVars[k] in r.value)
  {
    if ParseOutcome(Initial(given), stmts, finalVars).Ok? {
      ParsedRunsWithoutKeyError(Initial(given), stmts, finalVars, run, |stmts|);
    }
  }

  /** The script context: the variable being defined, the variables, and
    * the names of the required tables. */
  class ScriptContext {
    var currentVal: Option<string>
    var definedVars: map<string, Value>
    var finalVars: seq<string>

    /** `__init__`; the database connection is not modelled. */
    constructor(finalVars: seq<string>)
      ensures this.finalVars == finalVars && currentVal == None && definedVars == map[]
    {
      this.finalVars := finalVars;
      currentVal := None;
      definedVars := map[];
    }

    /** `_set_var`: the action on a statement's target. */
    method SetVar(name: string)
      modifies this
      ensures currentVal == Some(name) && definedVars == old(definedVars) && finalVars == old(finalVars)
    {
      currentVal := Some(name);
    }

    /** `_add_var`: the action on `;`, which declares the target. The
      * grammar runs it only after `_set_var`. */
    method AddVar()
      requires currentVal.Some?
      modifies this
      ensures definedVars == old(definedVars)[old(currentVal).value := Null]
      ensures currentVal == None && finalVars == old(finalVars)
    {
      definedVars := definedVars[currentVal.value := Null];
      currentVal := None;
    }

    /** `_check_var`: the action on a `$var$` inside an expression. */
    method CheckVar(name: string) returns (r: Result<()>)
      ensures r.Ok? <==> name in definedVars
      ensures r.Err? ==> r.error == "ParseFatalException"
    {
      if name !in definedVars {
        return Err("ParseFatalException");
      }
      return Ok(());
    }

    /** `_validate_statements`: the first required `@var` not defined. */
    method ValidateStatements() returns (missing: Option<string>)
      ensures missing == FirstMissing(finalVars, definedVars.Keys)
    {
      var k := 0;
      while k < |finalVars|
        invariant k <= |finalVars|
        invariant FirstMissing(finalVars, definedVars.Keys) == FirstMissing(finalVars[k..], definedVars.Keys)
      {
        var v := "@" + finalVars[k];
        if v !in definedVars {
          return Some(v);
        }
        assert finalVars[k..][1..] == finalVars[k + 1..];
        k := k + 1;
      }
      return None;
    }

    /** The checks of `_parse_script`: the parse actions in the order the
      * grammar fires them, then `_validate_statements`. */
    method ParseScript(stmts: seq<Statement>) returns (r: Result<()>)
      modifies this
      ensures finalVars == old(finalVars)
      ensures r.Ok? <==> ParseOutcome(old(definedVars), stmts, finalVars).Ok?
      ensures r.Ok? ==> definedVars == Declared(old(definedVars), stmts) && currentVal == None
      ensures r.Err? ==> r == ParseOutcome(old(definedVars), stmts, finalVars).PropagateFailure()
    {
      if stmts == [] {
        return Err("ParseException");
      }
      ghost var start := definedVars;
      var k := 0;
      while k < |stmts|
        invariant k <= |stmts| && finalVars == old(finalVars)
        invariant Checked(start.Keys, stmts[..k])
        invariant definedVars == Declared(start, stmts[..k])
        invariant k > 0 ==> currentVal == None
      {
        assert stmts[..k + 1][..k] == stmts[..k];
        SetVar(stmts[k].target);
        var ok := CheckRefs(stmts[k].expr);
        if !ok {
          CheckedPrefix(start.Keys, stmts, k + 1);
          return Err("ParseFatalException");
        }
        AddVar();
        k := k + 1;
      }
      assert stmts[..k] == stmts;
      var missing := ValidateStatements();
      if missing.Some? {
        return Err("MissingVarException");
      }
      return Ok(());
    }

    /** `execute(defined_vars)`: the statements are parsed and checked,
      * then each one's SQL, with its variables substituted, goes to
      * `run`, and its target receives the result. */
    method Execute(stmts: seq<Statement>, given: map<string, string>,
                   run: (nat, string) -> seq<seq<string>>) returns (r: Result<map<string, Value>>)
      modifies this
      ensures finalVars == old(finalVars)
      ensures r == ScriptRun(stmts, given, finalVars, run)
      ensures r.Ok? ==> currentVal == None
    {
      currentVal := None;
      definedVars := Initial(given);
      var parsed := ParseScript(stmts);
      if parsed.Err? {
        return Err(parsed.error);
      }
      var ran := RunStatements(stmts, run);
      if ran.Err? {
        return Err(ran.error);
      }
      r := Final(finalVars, definedVars);
    }

    /** The loop of `execute` over the statements. */
    method RunStatements(stmts: seq<Statement>, run: (nat, string) -> seq<seq<string>>) returns (r: Result<map<string, Value>>)
      modifies this
      ensures finalVars == old(finalVars) && currentVal == old(currentVal)
      ensures r == RunPrefix(stmts, |stmts|, old(definedVars), run)
      ensures r.Ok? ==> definedVars == r.value
      ensures r.Err? ==> exists k :: 0 <= k < |stmts| && RunPrefix(stmts, k, old(definedVars), run) == Ok(definedVars)
    {
      ghost var d := definedVars;
      var k := 0;
      while k < |stmts|
        invariant k <= |stmts| && finalVars == old(finalVars) && currentVal == old(currentVal)
        invariant RunPrefix(stmts, k, d, run) == Ok(definedVars)
      {
        var stmt := stmts[k];
        var sql := Substituted(stmt.expr, definedVars);
        if sql.Err? {
          RunStops(stmts, k + 1, d, run);
          return Err(sql.error);
        }
        var res := run(k, sql.value);
        if stmt.target == [] {
          RunStops(stmts, k + 1, d, run);
          return Err("IndexError");
        }
        if stmt.target[0] == '@' {
          definedVars := definedVars[stmt.target := Rows(res)];
        } else if res == [] {
          definedVars := definedVars[stmt.target := Null];
        } else if res[0] == [] {
          RunStops(stmts, k + 1, d, run);
          return Err("IndexError");
        } else {
          definedVars := definedVars[stmt.target := Text(res[0][0])];
        }
        k := k + 1;
      }
      return Ok(definedVars);
    }

    /** The `_check_var` actions of one expression, in order. */
    method CheckRefs(expr: seq<Piece>) returns (ok: bool)
      ensures ok <==> RefsIn(expr, definedVars.Keys)
    {
      var j := 0;
      while j < |expr|
        invariant j <= |expr|
        invariant forall i :: 0 <= i < j && expr[i].Ref? ==> expr[i].name in definedVars
      {
        if expr[j].Ref? {
          var checked := CheckVar(expr[j].name);
          if checked.Err? {
            return false;
          }
        }
        j := j + 1;
      }
      return true;
    }
  }

  /** A statement whose references fail stops the check of every longer
    * prefix. */
  lemma {:induction false} CheckedPrefix(known: set<string>, stmts: seq<Statement>, k: nat)
    requires 0 < k <= |stmts| && !Checked(known, stmts[..k])
    ensures !Checked(known, stmts)
    decreases |stmts| - k
  {
    if k < |stmts| {
      assert stmts[..k + 1][..k] == stmts[..k];
      CheckedPrefix(known, stmts, k + 1);
    } else {
      assert stmts[..k] == stmts;
    }
  }
}
