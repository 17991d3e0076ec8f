/** Tables of ITMProbe/output.py: `formatted_table` turns the rows of an
  * SQL query into text cells and marks the numeric columns; the three
  * printers write such a table as aligned plain text, as CSV in the
  * default dialect of Python's `csv` module, or as tab-delimited text.
  * A file object being written becomes the string written to it. */
module Output {
  import opened Wrappers
  import opened Text
  import Filesys

  function Max(a: nat, b: nat): nat
  {
    if a < b then b else a
  }

  function Shorter(a: nat, b: nat): nat
  {
    if a < b then a else b
  }

  // ---------------------------------------------------------------------
  // is_numeric: the syntax Python's `float` accepts
  // ---------------------------------------------------------------------

  /** `t` without one leading sign. */
  function Unsigned(t: string): (r: string)
    ensures |r| <= |t|
  {
    if t != [] && (t[0] == '+' || t[0] == '-') then t[1..] else t
  }

  /** The position of the first exponent marker, `e` or `E`, or `|u|`. */
  function ExponentAt(u: string): (i: nat)
    ensures i <= |u|
    ensures forall k :: 0 <= k < i ==> u[k] != 'e' && u[k] != 'E'
    ensures i < |u| ==> u[i] == 'e' || u[i] == 'E'
  {
    if u == [] || u[0] == 'e' || u[0] == 'E' then 0 else 1 + ExponentAt(u[1..])
  }

  /** Digits with at most one decimal point, and at least one digit. */
  predicate IsMantissa(m: string)
  {
    var i := match Find(m, ".") case Some(k) => k case None => |m|;
    var whole := m[..i];
    var frac := if i < |m| then m[i + 1..] else "";
    !(whole == [] && frac == []) && AllDigits(whole) && AllDigits(frac)
  }

  /** `is_numeric(x)`: `float(x)` raises no ValueError. After surrounding
    * whitespace and a sign, Python accepts `inf`, `infinity` and `nan` in
    * any case, or a decimal mantissa with an optional exponent. */
  predicate IsNumeric(s: string)
  {
    var u := Unsigned(Strip(s));
    var e := ExponentAt(u);
    Lower(u) in {"inf", "infinity", "nan"}
    || (IsMantissa(u[..e]) && (e == |u| || (var x := Unsigned(u[e + 1..]); x != [] && AllDigits(x))))
  }

  /** Every string the plain decimal reader accepts is numeric. */
  lemma PlainDecimalIsNumeric(s: string)
    requires ParseFloat(s).Some?
    ensures IsNumeric(s)
  {
    var u := Unsigned(Strip(s));
    assert IsMantissa(u);
    NoExponentMarker(u);
    assert u[..|u|] == u;
  }

  /** A mantissa has no exponent marker. */
  lemma NoExponentMarker(u: string)
    requires IsMantissa(u)
    ensures ExponentAt(u) == |u|
  {
    var i := match Find(u, ".") case Some(k) => k case None => |u|;
    var whole := u[..i];
    var frac := if i < |u| then u[i + 1..] else "";
    assert AllDigits(whole) && AllDigits(frac);
    forall k | 0 <= k < |u|
      ensures u[k] != 'e' && u[k] != 'E'
    {
      if k < i {
        assert u[k] == whole[k];
      } else if k > i {
        assert u[k] == frac[k - i - 1];
      }
    }
  }

  // ---------------------------------------------------------------------
  // formatted_table
  // ---------------------------------------------------------------------

  /** The tuple `formatted_table` returns: the title, the column headers
    * when the query gave them, the body as text cells, and the indices of
    * the numeric columns. */
  datatype Table = Table(title: Option<string>, headers: Option<seq<Option<string>>>,
                         body: seq<seq<string>>, floatCols: seq<nat>)

  /** `rows[0][0]`. */
  function Corner<T>(rows: seq<seq<T>>): (r: Result<T>)
    ensures r.Ok? <==> rows != [] && rows[0] != []
    ensures r.Err? ==> r.error == "IndexError"
  {
    if rows == [] || rows[0] == [] then Err("IndexError") else Ok(rows[0][0])
  }

  /** `[row[0] for row in rows]`. */
  function FirstColumn<T>(rows: seq<seq<T>>): (r: Result<seq<T>>)
    ensures r.Ok? <==> forall k :: 0 <= k < |rows| ==> rows[k] != []
    ensures r.Ok? ==> |r.value| == |rows| && forall k :: 0 <= k < |rows| ==> r.value[k] == rows[k][0]
    ensures r.Err? ==> r.error == "IndexError"
  {
    if rows == [] then Ok([])
    else if rows[0] == [] then Err("IndexError")
    else
      var rest :- FirstColumn(rows[1..]);
      Ok([rows[0][0]] + rest)
  }

  /** The headers or the formats: the first column of a query result, or
    * nothing when its first entry is NULL. */
  function OptionalColumn(rows: seq<seq<Option<string>>>): (r: Result<Option<seq<Option<string>>>>)
    ensures r.Ok? <==> rows != [] && rows[0] != [] && (rows[0][0].Some? ==> forall k :: 0 <= k < |rows| ==> rows[k] != [])
    ensures r.Ok? ==> (r.value.None? <==> rows[0][0].None?)
    ensures r.Ok? && r.value.Some? ==> |r.value.value| == |rows| && forall k :: 0 <= k < |rows| ==> r.value.value[k] == rows[k][0]
  {
    var first :- Corner(rows);
    if first.None? then Ok(None)
    else
      var c :- FirstColumn(rows);
      Ok(Some(c))
  }

  /** `fmt.format(x)`, where `format` stands for `str.format`; a NULL
    * format has no `format` attribute. */
  function FormatCell<V>(f: Option<string>, x: V, format: (string, V) -> Result<string>): Result<string>
  {
    if f.None? then Err("AttributeError") else format(f.value, x)
  }

  /** `[fmt.format(x) for fmt, x in zip(formats, row)]`: zip stops at the
    * shorter list and the first cell that raises stops the row. */
  function FormatRow<V>(formats: seq<Option<string>>, row: seq<V>, format: (string, V) -> Result<string>): (r: Result<seq<string>>)
    ensures r.Ok? ==> |r.value| == Shorter(|formats|, |row|)
    ensures r.Ok? ==> forall j :: 0 <= j < |r.value| ==> FormatCell(formats[j], row[j], format) == Ok(r.value[j])
    ensures r.Err? ==> exists j :: 0 <= j < Shorter(|formats|, |row|) && FormatCell(formats[j], row[j], format) == Err(r.error)
  {
    var n := Shorter(|formats|, |row|);
    var cells := seq(n, j requires 0 <= j < n => FormatCell(formats[j], row[j], format));
    var r := Collect(cells);
    assert r.Err? ==> exists j :: 0 <= j < n && cells[j] == Err(r.error);
    r
  }

  /** The body: every row formatted with the column formats, or with `str`
    * (here `show`) when there are none. */
  function FormatBody<V>(data: seq<seq<V>>, formats: Option<seq<Option<string>>>,
                         format: (string, V) -> Result<string>, show: V -> string): (r: Result<seq<seq<string>>>)
    ensures r.Ok? ==> |r.value| == |data|
    ensures r.Ok? && formats.None? ==> forall k :: 0 <= k < |data| ==> |r.value[k]| == |data[k]|
    ensures r.Ok? && formats.None? ==> forall k, j :: 0 <= k < |data| && 0 <= j < |data[k]| ==> r.value[k][j] == show(data[k][j])
    ensures r.Ok? && formats.Some? ==> forall k :: 0 <= k < |data| ==> FormatRow(formats.value, data[k], format) == Ok(r.value[k])
    ensures formats.None? ==> r.Ok?
  {
    match formats
    case None =>
      Ok(seq(|data|, k requires 0 <= k < |data| =>
        seq(|data[k]|, j requires 0 <= j < |data[k]| => show(data[k][j]))))
    case Some(fs) =>
      Collect(seq(|data|, k requires 0 <= k < |data| => FormatRow(fs, data[k], format)))
  }

  /** `numeric_cols`: a column is numeric when a cell of some row there is
    * numeric; a row longer than the first one indexes past the list. */
  function NumericColumns(body: seq<seq<string>>): (r: Result<seq<bool>>)
    requires body != []
  {
    if exists k :: 0 <= k < |body| && |body[k]| > |body[0]| then Err("IndexError")
    else Ok(seq(|body[0]|, i requires 0 <= i < |body[0]| =>
      exists k :: 0 <= k < |body| && i < |body[k]| && IsNumeric(body[k][i])))
  }

  /** `[i for i, x in enumerate(flags) if x]`. */
  function TrueIndices(flags: seq<bool>): (r: seq<nat>)
    ensures forall i: nat :: i in r <==> i < |flags| && flags[i]
    ensures forall a, b :: 0 <= a < b < |r| ==> r[a] < r[b]
  {
    if flags == [] then []
    else
      var n := |flags| - 1;
      var init := TrueIndices(flags[..n]);
      assert forall i: nat :: i < n ==> flags[..n][i] == flags[i];
      assert forall a :: 0 <= a < |init| ==> init[a] in init;
      if flags[n] then init + [n] else init
  }

  /** What `formatted_table` returns or raises. */
  function Formatted<V>(data: seq<seq<V>>, columnHeaders: seq<seq<Option<string>>>,
                        columnFormats: seq<seq<Option<string>>>, title: seq<seq<Option<string>>>,
                        format: (string, V) -> Result<string>, show: V -> string): (r: Result<Table>)
    ensures r.Ok? ==> title != [] && title[0] != [] && r.value.title == title[0][0]
    ensures r.Ok? ==> |r.value.body| == |data| > 0
    ensures r.Ok? ==> forall k :: 0 <= k < |data| ==> |r.value.body[k]| <= |r.value.body[0]|
    ensures r.Ok? ==> forall i: nat :: i in r.value.floatCols <==>
              i < |r.value.body[0]| && exists k :: 0 <= k < |data| && i < |r.value.body[k]| && IsNumeric(r.value.body[k][i])
  {
    var t :- Corner(title);
    var headers :- OptionalColumn(columnHeaders);
    var formats :- OptionalColumn(columnFormats);
    var body :- FormatBody(data, formats, format, show);
    if body == [] then Err("IndexError")
    else
      var numeric :- NumericColumns(body);
      Ok(Table(t, headers, body, TrueIndices(numeric)))
  }

  /** The headers are the first column of their query when its first entry
    * is not NULL, and absent otherwise; without formats every cell is
    * `str` of its value. */
  lemma FormattedColumns<V>(data: seq<seq<V>>, columnHeaders: seq<seq<Option<string>>>,
                            columnFormats: seq<seq<Option<string>>>, title: seq<seq<Option<string>>>,
                            format: (string, V) -> Result<string>, show: V -> string)
    requires Formatted(data, columnHeaders, columnFormats, title, format, show).Ok?
    ensures var t := Formatted(data, columnHeaders, columnFormats, title, format, show).value;
      && (t.headers.None? <==> columnHeaders[0][0].None?)
      && (t.headers.Some? ==> |t.headers.value| == |columnHeaders|
                              && forall k :: 0 <= k < |columnHeaders| ==> t.headers.value[k] == columnHeaders[k][0])
      && (columnFormats[0][0].None? ==>
            forall k, j :: 0 <= k < |data| && 0 <= j < |data[k]| ==> j < |t.body[k]| && t.body[k][j] == show(data[k][j]))
  {
  }

  /** With formats, cell j of a row is the row's value j under the format
    * of line j, and the row is cut to the number of formats. */
  lemma FormattedCells<V>(data: seq<seq<V>>, columnHeaders: seq<seq<Option<string>>>,
                          columnFormats: seq<seq<Option<string>>>, title: seq<seq<Option<string>>>,
                          format: (string, V) -> Result<string>, show: V -> string, k: nat, j: nat)
    requires Formatted(data, columnHeaders, columnFormats, title, format, show).Ok?
    requires columnFormats[0][0].Some? && k < |data|
    ensures var t := Formatted(data, columnHeaders, columnFormats, title, format, show).value;
      && |t.body[k]| == Shorter(|columnFormats|, |data[k]|)
      && (j < |t.body[k]| ==> columnFormats[j][0].Some? && format(columnFormats[j][0].value, data[k][j]) == Ok(t.body[k][j]))
  {
    var t := Formatted(data, columnHeaders, columnFormats, title, format, show).value;
    var formats := OptionalColumn(columnFormats).value.value;
    assert FormatRow(formats, data[k], format) == Ok(t.body[k]);
    if j < |t.body[k]| {
      assert FormatCell(formats[j], data[k][j], format) == Ok(t.body[k][j]);
    }
  }

  /** `formatted_table`: the lists are built by the functions above; the
    * numeric flags are updated cell by cell. */
  method FormattedTable<V>(data: seq<seq<V>>, columnHeaders: seq<seq<Option<string>>>,
                           columnFormats: seq<seq<Option<string>>>, title: seq<seq<Option<string>>>,
                           format: (string, V) -> Result<string>, show: V -> string) returns (r: Result<Table>)
    ensures r == Formatted(data, columnHeaders, columnFormats, title, format, show)
  {
    var t :- Corner(title);
    var headers :- OptionalColumn(columnHeaders);
    var formats :- OptionalColumn(columnFormats);
    var body :- FormatBody(data, formats, format, show);
    if body == [] {
      return Err("IndexError");
    }
    var numeric := NumericFlags(body);
    if numeric.Err? {
      return Err(numeric.error);
    }
    return Ok(Table(t, headers, body, TrueIndices(numeric.value)));
  }

  /** The `numeric_cols` loop of `formatted_table`. */
  method NumericFlags(body: seq<seq<string>>) returns (r: Result<seq<bool>>)
    requires body != []
    ensures r == NumericColumns(body)
  {
    var width := |body[0]|;
    var numeric := seq(width, _ => false);
    var k := 0;
    while k < |body|
      invariant k <= |body| && |numeric| == width
      invariant forall q :: 0 <= q < k ==> |body[q]| <= width
      invariant forall c :: 0 <= c < width ==>
        (numeric[c] <==> exists q :: 0 <= q < k && c < |body[q]| && IsNumeric(body[q][c]))
    {
      var marked := MarkRow(numeric, body[k]);
      if marked.Err? {
        assert |body[k]| > |body[0]|;
        return Err("IndexError");
      }
      MarkStep(body, k, numeric, marked.value);
      numeric := marked.value;
      k := k + 1;
    }
    NumericColumnsFound(body, numeric);
    return Ok(numeric);
  }

  /** Marking row k extends the rows the flags account for to k + 1. */
  lemma MarkStep(body: seq<seq<string>>, k: nat, before: seq<bool>, after: seq<bool>)
    requires k < |body| && |before| == |after|
    requires forall c :: 0 <= c < |before| ==>
      (before[c] <==> exists q :: 0 <= q < k && c < |body[q]| && IsNumeric(body[q][c]))
    requires forall c :: 0 <= c < |before| ==>
      (after[c] <==> before[c] || (c < |body[k]| && IsNumeric(body[k][c])))
    ensures forall c :: 0 <= c < |after| ==>
      (after[c] <==> exists q :: 0 <= q < k + 1 && c < |body[q]| && IsNumeric(body[q][c]))
  {
  }

  /** Flags that record, for every column, whether some row has a numeric
    * cell there, are the numeric columns. */
  lemma NumericColumnsFound(body: seq<seq<string>>, numeric: seq<bool>)
    requires body != [] && |numeric| == |body[0]|
    requires forall q :: 0 <= q < |body| ==> |body[q]| <= |body[0]|
    requires forall c :: 0 <= c < |numeric| ==>
      (numeric[c] <==> exists q :: 0 <= q < |body| && c < |body[q]| && IsNumeric(body[q][c]))
    ensures NumericColumns(body) == Ok(numeric)
  {
    var width := |body[0]|;
    assert !exists q :: 0 <= q < |body| && |body[q]| > |body[0]|;
    var flags := seq(width, i requires 0 <= i < width =>
      exists q :: 0 <= q < |body| && i < |body[q]| && IsNumeric(body[q][i]));
    assert NumericColumns(body) == Ok(flags);
    assert forall c :: 0 <= c < width ==> numeric[c] == flags[c];
    assert numeric == flags;
  }

  /** One row of the `numeric_cols` loop: the flag of each cell's column
    * is set when the cell is numeric; a cell past the flags raises. */
  method MarkRow(numeric: seq<bool>, row: seq<string>) returns (r: Result<seq<bool>>)
    ensures r.Ok? <==> |row| <= |numeric|
    ensures r.Err? ==> r.error == "IndexError"
    ensures r.Ok? ==> |r.value| == |numeric|
    ensures r.Ok? ==> forall c :: 0 <= c < |numeric| ==>
              (r.value[c] <==> numeric[c] || (c < |row| && IsNumeric(row[c])))
  {
    var flags := numeric;
    var i := 0;
    while i < |row|
      invariant i <= |row| && i <= |numeric| && |flags| == |numeric|
      invariant forall c :: 0 <= c < |numeric| ==> (flags[c] <==> numeric[c] || (c < i && IsNumeric(row[c])))
    {
      if i >= |flags| {
        return Err("IndexError");
      }
      flags := flags[i := flags[i] || IsNumeric(row[i])];
      i := i + 1;
    }
    return Ok(flags);
  }

  // ---------------------------------------------------------------------
  // Column widths, shared by the text printer
  // ---------------------------------------------------------------------

  /** The header texts; `len` or `join` on a NULL header raises TypeError. */
  function HeaderNames(headers: Option<seq<Option<string>>>): (r: Result<Option<seq<string>>>)
    ensures r.Ok? <==> headers.None? || forall j :: 0 <= j < |headers.value| ==> headers.value[j].Some?
    ensures r.Ok? ==> (r.value.None? <==> headers.None?)
    ensures r.Ok? && headers.Some? ==>
              |r.value.value| == |headers.value| && forall j :: 0 <= j < |headers.value| ==> headers.value[j] == Some(r.value.value[j])
    ensures r.Err? ==> r.error == "TypeError"
  {
    match headers
    case None => Ok(None)
    case Some(hs) =>
      var cells := seq(|hs|, j requires 0 <= j < |hs| =>
        if hs[j].None? then Err("TypeError") else Ok(hs[j].value));
      assert forall j :: 0 <= j < |hs| ==> cells[j].Ok? == hs[j].Some?;
      if forall j :: 0 <= j < |hs| ==> hs[j].Some? then
        CollectOk(cells);
        var names := Collect(cells).value;
        assert forall j :: 0 <= j < |hs| ==> cells[j] == Ok(names[j]);
        Ok(Some(names))
      else
        var c := Collect(cells);
        assert c.Err? ==> exists j :: 0 <= j < |hs| && cells[j] == Err(c.error);
        Err("TypeError")
  }

  /** The starting widths: zeros for the columns of the first row without
    * headers, else the header lengths, capped at `maxWidth` when given. */
  function StartWidths(names: Option<seq<string>>, body: seq<seq<string>>, maxWidth: Option<nat>): (r: Result<seq<nat>>)
    ensures r.Ok? <==> names.Some? || body != []
    ensures r.Ok? && names.None? ==> |r.value| == |body[0]| && forall i :: 0 <= i < |body[0]| ==> r.value[i] == 0
    ensures r.Ok? && names.Some? ==> |r.value| == |names.value|
    ensures r.Ok? && names.Some? ==> forall i :: 0 <= i < |names.value| ==>
              r.value[i] <= |names.value[i]| && (maxWidth.Some? ==> r.value[i] <= maxWidth.value)
              && (r.value[i] == |names.value[i]| || (maxWidth.Some? && r.value[i] == maxWidth.value))
    ensures r.Err? ==> r.error == "IndexError"
  {
    match names
    case None =>
      if body == [] then Err("IndexError") else Ok(seq(|body[0]|, _ => 0))
    case Some(hs) =>
      Ok(seq(|hs|, j requires 0 <= j < |hs| =>
        if maxWidth.Some? then Shorter(|hs[j]|, maxWidth.value) else |hs[j]|))
  }

  /** The longest cell in column `i`, or 0 when no row reaches it. */
  function ColumnMax(body: seq<seq<string>>, i: nat): (m: nat)
    ensures forall k :: 0 <= k < |body| && i < |body[k]| ==> |body[k][i]| <= m
    ensures m == 0 || exists k :: 0 <= k < |body| && i < |body[k]| && |body[k][i]| == m
  {
    if body == [] then 0
    else
      var n := |body| - 1;
      var m := ColumnMax(body[..n], i);
      assert forall k :: 0 <= k < n ==> body[..n][k] == body[k];
      Max(m, if i < |body[n]| then |body[n][i]| else 0)
  }

  /** The final widths: each column as wide as its start and its longest
    * cell; a row with more cells than columns indexes past the list. */
  function Widths(start: seq<nat>, body: seq<seq<string>>): (r: Result<seq<nat>>)
    ensures r.Ok? <==> forall k :: 0 <= k < |body| ==> |body[k]| <= |start|
    ensures r.Ok? ==> |r.value| == |start|
    ensures r.Ok? ==> forall i :: 0 <= i < |start| ==> start[i] <= r.value[i]
    ensures r.Ok? ==> forall k, i :: 0 <= k < |body| && 0 <= i < |body[k]| ==> |body[k][i]| <= r.value[i]
    ensures r.Ok? ==> forall i :: 0 <= i < |start| ==>
              r.value[i] == start[i] || exists k :: 0 <= k < |body| && i < |body[k]| && |body[k][i]| == r.value[i]
    ensures r.Err? ==> r.error == "IndexError"
  {
    if exists k :: 0 <= k < |body| && |body[k]| > |start| then Err("IndexError")
    else Ok(seq(|start|, i requires 0 <= i < |start| => Max(start[i], ColumnMax(body, i))))
  }

  // ---------------------------------------------------------------------
  // print_table_text
  // ---------------------------------------------------------------------

  /** `'{0:{1}.{2}}'.format(s, n, n)` as intended: `s` cut to at most `n`
    * characters and padded with spaces on the right to exactly `n`. */
  function Fit(s: string, n: nat): (r: string)
    ensures |r| == n
    ensures |s| <= n ==> r[..|s|] == s && forall k :: |s| <= k < n ==> r[k] == ' '
    ensures n <= |s| ==> r == s[..n]
  {
    if n <= |s| then s[..n] else s + seq(n - |s|, _ => ' ')
  }

  /** `'{0:{1}.{2}}'.format(s, n, n)` as Python 2 runs it: with n = 0 the
    * specification reads `0.0`, whose leading `0` asks for zero padding
    * with `=` alignment, which strings refuse with ValueError. */
  function CellAsWritten(s: string, n: nat): (r: Result<string>)
    ensures r.Ok? <==> n > 0
    ensures r.Ok? ==> r.value == Fit(s, n)
  {
    if n == 0 then Err("ValueError") else Ok(Fit(s, n))
  }

  /** `[fit(s, n) for s, n in zip(row, widths)]`. */
  function FitRow(row: seq<string>, widths: seq<nat>): (r: seq<string>)
    ensures |r| == Shorter(|row|, |widths|)
    ensures forall j :: 0 <= j < |r| ==> r[j] == Fit(row[j], widths[j])
  {
    seq(Shorter(|row|, |widths|), j requires 0 <= j < Shorter(|row|, |widths|) => Fit(row[j], widths[j]))
  }

  function Sum(ws: seq<nat>): nat
  {
    if ws == [] then 0 else Sum(ws[..|ws| - 1]) + ws[|ws| - 1]
  }

  /** `'-' * (sum(widths) + len(widths) - 1)`; a negative count gives the
    * empty string. */
  function Rule(widths: seq<nat>): (r: string)
    ensures forall k :: 0 <= k < |r| ==> r[k] == '-'
  {
    var n := Sum(widths) + |widths| - 1;
    seq(if n < 0 then 0 else n, _ => '-')
  }

  /** `'* %s *\n\n' % title` when there is a title. */
  function TitleText(title: Option<string>): string
  {
    if title.Some? then "* " + title.value + " *\n\n" else ""
  }

  /** The rows, each joined with spaces and ended by a line break. */
  function RowLines(rows: seq<seq<string>>, widths: seq<nat>): string
  {
    if rows == [] then "" else Joined(FitRow(rows[0], widths), " ") + "\n" + RowLines(rows[1..], widths)
  }

  /** The header block: the fitted headers joined with spaces, then the rule. */
  function HeaderText(names: Option<seq<string>>, widths: seq<nat>): string
  {
    if names.Some? then Joined(FitRow(names.value, widths), " ") + "\n" + Rule(widths) + "\n" else ""
  }

  /** What `print_table_text` writes, with every cell fitted to the width
    * of its column, or the error it raises before writing. */
  function TextPrinted(title: Option<string>, headers: Option<seq<Option<string>>>,
                       body: seq<seq<string>>, maxWidth: Option<nat>): Result<string>
  {
    var names :- HeaderNames(headers);
    var start :- StartWidths(names, body, maxWidth);
    var widths :- Widths(start, body);
    Ok(TitleText(title) + HeaderText(names, widths) + RowLines(body, widths) + "\n")
  }

  /** A zero width used by one of the fitted cells. */
  predicate ZeroWidthUsed(row: seq<string>, widths: seq<nat>)
  {
    exists j :: 0 <= j < |row| && j < |widths| && widths[j] == 0
  }

  /** What `print_table_text` writes as Python 2 runs it: a body cell of
    * width 0 raises before anything is written, a header cell of width 0
    * after the title. */
  function TextPrintedAsWritten(title: Option<string>, headers: Option<seq<Option<string>>>,
                                body: seq<seq<string>>, maxWidth: Option<nat>): (p: (string, Option<string>))
  {
    match TextPrinted(title, headers, body, maxWidth)
    case Err(e) => ("", Some(e))
    case Ok(text) =>
      var names := HeaderNames(headers).value;
      var widths := Widths(StartWidths(names, body, maxWidth).value, body).value;
      if exists k :: 0 <= k < |body| && ZeroWidthUsed(body[k], widths) then ("", Some("ValueError"))
      else if names.Some? && ZeroWidthUsed(names.value, widths) then (TitleText(title), Some("ValueError"))
      else (text, None)
  }

  /** A column whose cells are all empty and which has no header is given
    * width 0, and Python 2 refuses to format it: a one-column table of an
    * empty string raises ValueError where two empty lines were meant. */
  lemma EmptyColumnRaises()
    ensures TextPrintedAsWritten(None, None, [[""]], Some(12)) == ("", Some("ValueError"))
    ensures TextPrinted(None, None, [[""]], Some(12)) == Ok("\n\n")
  {
    var body := [[""]];
    EmptyColumnWidth();
    var w: seq<nat> := [0];
    assert |body[0]| == 1 && w[0] == 0;
    assert ZeroWidthUsed(body[0], w);
    assert FitRow(body[0], [0]) == [""];
    assert Joined([""], " ") == "";
    assert RowLines(body, [0]) == "" + "\n" + RowLines([], [0]);
    assert TitleText(None) + HeaderText(None, [0]) + RowLines(body, [0]) + "\n" == "\n\n";
  }

  /** The one column of a table holding one empty string gets width 0. */
  lemma EmptyColumnWidth()
    ensures HeaderNames(None) == Ok(None)
    ensures StartWidths(None, [[""]], Some(12)) == Ok([0])
    ensures Widths([0], [[""]]) == Ok([0])
  {
    var body := [[""]];
    assert ColumnMax(body, 0) == 0 by {
      assert body[..0] == [];
    }
    assert forall k :: 0 <= k < |body| ==> |body[k]| == 1;
    var z: seq<nat> := seq(|body[0]|, _ => 0);
    assert z[0] == 0 && z == [0];
    assert seq(1, i requires 0 <= i < 1 => Max([0][i], ColumnMax(body, i))) == [0];
  }

  /** Every cell of the printed table fits its column: the widths reach
    * the longest cell of each column and the start width, and are no
    * wider than the larger of the two. */
  lemma TextColumnWidths(title: Option<string>, headers: Option<seq<Option<string>>>,
                         body: seq<seq<string>>, maxWidth: Option<nat>)
    requires TextPrinted(title, headers, body, maxWidth).Ok?
    ensures var names := HeaderNames(headers).value;
      var widths := Widths(StartWidths(names, body, maxWidth).value, body).value;
      && (names.Some? ==> |widths| == |names.value|)
      && (names.None? ==> |widths| == |body[0]|)
      && (forall k, j :: 0 <= k < |body| && 0 <= j < |body[k]| ==> j < |widths| && |body[k][j]| <= widths[j])
      && (forall j :: 0 <= j < |widths| && names.Some? && maxWidth.Some? ==>
            Shorter(|names.value[j]|, maxWidth.value) <= widths[j])
      && (forall k, j :: 0 <= k < |body| && 0 <= j < |body[k]| ==> FitRow(body[k], widths)[j][..|body[k][j]|] == body[k][j])
  {
  }

  /** A row or header line with a cell in every column is exactly as long
    * as the rule under the headers. */
  lemma {:induction false} RowSpansRule(row: seq<string>, widths: seq<nat>)
    requires |row| == |widths| > 0
    ensures |Joined(FitRow(row, widths), " ")| == |Rule(widths)|
  {
    JoinedLength(FitRow(row, widths), " ");
    FitRowLength(row, widths);
  }

  function TotalLength(items: seq<string>): nat
  {
    if items == [] then 0 else TotalLength(items[..|items| - 1]) + |items[|items| - 1]|
  }

  lemma {:induction false} JoinedLength(items: seq<string>, sep: string)
    requires items != [] && |sep| == 1
    ensures |Joined(items, sep)| == TotalLength(items) + |items| - 1
  {
    if |items| > 1 {
      JoinedLength(items[..|items| - 1], sep);
    } else {
      assert items[..0] == [];
    }
  }

  lemma {:induction false} FitRowLength(row: seq<string>, widths: seq<nat>)
    requires |row| == |widths|
    ensures TotalLength(FitRow(row, widths)) == Sum(widths)
  {
    if row != [] {
      var n := |row| - 1;
      FitRowLength(row[..n], widths[..n]);
      assert FitRow(row, widths)[..n] == FitRow(row[..n], widths[..n]);
    }
  }

  /** `print_table_text`: the widths are updated cell by cell, then the
    * title, the headers with their rule and the rows are written. */
  method PrintTableText(title: Option<string>, headers: Option<seq<Option<string>>>,
                        body: seq<seq<string>>, maxWidth: Option<nat>) returns (r: Result<string>)
    ensures r == TextPrinted(title, headers, body, maxWidth)
  {
    var names :- HeaderNames(headers);
    var start :- StartWidths(names, body, maxWidth);
    var widths := ColumnWidths(start, body);
    if widths.Err? {
      return Err(widths.error);
    }
    var w := widths.value;
    var out := WriteRows(TitleText(title) + HeaderText(names, w), body, w);
    return Ok(out + "\n");
  }

  /** The writes of the rows of `print_table_text` after `head`. */
  method WriteRows(head: string, body: seq<seq<string>>, w: seq<nat>) returns (out: string)
    ensures out == head + RowLines(body, w)
  {
    out := head;
    var k := 0;
    assert body[k..] == body;
    while k < |body|
      invariant k <= |body|
      invariant out + RowLines(body[k..], w) == head + RowLines(body, w)
    {
      assert body[k..][1..] == body[k + 1..];
      out := out + Joined(FitRow(body[k], w), " ") + "\n";
      k := k + 1;
    }
    assert RowLines(body[k..], w) == "";
  }

  /** The `column_widths` loop of `print_table_text`. */
  method ColumnWidths(start: seq<nat>, body: seq<seq<string>>) returns (r: Result<seq<nat>>)
    ensures r == Widths(start, body)
  {
    var widths := start;
    var k := 0;
    while k < |body|
      invariant k <= |body| && |widths| == |start|
      invariant forall q :: 0 <= q < k ==> |body[q]| <= |start|
      invariant forall c :: 0 <= c < |start| ==> widths[c] == Max(start[c], ColumnMax(body[..k], c))
    {
      var widened := WidenRow(widths, body[k]);
      if widened.Err? {
        assert |body[k]| > |start|;
        return Err("IndexError");
      }
      assert body[..k + 1][..k] == body[..k] && body[..k + 1][k] == body[k];
      widths := widened.value;
      k := k + 1;
    }
    assert body[..k] == body;
    ghost var spec := seq(|start|, i requires 0 <= i < |start| => Max(start[i], ColumnMax(body, i)));
    assert Widths(start, body) == Ok(spec);
    assert widths == spec;
    return Ok(widths);
  }

  /** One row of the `column_widths` loop: each column widens to its cell;
    * a cell past the widths raises. */
  method WidenRow(widths: seq<nat>, row: seq<string>) returns (r: Result<seq<nat>>)
    ensures r.Ok? <==> |row| <= |widths|
    ensures r.Err? ==> r.error == "IndexError"
    ensures r.Ok? ==> |r.value| == |widths|
    ensures r.Ok? ==> forall c :: 0 <= c < |widths| ==>
              r.value[c] == Max(widths[c], if c < |row| then |row[c]| else 0)
  {
    var w := widths;
    var i := 0;
    while i < |row|
      invariant i <= |row| && i <= |widths| && |w| == |widths|
      invariant forall c :: 0 <= c < |widths| ==> w[c] == Max(widths[c], if c < i then |row[c]| else 0)
    {
      if i >= |w| {
        return Err("IndexError");
      }
      w := w[i := Max(w[i], |row[i]|)];
      i := i + 1;
    }
    return Ok(w);
  }

  // ---------------------------------------------------------------------
  // print_table_tab
  // ---------------------------------------------------------------------

  /** Text written to a file, and the exception that stopped the writing. */
  datatype Printed = Printed(text: string, error: Option<string>)

  /** The rows, each joined with tabs and ended by a line break. */
  function TabRows(rows: seq<seq<string>>): string
  {
    if rows == [] then "" else Filesys.Join(rows[0], '\t') + "\n" + TabRows(rows[1..])
  }

  /** `"#\n# %s\n#\n" % title.upper()` when there is a title. */
  function TabTitle(title: Option<string>): string
  {
    if title.Some? then "#" + "\n" + ("# " + Upper(title.value)) + "\n" + "#" + "\n" else ""
  }

  /** What `print_table_tab` writes; a NULL header makes the join raise
    * TypeError once the title is written. */
  function TabPrinted(title: Option<string>, headers: Option<seq<Option<string>>>, body: seq<seq<string>>): Printed
  {
    match HeaderNames(headers)
    case Err(e) => Printed(TabTitle(title), Some(e))
    case Ok(names) =>
      Printed(TabTitle(title) + (if names.Some? then TabRows([names.value]) else "") + TabRows(body), None)
  }

  /** `print_table_tab`. */
  method PrintTableTab(title: Option<string>, headers: Option<seq<Option<string>>>, body: seq<seq<string>>)
    returns (p: Printed)
    ensures p == TabPrinted(title, headers, body)
  {
    var out := TabTitle(title);
    var names := HeaderNames(headers);
    if names.Err? {
      return Printed(out, Some(names.error));
    }
    if names.value.Some? {
      assert TabRows([names.value.value]) == Filesys.Join(names.value.value, '\t') + "\n" + TabRows([]);
      out := out + Filesys.Join(names.value.value, '\t') + "\n";
    }
    assert out + TabRows(body) == TabPrinted(title, headers, body).text;
    out := WriteTabRows(out, body);
    return Printed(out, None);
  }

  /** The writes of the rows of `print_table_tab` after `head`. */
  method WriteTabRows(head: string, body: seq<seq<string>>) returns (out: string)
    ensures out == head + TabRows(body)
  {
    out := head;
    var k := 0;
    assert body[k..] == body;
    while k < |body|
      invariant k <= |body|
      invariant out + TabRows(body[k..]) == head + TabRows(body)
    {
      assert body[k..][1..] == body[k + 1..];
      out := out + Filesys.Join(body[k], '\t') + "\n";
      k := k + 1;
    }
    assert TabRows(body[k..]) == "";
  }

  /** A cell free of tabs and line breaks. */
  predicate Plain(cell: string)
  {
    '\t' !in cell && '\n' !in cell
  }

  lemma {:induction false} JoinAvoids(items: seq<string>, sep: char, c: char)
    requires c != sep && forall k :: 0 <= k < |items| ==> c !in items[k]
    ensures c !in Filesys.Join(items, sep)
  {
    if |items| > 1 {
      JoinAvoids(items[1..], sep, c);
    }
  }

  /** The written rows read back: split at line breaks, then each line at
    * tabs, they give the table's rows again, with one empty piece after
    * the last line break. */
  lemma {:induction false} TabRowsReadBack(rows: seq<seq<string>>)
    requires forall k :: 0 <= k < |rows| ==> rows[k] != [] && forall j :: 0 <= j < |rows[k]| ==> Plain(rows[k][j])
    ensures var lines := Filesys.Split(TabRows(rows), '\n');
      && |lines| == |rows| + 1 && lines[|rows|] == []
      && forall k :: 0 <= k < |rows| ==> Filesys.Split(lines[k], '\t') == rows[k]
  {
    if rows != [] {
      var line := Filesys.Join(rows[0], '\t');
      JoinAvoids(rows[0], '\t', '\n');
      Filesys.SplitJoin(rows[0], '\t');
      TabRowsReadBack(rows[1..]);
      Filesys.SplitAfterPiece(line, TabRows(rows[1..]), '\n');
      assert TabRows(rows) == line + ['\n'] + TabRows(rows[1..]);
    }
  }

  /** With a title free of line breaks, the first three lines are the
    * title block and the table follows. */
  lemma TabTitleLines(t: string, body: seq<seq<string>>)
    requires '\n' !in t
    ensures Filesys.Split(TabPrinted(Some(t), None, body).text, '\n') ==
              ["#", "# " + Upper(t), "#"] + Filesys.Split(TabRows(body), '\n')
  {
    var u := "# " + Upper(t);
    assert '\n' !in u;
    TabTitleText(t, body);
    SplitThreeLines("#", u, "#", TabRows(body), '\n');
  }

  lemma SplitThreeLines<T>(a: seq<T>, b: seq<T>, c: seq<T>, rest: seq<T>, sep: T)
    requires sep !in a && sep !in b && sep !in c
    ensures Filesys.Split(a + [sep] + (b + [sep] + (c + [sep] + rest)), sep) == [a, b, c] + Filesys.Split(rest, sep)
  {
    Filesys.SplitAfterPiece(a, b + [sep] + (c + [sep] + rest), sep);
    Filesys.SplitAfterPiece(b, c + [sep] + rest, sep);
    Filesys.SplitAfterPiece(c, rest, sep);
    var tail := Filesys.Split(rest, sep);
    assert [a] + ([b] + ([c] + tail)) == [a, b, c] + tail;
  }

  lemma TabTitleText(t: string, body: seq<seq<string>>)
    ensures TabPrinted(Some(t), None, body).text ==
              "#" + ['\n'] + (("# " + Upper(t)) + ['\n'] + ("#" + ['\n'] + TabRows(body)))
  {
    assert HeaderNames(None) == Ok(None);
  }

  // ---------------------------------------------------------------------
  // print_table_csv
  // ---------------------------------------------------------------------

  /** A field the default dialect must quote: it holds the delimiter, the
    * quote character or a character of the line terminator. */
  predicate NeedsQuotes(s: string)
  {
    exists k :: 0 <= k < |s| && (s[k] == ',' || s[k] == '"' || s[k] == '\r' || s[k] == '\n')
  }

  /** `s` with every quote character doubled. */
  function Doubled(s: string): (r: string)
    ensures |r| >= |s|
  {
    if s == [] then "" else (if s[0] == '"' then "\"\"" else [s[0]]) + Doubled(s[1..])
  }

  /** One field as the writer emits it. */
  function CsvField(s: string): string
  {
    if NeedsQuotes(s) then "\"" + Doubled(s) + "\"" else s
  }

  /** One record: the fields joined with commas and ended by `\r\n`; a
    * record of one empty field is written as `""` so that it is not read
    * as an empty line. */
  function CsvRow(fields: seq<string>): string
  {
    (if fields == [""] then "\"\"" else Joined(seq(|fields|, k requires 0 <= k < |fields| => CsvField(fields[k])), ","))
    + "\r\n"
  }

  /** The writer turns a NULL header into an empty field. */
  function CsvText(cell: Option<string>): string
  {
    if cell.Some? then cell.value else ""
  }

  function CsvRows(rows: seq<seq<string>>): string
  {
    if rows == [] then "" else CsvRow(rows[0]) + CsvRows(rows[1..])
  }

  /** The title record and an empty record, when there is a title. */
  function CsvTitle(title: Option<string>): string
  {
    if title.Some? then CsvRow(["* " + title.value + " *"]) + CsvRow([]) else ""
  }

  /** The header record, when there are headers. */
  function CsvHeader(headers: Option<seq<Option<string>>>): string
  {
    if headers.Some? then CsvRow(seq(|headers.value|, j requires 0 <= j < |headers.value| => CsvText(headers.value[j])))
    else ""
  }

  /** What `print_table_csv` writes. */
  function CsvPrinted(title: Option<string>, headers: Option<seq<Option<string>>>, body: seq<seq<string>>): string
  {
    CsvTitle(title) + CsvHeader(headers) + CsvRows(body) + CsvRow([])
  }

  /** `print_table_csv`. */
  method PrintTableCsv(title: Option<string>, headers: Option<seq<Option<string>>>, body: seq<seq<string>>)
    returns (text: string)
    ensures text == CsvPrinted(title, headers, body)
  {
    text := WriteCsvRows(CsvTitle(title) + CsvHeader(headers), body);
    text := text + CsvRow([]);
  }

  /** The writes of the rows of `print_table_csv` after `head`. */
  method WriteCsvRows(head: string, body: seq<seq<string>>) returns (out: string)
    ensures out == head + CsvRows(body)
  {
    out := head;
    var k := 0;
    assert body[k..] == body;
    while k < |body|
      invariant k <= |body|
      invariant out + CsvRows(body[k..]) == head + CsvRows(body)
    {
      assert body[k..][1..] == body[k + 1..];
      out := out + CsvRow(body[k]);
      k := k + 1;
    }
    assert CsvRows(body[k..]) == "";
  }

  /** Reading one quoted field's inside back: a doubled quote is one. */
  function Undoubled(s: string): string
  {
    if |s| >= 2 && s[0] == '"' && s[1] == '"' then "\"" + Undoubled(s[2..])
    else if s == [] then ""
    else [s[0]] + Undoubled(s[1..])
  }

  /** Reading one field back as the `csv` reader does. */
  function ReadField(f: string): string
  {
    if |f| >= 2 && f[0] == '"' && f[|f| - 1] == '"' then Undoubled(f[1..|f| - 1]) else f
  }

  lemma {:induction false} UndoubleDoubled(s: string)
    ensures Undoubled(Doubled(s)) == s
  {
    if s != [] {
      UndoubleDoubled(s[1..]);
      if s[0] == '"' {
        assert Doubled(s)[2..] == Doubled(s[1..]);
      } else {
        assert Doubled(s)[1..] == Doubled(s[1..]);
      }
    }
  }

  /** Every field reads back as written: a field without special
    * characters is written as it is, any other is quoted with its quotes
    * doubled. */
  lemma CsvFieldReadBack(s: string)
    ensures ReadField(CsvField(s)) == s
  {
    if NeedsQuotes(s) {
      var f := CsvField(s);
      assert f[1..|f| - 1] == Doubled(s);
      UndoubleDoubled(s);
    } else if |s| >= 2 {
      assert !(s[0] == '"');
    }
  }

  // ---------------------------------------------------------------------
  // print_table_funcs
  // ---------------------------------------------------------------------

  datatype TableFormat = Txt | Csv | Tab

  function FormatName(f: TableFormat): string
  {
    match f
    case Txt => "txt"
    case Csv => "csv"
    case Tab => "tab"
  }

  /** `print_table_funcs[name]`: an unknown name raises KeyError. */
  function TableFormatNamed(name: string): (r: Result<TableFormat>)
    ensures r.Ok? ==> FormatName(r.value) == name
    ensures r.Err? ==> r.error == "KeyError" && forall f: TableFormat :: FormatName(f) != name
  {
    if name == "txt" then Ok(Txt)
    else if name == "csv" then Ok(Csv)
    else if name == "tab" then Ok(Tab)
    else Err("KeyError")
  }

  /** What the printer of a format writes, and the exception raised. */
  function TablePrinted(f: TableFormat, title: Option<string>, headers: Option<seq<Option<string>>>,
                        body: seq<seq<string>>): Printed
  {
    match f
    case Txt =>
      (match TextPrinted(title, headers, body, Some(12))
       case Ok(text) => Printed(text, None)
       case Err(e) => Printed("", Some(e)))
    case Csv => Printed(CsvPrinted(title, headers, body), None)
    case Tab => TabPrinted(title, headers, body)
  }
}
