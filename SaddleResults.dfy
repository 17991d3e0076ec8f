/** The saddlesum runs of the SaddleSum web front end and the reading of
  * their tab-separated output (web/SaddleSum/results.py). The output is a
  * run of sections; each opens with a line, has a title line and a third
  * line that is skipped, and then data lines up to the next line that
  * starts with '#'. The command a query ran with is saved, with the
  * weights file in place of standard input, and read back to score single
  * terms. */
module SaddleResults {
  import opened Wrappers
  import opened Text
  import Filesys

  // ------------------------------------------------------------------
  // Sections of the tab output
  // ------------------------------------------------------------------

  /** One section: its title, when it has a title line, and its data lines
    * split at tabs. */
  datatype Section = Section(title: Option<string>, data: seq<seq<string>>)

  /** What the section generator yields before it stops: the sections, and
    * whether it then raises IndexError (on an empty data line) rather than
    * running out of lines. */
  datatype Yield = Yield(sections: seq<Section>, failed: bool)

  /** `sections` yielded, then whatever `y` yields. */
  function Then(sections: seq<Section>, y: Yield): Yield
  {
    Yield(sections + y.sections, y.failed)
  }

  /** `output.split('\n')[:-1]`: the lines, without their line breaks and
    * without what follows the last break. */
  function Lines(output: string): (ls: seq<string>)
    ensures forall k :: 0 <= k < |ls| ==> '\n' !in ls[k]
  {
    var pieces := Filesys.Split(output, '\n');
    pieces[..|pieces| - 1]
  }

  /** `s[2:]`: a title line without its first two characters. */
  function Title(s: string): string
  {
    if |s| >= 2 then s[2..] else ""
  }

  /** A data position line that ends the section body: an empty line, on
    * which `s[0]` fails, or a line that opens the next section. */
  predicate Stops(s: string)
  {
    s == [] || s[0] == '#'
  }

  /** `s[:3] == '---'`: a rule line, which is skipped. */
  predicate IsRule(s: string)
  {
    |s| >= 3 && s[..3] == "---"
  }

  /** The first line at or after `k` that ends the body, or the end. */
  function BodyEnd(ls: seq<string>, k: nat): (e: nat)
    requires k <= |ls|
    ensures k <= e <= |ls|
    ensures forall j :: k <= j < e ==> !Stops(ls[j])
    ensures e < |ls| ==> Stops(ls[e])
    decreases |ls| - k
  {
    if k == |ls| || Stops(ls[k]) then k else BodyEnd(ls, k + 1)
  }

  /** The data of body lines: each line that is not a rule, split at tabs,
    * in order. */
  function Rows(body: seq<string>): (rows: seq<seq<string>>)
    ensures |rows| <= |body|
  {
    if body == [] then []
    else
      var s := body[|body| - 1];
      Rows(body[..|body| - 1]) + if IsRule(s) then [] else [Filesys.Split(s, '\t')]
  }

  /** The rows of one more body line. */
  lemma RowsSnoc(body: seq<string>, s: string)
    ensures Rows(body + [s]) == Rows(body) + if IsRule(s) then [] else [Filesys.Split(s, '\t')]
  {
    assert (body + [s])[..|body|] == body;
  }

  /** The sections of the lines, section by section: the first line opens
    * a section, the second holds its title after two characters, the third
    * is skipped, and the body runs to the next line starting with '#',
    * which opens the next section. An empty body line stops everything
    * with IndexError; the last section is yielded at the end of the lines. */
  function SectionsOf(ls: seq<string>): (y: Yield)
    ensures y.failed || |y.sections| >= 1
    decreases |ls|
  {
    var title := if |ls| > 1 then Some(Title(ls[1])) else None;
    if |ls| <= 3 then Yield([Section(title, [])], false)
    else
      var e := BodyEnd(ls, 3);
      if e == |ls| then Yield([Section(title, Rows(ls[3..]))], false)
      else if ls[e] == [] then Yield([], true)
      else Then([Section(title, Rows(ls[3..e]))], SectionsOf(ls[e..]))
  }

  /** `BodyEnd` is the first stopping line. */
  lemma BodyEndIs(ls: seq<string>, k: nat, e: nat)
    requires k <= e <= |ls|
    requires forall j :: k <= j < e ==> !Stops(ls[j])
    requires e < |ls| ==> Stops(ls[e])
    ensures BodyEnd(ls, k) == e
  {
  }

  /** The generator's local state: the line counter `i`, the open
    * section's title and data, the sections yielded so far, and whether it
    * has raised. */
  datatype Gen = Gen(i: int, title: Option<string>, data: seq<seq<string>>,
                     sections: seq<Section>, failed: bool)

  /** One pass of the generator's loop over line `s`: the second line of a
    * section gives its title; after the third, a line starting with '#'
    * yields the section and opens the next one at its second line, an empty
    * line raises IndexError (its `s[0]`), and any other adds its row unless
    * it starts with "---". */
  function Step(g: Gen, s: string): (g': Gen)
    ensures g.failed ==> g' == g
    ensures g'.failed ==> g'.sections == g.sections
    ensures !g'.failed && g'.sections != g.sections ==> g'.sections == g.sections + [Section(g.title, g.data)]
  {
    if g.failed then g
    else if g.i == 1 then g.(i := 2, title := Some(Title(s)))
    else if g.i > 2 then
      if s == [] then g.(failed := true)
      else if s[0] == '#' then Gen(1, None, [], g.sections + [Section(g.title, g.data)], false)
      else g.(i := g.i + 1, data := WithRow(g.data, s))
    else g.(i := g.i + 1)
  }

  /** The data after one more body line: its row, unless it is a rule. */
  function WithRow(data: seq<seq<string>>, s: string): seq<seq<string>>
  {
    if IsRule(s) then data else data + [Filesys.Split(s, '\t')]
  }

  /** The generator's state before its first line. */
  const Fresh := Gen(0, None, [], [], false)

  /** The state after the generator, from state `g`, has read the lines
    * `ls`. */
  function Run(g: Gen, ls: seq<string>): Gen
  {
    if ls == [] then g else Step(Run(g, ls[..|ls| - 1]), ls[|ls| - 1])
  }

  /** What the generator has yielded once its lines are used up, from
    * state `g`: the open section comes last, unless it raised. */
  function Outcome(g: Gen): (y: Yield)
    ensures y.failed == g.failed
  {
    if g.failed then Yield(g.sections, true)
    else Yield(g.sections + [Section(g.title, g.data)], false)
  }

  /** `_tab_sections`: the generator run over every line, with its line
    * counter `i` reset by a line starting with '#' after the third line of
    * a section (web/SaddleSum/results.py:58-77). */
  method TabSections(output: string) returns (y: Yield)
    ensures y == SectionsOf(Lines(output))
  {
    var lines := Lines(output);
    var sections: seq<Section> := [];
    var data: seq<seq<string>> := [];
    var title: Option<string> := None;
    var i := 0;
    for n := 0 to |lines|
      invariant Run(Fresh, lines[..n]) == Gen(i, title, data, sections, false)
    {
      assert lines[..n + 1][..n] == lines[..n];
      var s := lines[n];
      if i == 1 {
        title := Some(Title(s));
      } else if i > 2 {
        if s == [] {
          RunAppend(Fresh, lines[..n + 1], lines[n + 1..]);
          assert lines[..n + 1] + lines[n + 1..] == lines;
          StaysFailed(Run(Fresh, lines[..n + 1]), lines[n + 1..]);
          RunAgrees(lines);
          return Yield(sections, true);
        }
        if s[0] == '#' {
          sections := sections + [Section(title, data)];
          data, title, i := [], None, 0;
        } else if s[..Min(3, |s|)] != "---" {
          data := data + [Filesys.Split(s, '\t')];
        }
      }
      i := i + 1;
    }
    assert lines[..|lines|] == lines;
    RunAgrees(lines);
    y := Yield(sections + [Section(title, data)], false);
  }

  function Min(a: int, b: int): int
  {
    if a < b then a else b
  }

  /** Reading `a` then `b` is reading `a + b`. */
  lemma {:induction false} RunAppend(g: Gen, a: seq<string>, b: seq<string>)
    ensures Run(g, a + b) == Run(Run(g, a), b)
    decreases |b|
  {
    if b == [] {
      assert a + b == a;
    } else {
      var b' := b[..|b| - 1];
      RunAppend(g, a, b');
      assert (a + b)[..|a + b| - 1] == a + b';
    }
  }

  /** Once raised, the generator yields nothing more. */
  lemma {:induction false} StaysFailed(g: Gen, ls: seq<string>)
    requires g.failed
    ensures Run(g, ls) == g
    decreases |ls|
  {
    if ls != [] {
      StaysFailed(g, ls[..|ls| - 1]);
    }
  }

  /** A section's opener read: its title line is next. */
  function Opened(sections: seq<Section>): Gen
  {
    Gen(1, None, [], sections, false)
  }

  /** From just after a section's opener, the lines before line `k`, when
    * none of its body lines among them ended the body, leave the section
    * open with its title (from line 1) and the rows of its body so far. */
  lemma {:induction false} BodyRun(ls: seq<string>, sections: seq<Section>, k: nat)
    requires 1 <= k <= |ls|
    requires forall j :: 3 <= j < k ==> !Stops(ls[j])
    ensures Run(Opened(sections), ls[1..k]) ==
      Gen(k, if k > 1 then Some(Title(ls[1])) else None, if k > 3 then Rows(ls[3..k]) else [], sections, false)
  {
    var g := Opened(sections);
    if k == 1 {
      assert ls[1..1] == [];
    } else {
      BodyRun(ls, sections, k - 1);
      var title := if k > 2 then Some(Title(ls[1])) else None;
      var data := if k > 4 then Rows(ls[3..k - 1]) else [];
      SliceInit(ls, 1, k);
      assert Run(g, ls[1..k]) == Step(Gen(k - 1, title, data, sections, false), ls[k - 1]);
      if k > 3 {
        RowsInit(ls, k);
      }
    }
  }

  /** The rows of the body lines 3 to `k` are those up to the last line
    * and then the last line's row. */
  lemma RowsInit(ls: seq<string>, k: nat)
    requires 3 < k <= |ls|
    ensures Rows(ls[3..k]) == WithRow(if k > 4 then Rows(ls[3..k - 1]) else [], ls[k - 1])
  {
    SliceInit(ls, 3, k);
    assert k == 4 ==> ls[3..k - 1] == [];
  }

  /** A slice without its last element, and that element. */
  lemma SliceInit<T>(s: seq<T>, i: nat, k: nat)
    requires i < k <= |s|
    ensures s[i..k][..k - i - 1] == s[i..k - 1] && s[i..k][k - i - 1] == s[k - 1]
  {
  }

  /** A sequence cut at `k`. */
  lemma SliceCut<T>(s: seq<T>, i: nat, k: nat)
    requires i <= k <= |s|
    ensures s[i..k] + s[k..] == s[i..] && s[i..|s|] == s[i..]
  {
  }

  /** From just after the opener of the section at the head of `ls`, the
    * rest of `ls` yields what `ls` yields section by section. */
  lemma {:induction false} SectionRun(ls: seq<string>, sections: seq<Section>)
    requires ls != []
    ensures Outcome(Run(Opened(sections), ls[1..])) == Then(sections, SectionsOf(ls))
    decreases |ls|
  {
    var g := Opened(sections);
    if |ls| <= 3 {
      BodyRun(ls, sections, |ls|);
      SliceCut(ls, 1, |ls|);
    } else {
      var e := BodyEnd(ls, 3);
      BodyRun(ls, sections, e);
      var open := Run(g, ls[1..e]);
      if e == |ls| {
        SliceCut(ls, 1, e);
        SliceCut(ls, 3, e);
      } else {
        EndsAt(ls, sections, e);
      }
    }
  }

  /** The body of the section at the head of `ls` ends at line `e`: an
    * empty line raises, and a line starting with '#' yields the section
    * and opens the next. */
  lemma {:induction false} EndsAt(ls: seq<string>, sections: seq<Section>, e: nat)
    requires 3 < |ls| && e == BodyEnd(ls, 3) && e < |ls|
    requires Run(Opened(sections), ls[1..e]) == Gen(e, Some(Title(ls[1])), Rows(ls[3..e]), sections, false)
    ensures Outcome(Run(Opened(sections), ls[1..])) == Then(sections, SectionsOf(ls))
    decreases |ls|, 0
  {
    var g := Opened(sections);
    var sec := Section(Some(Title(ls[1])), Rows(ls[3..e]));
    var next := Step(Gen(e, sec.title, sec.data, sections, false), ls[e]);
    RunThrough(g, ls, e);
    SectionsAt(ls, e);
    if ls[e] == [] {
      StaysFailed(next, ls[e + 1..]);
      ThenAssoc(sections, [], Yield([], true));
    } else {
      assert next == Opened(sections + [sec]);
      SectionRun(ls[e..], sections + [sec]);
      DropOne(ls, e);
      ThenAssoc(sections, [sec], SectionsOf(ls[e..]));
    }
  }

  /** Yielding `a`, then `b`, then `y`. */
  lemma ThenAssoc(a: seq<Section>, b: seq<Section>, y: Yield)
    ensures Then(a, Then(b, y)) == Then(a + b, y)
    ensures b == [] ==> a + b == a
  {
    assert a + b + y.sections == a + (b + y.sections);
  }

  /** Dropping `e` elements, then one more. */
  lemma DropOne<T>(s: seq<T>, e: nat)
    requires e < |s|
    ensures s[e..][1..] == s[e + 1..]
  {
  }

  /** Reading past line `e`: the lines before it, then it, then the rest. */
  lemma RunThrough(g: Gen, ls: seq<string>, e: nat)
    requires 1 <= e < |ls|
    ensures Run(g, ls[1..]) == Run(Step(Run(g, ls[1..e]), ls[e]), ls[e + 1..])
  {
    SliceInit(ls, 1, e + 1);
    RunAppend(g, ls[1..e + 1], ls[e + 1..]);
    SliceCut(ls, 1, e + 1);
  }

  /** The sections of `ls`, whose first body ends at line `e` before the end
    * of the lines. */
  lemma SectionsAt(ls: seq<string>, e: nat)
    requires 3 < |ls| && e == BodyEnd(ls, 3) && e < |ls|
    ensures SectionsOf(ls) ==
      if ls[e] == [] then Yield([], true)
      else Then([Section(Some(Title(ls[1])), Rows(ls[3..e]))], SectionsOf(ls[e..]))
  {
  }

  /** A one-element sequence without its element. */
  lemma One<T>(x: T)
    ensures [x][..0] == [] && [x][0] == x
  {
  }

  /** Reading the lines one at a time agrees with reading them section by
    * section. */
  lemma RunAgrees(lines: seq<string>)
    ensures Outcome(Run(Fresh, lines)) == SectionsOf(lines)
  {
    if lines != [] {
      RunAppend(Fresh, [lines[0]], lines[1..]);
      HeadTail(lines);
      One(lines[0]);
      assert Run(Fresh, [lines[0]]) == Opened([]);
      SectionRun(lines, []);
      ThenAssoc([], [], SectionsOf(lines));
    }
  }

  /** The six parts of saddlesum's full tab output. */
  datatype TabOutput = TabOutput(summary: seq<seq<string>>, warnings: seq<seq<string>>,
                                 unknownIds: seq<seq<string>>, namespaces: seq<Section>,
                                 relationships: seq<seq<string>>, nodeProps: seq<seq<string>>)

  /** `parse_saddlesum_tab_output`: the data of the first five sections
    * (summary, warnings, unknown ids, relationships, node properties) and
    * every later section whole, as a namespace. Fewer than five sections
    * is StopIteration; an empty data line anywhere is IndexError, since
    * every section is read (web/SaddleSum/results.py:80-94). */
  method ParseTabOutput(output: string) returns (r: Result<TabOutput>)
    ensures var y := SectionsOf(Lines(output));
      && (r.Err? <==> |y.sections| < 5 || y.failed)
      && (r.Err? ==> r.error == if |y.sections| < 5 && !y.failed then "StopIteration" else "IndexError")
      && (r.Ok? ==> r.value == TabOutput(y.sections[0].data, y.sections[1].data, y.sections[2].data,
                                         y.sections[5..], y.sections[3].data, y.sections[4].data))
  {
    var y := TabSections(output);
    if |y.sections| < 5 {
      return Err(if y.failed then "IndexError" else "StopIteration");
    }
    var namespaces: seq<Section> := [];
    for k := 5 to |y.sections|
      invariant namespaces == y.sections[5..k]
    {
      namespaces := namespaces + [y.sections[k]];
    }
    if y.failed {
      return Err("IndexError");
    }
    var s := y.sections;
    r := Ok(TabOutput(s[0].data, s[1].data, s[2].data, namespaces, s[3].data, s[4].data));
  }

  /** `parse_saddlesum_tab_term_scores`: the data of the first two
    * sections. The generator runs only as far as the second, so an empty
    * line after it is never reached (web/SaddleSum/results.py:97-104). */
  method ParseTermScores(output: string) returns (r: Result<(seq<seq<string>>, seq<seq<string>>)>)
    ensures var y := SectionsOf(Lines(output));
      && (r.Err? <==> |y.sections| < 2)
      && (r.Err? ==> r.error == if y.failed then "IndexError" else "StopIteration")
      && (r.Ok? ==> r.value == (y.sections[0].data, y.sections[1].data))
  {
    var y := TabSections(output);
    if |y.sections| < 2 {
      return Err(if y.failed then "IndexError" else "StopIteration");
    }
    r := Ok((y.sections[0].data, y.sections[1].data));
  }

  // ------------------------------------------------------------------
  // The text of a section list
  // ------------------------------------------------------------------

  /** A data row that can be written as one line and read back: at least
    * one cell, no tab or line break in a cell, and a line that neither
    * starts with '#' nor is a rule. */
  predicate RowWritable(row: seq<string>)
  {
    && row != []
    && (forall c :: 0 <= c < |row| ==> '\t' !in row[c] && '\n' !in row[c])
    && !Stops(Filesys.Join(row, '\t')) && !IsRule(Filesys.Join(row, '\t'))
  }

  /** A section that can be written: a title without a line break, and
    * writable rows. */
  predicate Writable(sec: Section)
  {
    sec.title.Some? && '\n' !in sec.title.value
    && forall k :: 0 <= k < |sec.data| ==> RowWritable(sec.data[k])
  }

  /** The lines of data rows, each joined with tabs. */
  function RowLines(rows: seq<seq<string>>): (ls: seq<string>)
    ensures |ls| == |rows|
    ensures forall k :: 0 <= k < |rows| ==> ls[k] == Filesys.Join(rows[k], '\t')
  {
    if rows == [] then [] else RowLines(rows[..|rows| - 1]) + [Filesys.Join(rows[|rows| - 1], '\t')]
  }

  /** The lines of a section: an opening line, `# ` and the title, a
    * heading line, and the data rows. */
  function SectionLines(sec: Section): (ls: seq<string>)
  {
    ["#", "# " + (if sec.title.Some? then sec.title.value else ""), "#"] + RowLines(sec.data)
  }

  /** The lines of a list of sections, one after another. */
  function TabLines(secs: seq<Section>): seq<string>
  {
    if secs == [] then [] else SectionLines(secs[0]) + TabLines(secs[1..])
  }

  /** The text of a list of sections, every line ended by a line break. */
  function TabText(secs: seq<Section>): string
  {
    Filesys.Join(TabLines(secs), '\n') + "\n"
  }

  /** Appending one more item to a join appends the separator and it. */
  lemma {:induction false} JoinSnoc<T>(items: seq<seq<T>>, x: seq<T>, sep: T)
    requires items != []
    ensures Filesys.Join(items + [x], sep) == Filesys.Join(items, sep) + [sep] + x
  {
    if |items| > 1 {
      JoinSnoc(items[1..], x, sep);
      assert (items + [x])[1..] == items[1..] + [x];
    } else {
      assert (items + [x])[1..] == [x];
    }
  }

  /** The text of lines each ended by a line break, followed by a piece
    * without one: the piece after the last break is dropped. */
  lemma LinesDropTail(ls: seq<string>, tail: string)
    requires ls != [] && forall k :: 0 <= k < |ls| ==> '\n' !in ls[k]
    requires '\n' !in tail
    ensures Lines(Filesys.Join(ls, '\n') + "\n" + tail) == ls
  {
    JoinSnoc(ls, tail, '\n');
    Filesys.SplitJoin(ls + [tail], '\n');
    assert Filesys.Join(ls, '\n') + "\n" + tail == Filesys.Join(ls, '\n') + ['\n'] + tail;
  }

  /** A non-empty sequence is its front followed by its last element. */
  lemma InitLast<T>(s: seq<T>)
    requires s != []
    ensures s[..|s| - 1] + [s[|s| - 1]] == s
  {
  }

  /** A writable row's line is no rule and splits back into the row. */
  lemma RowLineBack(row: seq<string>)
    requires RowWritable(row)
    ensures !IsRule(Filesys.Join(row, '\t')) && Filesys.Split(Filesys.Join(row, '\t'), '\t') == row
  {
    Filesys.SplitJoin(row, '\t');
  }

  /** The rows of written row lines are the rows. */
  lemma {:induction false} RowsOfRowLines(rows: seq<seq<string>>)
    requires forall k :: 0 <= k < |rows| ==> RowWritable(rows[k])
    ensures Rows(RowLines(rows)) == rows
  {
    if rows != [] {
      var n := |rows| - 1;
      var init := rows[..n];
      assert forall k :: 0 <= k < |init| ==> RowWritable(init[k]);
      RowsOfRowLines(init);
      var row := rows[n];
      RowLineBack(row);
      var line := Filesys.Join(row, '\t');
      assert RowLines(rows) == RowLines(init) + [line];
      RowsSnoc(RowLines(init), line);
      InitLast(rows);
    }
  }

  /** No written line holds a line break. */
  lemma {:induction false} TabLinesClean(secs: seq<Section>)
    requires forall k :: 0 <= k < |secs| ==> Writable(secs[k])
    ensures forall k :: 0 <= k < |TabLines(secs)| ==> '\n' !in TabLines(secs)[k]
  {
    if secs != [] {
      TabLinesClean(secs[1..]);
      var ls := SectionLines(secs[0]);
      forall k | 3 <= k < |ls| ensures '\n' !in ls[k] {
        JoinClean(secs[0].data[k - 3], '\t', '\n');
      }
    }
  }

  /** A join holds a character only if the separator or an item does. */
  lemma {:induction false} JoinClean<T>(items: seq<seq<T>>, sep: T, c: T)
    requires c != sep && forall k :: 0 <= k < |items| ==> c !in items[k]
    ensures c !in Filesys.Join(items, sep)
  {
    if |items| > 1 {
      JoinClean(items[1..], sep, c);
    }
  }

  /** One written section followed by lines that are empty or open the
    * next section: the section is read back, then the next ones. */
  lemma OneSection(sec: Section, after: seq<string>)
    requires Writable(sec)
    requires after == [] || after[0] == "#"
    ensures SectionsOf(SectionLines(sec) + after) ==
      if after == [] then Yield([sec], false) else Then([sec], SectionsOf(after))
  {
    var body := RowLines(sec.data);
    var ls := SectionLines(sec) + after;
    var e := 3 + |sec.data|;
    assert ls[1] == "# " + sec.title.value;
    assert Title(ls[1]) == sec.title.value;
    assert ls[3..e] == body;
    forall j | 3 <= j < e ensures !Stops(ls[j]) {
      assert ls[j] == body[j - 3] == Filesys.Join(sec.data[j - 3], '\t');
      assert RowWritable(sec.data[j - 3]);
    }
    RowsOfRowLines(sec.data);
    if |ls| > 3 {
      BodyEndIs(ls, 3, e);
      assert ls[e..] == after;
      if after == [] {
        assert ls[3..] == body;
      }
    }
  }

  /** The sections of written sections are those sections. */
  lemma {:induction false} SectionsOfTabLines(secs: seq<Section>)
    requires secs != [] && forall k :: 0 <= k < |secs| ==> Writable(secs[k])
    ensures SectionsOf(TabLines(secs)) == Yield(secs, false)
  {
    var sec, rest := secs[0], secs[1..];
    assert Writable(sec);
    assert TabLines(secs) == SectionLines(sec) + TabLines(rest);
    OneSection(sec, TabLines(rest));
    if rest != [] {
      assert forall k :: 0 <= k < |rest| ==> Writable(rest[k]);
      SectionsOfTabLines(rest);
    }
    HeadTail(secs);
  }

  /** A non-empty sequence is its first element followed by the rest. */
  lemma HeadTail<T>(s: seq<T>)
    requires s != []
    ensures [s[0]] + s[1..] == s
  {
  }

  /** Reading the text of written sections gives the sections back, with
    * no error: the round trip of the section reader. */
  lemma TabTextRoundTrip(secs: seq<Section>)
    requires secs != [] && forall k :: 0 <= k < |secs| ==> Writable(secs[k])
    ensures SectionsOf(Lines(TabText(secs))) == Yield(secs, false)
  {
    TabLinesClean(secs);
    assert TabLines(secs) != [];
    LinesDropTail(TabLines(secs), "");
    assert TabText(secs) == Filesys.Join(TabLines(secs), '\n') + "\n" + "";
    SectionsOfTabLines(secs);
  }

  // ------------------------------------------------------------------
  // The command lines
  // ------------------------------------------------------------------

  /** `os.path.join(cmd_path, 'saddlesum')`, no path standing for ''. */
  function Command(cmdPath: Option<string>): (c: string)
    ensures cmdPath.None? || cmdPath.value == [] ==> c == "saddlesum"
    ensures cmdPath.Some? ==> cmdPath.value <= c
    ensures |c| >= 9 && c[|c| - 9..] == "saddlesum"
  {
    var p := if cmdPath.Some? then cmdPath.value else "";
    if p == [] then "saddlesum"
    else if p[|p| - 1] == '/' then p + "saddlesum"
    else p + "/saddlesum"
  }

  /** The arguments `get_saddlesum_results` runs saddlesum with
    * (web/SaddleSum/results.py:38-42). */
  function RunArgs(opts: seq<string>, termdb: string, format: string, cmdPath: Option<string>): seq<string>
  {
    var opts' := ["-F", format] + opts;
    [Command(cmdPath)] + opts' + ["-", termdb]
  }

  /** The run's outcome: saddlesum's output, or SaddleSumError with the
    * stripped error text on a non-zero exit status
    * (web/SaddleSum/results.py:54-56). */
  function RunOutcome(returncode: int, stdout: string, stderr: string): (r: Result<string>)
    ensures r.Ok? <==> returncode == 0
    ensures r.Ok? ==> r.value == stdout
  {
    if returncode != 0 then Err("SaddleSumError: " + Strip(stderr)) else Ok(stdout)
  }

  /** The command text `save_query_data` writes: the arguments with the
    * second last replaced by the weights file, joined by spaces; fewer
    * than two arguments is IndexError. */
  function SavedCommand(args: seq<string>, weightsFile: string): (r: Result<string>)
    ensures r.Err? <==> |args| < 2
  {
    if |args| < 2 then Err("IndexError")
    else Ok(Filesys.Join(args[|args| - 2 := weightsFile], ' '))
  }

  /** `save_query_data`: the caller's argument list is changed in place,
    * its second last argument becoming the weights file, and the command
    * text is what is written (web/SaddleSum/results.py:107-115). */
  method SaveQueryData(args: array<string>, weightsFile: string) returns (command: Result<string>)
    modifies args
    ensures command == SavedCommand(old(args[..]), weightsFile)
    ensures args.Length < 2 ==> args[..] == old(args[..])
    ensures args.Length >= 2 ==> args[..] == old(args[..])[args.Length - 2 := weightsFile]
  {
    if args.Length < 2 {
      return Err("IndexError");
    }
    args[args.Length - 2] := weightsFile;
    command := Ok(Filesys.Join(args[..], ' '));
  }

  /** `fp.readline()`: the text up to and including the first line break. */
  function ReadLine(text: string): string
  {
    if '\n' in text then Filesys.Split(text, '\n')[0] + "\n" else text
  }

  /** The arguments `get_saddlesum_term_scores` runs saddlesum with: the
    * saved command's first line, stripped and split at spaces, with
    * `-T term_id` after the program and, for text output, `-F txt` before
    * the last two arguments (web/SaddleSum/results.py:123-128). */
  function TermScoreArgs(commandText: string, termId: string, outputFormat: string): (args: seq<string>)
  {
    var saved := Filesys.Split(Strip(ReadLine(commandText)), ' ');
    var full := saved[..1] + ["-T", termId] + saved[1..];
    if outputFormat == "txt" then full[..|full| - 2] + ["-F", "txt"] + full[|full| - 2..] else full
  }

  /** An argument that survives being written to and read from the command
    * file: not empty and free of whitespace. */
  predicate Clean(s: string)
  {
    s != [] && forall k :: 0 <= k < |s| ==> !IsSpace(s[k])
  }

  /** Stripping a text without whitespace at either end changes nothing. */
  lemma StripClean(s: string)
    requires s != [] && !IsSpace(s[0]) && !IsSpace(s[|s| - 1])
    ensures Strip(s) == s
  {
    assert LeadingSpaces(s) == 0;
    assert TrailingSpaces(s) == 0;
  }

  /** A join of clean items has no space at either end and no line break. */
  lemma {:induction false} JoinEnds(items: seq<string>)
    requires items != [] && forall k :: 0 <= k < |items| ==> Clean(items[k])
    ensures var j := Filesys.Join(items, ' ');
      j != [] && !IsSpace(j[0]) && !IsSpace(j[|j| - 1]) && '\n' !in j
  {
    if |items| > 1 {
      JoinEnds(items[1..]);
    }
    forall k | 0 <= k < |items| ensures '\n' !in items[k] && ' ' !in items[k] {
      assert forall c :: 0 <= c < |items[k]| ==> !IsSpace(items[k][c]);
    }
    JoinClean(items, ' ', '\n');
  }

  /** The saved command of a run, read back to score term `termId`: the run
    * arguments with the weights file in place of standard input and
    * `-T termId` after the program, and, for text output, `-F txt` before
    * the weights file. */
  lemma TermScoresReplaySavedRun(opts: seq<string>, termdb: string, format: string, cmdPath: Option<string>,
                                 weightsFile: string, termId: string, outputFormat: string)
    requires Clean(Command(cmdPath)) && Clean(format) && Clean(termdb) && Clean(weightsFile)
    requires forall k :: 0 <= k < |opts| ==> Clean(opts[k])
    ensures var run := RunArgs(opts, termdb, format, cmdPath);
      var saved := SavedCommand(run, weightsFile);
      var mid := ["-F", format] + opts;
      && saved.Ok?
      && TermScoreArgs(saved.value, termId, outputFormat) ==
         if outputFormat == "txt" then [Command(cmdPath), "-T", termId] + mid + ["-F", "txt"] + [weightsFile, termdb]
         else [Command(cmdPath), "-T", termId] + mid + [weightsFile, termdb]
  {
    var cmd := Command(cmdPath);
    var mid := ["-F", format] + opts;
    SecondLast([cmd] + mid, "-", termdb, weightsFile);
    var args := [cmd] + mid + [weightsFile, termdb];
    ArgsClean(cmd, format, opts, weightsFile, termdb);
    var text := Filesys.Join(args, ' ');
    JoinEnds(args);
    StripClean(text);
    forall k | 0 <= k < |args| ensures ' ' !in args[k] {
      CleanNoSpace(args[k]);
    }
    Filesys.SplitJoin(args, ' ');
    ReplayShape(cmd, mid, weightsFile, termdb, "-T", termId, "-F", "txt");
  }

  /** Every argument of the saved run is clean when its parts are. */
  lemma ArgsClean(cmd: string, format: string, opts: seq<string>, weightsFile: string, termdb: string)
    requires Clean(cmd) && Clean(format) && Clean(termdb) && Clean(weightsFile)
    requires forall k :: 0 <= k < |opts| ==> Clean(opts[k])
    ensures var args := [cmd] + (["-F", format] + opts) + [weightsFile, termdb];
      forall k :: 0 <= k < |args| ==> Clean(args[k])
  {
    var args := [cmd] + (["-F", format] + opts) + [weightsFile, termdb];
    forall k | 0 <= k < |args| ensures Clean(args[k]) {
      if 3 <= k < 3 + |opts| {
        assert args[k] == opts[k - 3];
      }
    }
  }

  /** A clean argument holds no space. */
  lemma CleanNoSpace(s: string)
    requires Clean(s)
    ensures ' ' !in s
  {
    forall k | 0 <= k < |s| ensures s[k] != ' ' {
      assert !IsSpace(s[k]);
    }
  }

  /** Replacing the second last of `front + [x, y]` by `z`. */
  lemma SecondLast<T>(front: seq<T>, x: T, y: T, z: T)
    ensures (front + [x, y])[|front| := z] == front + [z, y]
  {
  }

  /** The argument lists of the term-score run, by their shape. */
  lemma ReplayShape<T>(c: T, mid: seq<T>, w: T, t: T, flagT: T, id: T, flagF: T, txt: T)
    ensures var args := [c] + mid + [w, t];
      var full := args[..1] + [flagT, id] + args[1..];
      && full == [c, flagT, id] + mid + [w, t]
      && full[..|full| - 2] + [flagF, txt] + full[|full| - 2..] == [c, flagT, id] + mid + [flagF, txt] + [w, t]
  {
    var args := [c] + mid + [w, t];
    assert args[..1] == [c] && args[1..] == mid + [w, t];
    var full := args[..1] + [flagT, id] + args[1..];
    assert full == [c, flagT, id] + mid + [w, t];
    assert full[..|full| - 2] == [c, flagT, id] + mid;
    assert full[|full| - 2..] == [w, t];
  }
}
