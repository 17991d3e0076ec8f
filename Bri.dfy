/** The KEGG brite hierarchy (common/db_parsers/bri.py): the pathway
  * ontology read from a brite text file, with its three indentation
  * levels A, B and C under the root "KEGG Pathway", the walk from a set of
  * terms up to the root, and the lookup of one term.
  *
  * The file is given as its sequence of lines, each as read from the file
  * (a final line feed included). */
module Bri {
  import opened Wrappers
  import opened Indexing
  import opened Text

  /** The root of the hierarchy: the parent of every A-level term. */
  const Root := "KEGG Pathway"

  // ------------------------------------------------------------------
  // The regular expression of an A line: <b>([^<]*)</b>
  // ------------------------------------------------------------------

  /** The first '<' in `s` at or after `i`, or `|s|` when there is none. */
  function FirstLt(s: string, i: nat): (q: nat)
    requires i <= |s|
    ensures i <= q <= |s| && (q < |s| ==> s[q] == '<')
    ensures forall k :: i <= k < q ==> s[k] != '<'
    decreases |s| - i
  {
    if i == |s| || s[i] == '<' then i else FirstLt(s, i + 1)
  }

  /** The pattern matches at `p`. The group `[^<]*` is greedy and cannot
    * cross a '<', so it ends at the first '<' after the opening tag, and
    * the match succeeds exactly when the closing tag starts there. */
  predicate BoldAt(s: string, p: nat)
  {
    p + 3 <= |s| && s[p..p + 3] == "<b>" &&
    var q := FirstLt(s, p + 3);
    q + 4 <= |s| && s[q..q + 4] == "</b>"
  }

  /** `re.search`: the leftmost position at or after `from` where the
    * pattern matches. */
  function BoldSearch(s: string, from: nat): (r: Option<nat>)
    ensures r.Some? ==> from <= r.value && BoldAt(s, r.value)
    ensures forall p :: from <= p && (r.None? || p < r.value) ==> !BoldAt(s, p)
    decreases |s| - from
  {
    if |s| < from + 3 then None
    else if BoldAt(s, from) then Some(from)
    else BoldSearch(s, from + 1)
  }

  /** Group 1 of the search on an A line: the text between the first
    * matching pair of bold tags. */
  function BoldTerm(line: string): (r: Option<string>)
    ensures r.Some? ==> forall k :: 0 <= k < |r.value| ==> r.value[k] != '<'
  {
    match BoldSearch(line, 0)
    case None => None
    case Some(p) => Some(line[p + 3..FirstLt(line, p + 3)])
  }

  // ------------------------------------------------------------------
  // The regular expression of a C line: \s+(\d{5})\s+(.*)
  // ------------------------------------------------------------------

  /** The end of the run of whitespace in `s` that starts at `i`. */
  function SpaceEnd(s: string, i: nat): (e: nat)
    requires i <= |s|
    ensures i <= e <= |s| && (e < |s| ==> !IsSpace(s[e]))
    ensures forall k :: i <= k < e ==> IsSpace(s[k])
    decreases |s| - i
  {
    if i == |s| || !IsSpace(s[i]) then i else SpaceEnd(s, i + 1)
  }

  /** The pattern matches at `p`. A digit is not whitespace, so the first
    * `\s+` must take the whole run of whitespace at `p`; five digits and
    * another whitespace character must follow it. `(.*)` then always
    * matches. */
  predicate CodeAt(s: string, p: nat)
  {
    p < |s| && IsSpace(s[p]) &&
    var e := SpaceEnd(s, p);
    e + 5 < |s| && AllDigits(s[e..e + 5]) && IsSpace(s[e + 5])
  }

  /** `re.search`: the leftmost position at or after `from` where the
    * pattern matches. */
  function CodeSearch(s: string, from: nat): (r: Option<nat>)
    ensures r.Some? ==> from <= r.value && CodeAt(s, r.value)
    ensures forall p :: from <= p && (r.None? || p < r.value) ==> !CodeAt(s, p)
    decreases |s| - from
  {
    if |s| <= from then None
    else if CodeAt(s, from) then Some(from)
    else CodeSearch(s, from + 1)
  }

  /** The first line feed in `s` at or after `i`, or `|s|`: where `.*`
    * stops. */
  function LineEnd(s: string, i: nat): (e: nat)
    requires i <= |s|
    ensures i <= e <= |s| && (e < |s| ==> s[e] == '\n')
    ensures forall k :: i <= k < e ==> s[k] != '\n'
    decreases |s| - i
  {
    if i == |s| || s[i] == '\n' then i else LineEnd(s, i + 1)
  }

  /** Groups 1 and 2 of the search on the text of a C line: the five-digit
    * pathway id and the name after it, up to the end of the line. */
  function CodeLine(s: string): (r: Option<(string, string)>)
    ensures r.Some? ==> |r.value.0| == 5 && AllDigits(r.value.0)
    ensures r.Some? ==> forall k :: 0 <= k < |r.value.1| ==> r.value.1[k] != '\n'
    ensures r.Some? && r.value.1 != [] ==> !IsSpace(r.value.1[0])
    ensures r.None? <==> forall p :: 0 <= p < |s| ==> !CodeAt(s, p)
  {
    match CodeSearch(s, 0)
    case None => None
    case Some(p) =>
      var e := SpaceEnd(s, p);
      var f := SpaceEnd(s, e + 5);
      Some((s[e..e + 5], s[f..LineEnd(s, f)]))
  }

  // ------------------------------------------------------------------
  // Reading the file, line by line
  // ------------------------------------------------------------------

  /** What the reader of the brite file has built after some lines:
    * `parents` is the term-to-parent dictionary (`None` for the root),
    * `breadcrumb` the trail from the most specific open term to the least,
    * `aCount` and `bCount` the numbers the next A and B terms get, and the
    * last three the tables the reader fills in on the ontology. */
  datatype Brite = Brite(parents: map<string, Option<string>>, breadcrumb: seq<string>,
                         aCount: nat, bCount: nat,
                         index2terms: seq<string>, terms: map<string, string>,
                         term2type: map<string, string>)

  /** The state before the first line. */
  const Start := Brite(map[Root := None], [], 1, 1, [], map[], map[])

  /** An A line that names a term between bold tags (other A lines are
    * skipped). */
  predicate IsBoldLine(line: string)
  {
    line != [] && line[0] == 'A' && BoldTerm(line).Some?
  }

  predicate IsBLine(line: string)
  {
    line != [] && line[0] == 'B'
  }

  predicate IsCLine(line: string)
  {
    line != [] && line[0] == 'C'
  }

  /** One line of the file. An empty line is an IndexError (`line[0]`), as
    * are a B or C line with nothing in the breadcrumb; a C line the pattern
    * does not match is an AttributeError (`None.group`). Lines starting
    * with '#' and with any letter but A, B and C change nothing. */
  function Step(b: Brite, line: string): Result<Brite>
  {
    if line == [] then Err("IndexError")
    else if line[0] == 'A' then
      match BoldTerm(line)
      case None => Ok(b)
      case Some(t) =>
        Ok(b.(parents := b.parents[t := Some(Root)], breadcrumb := [t],
              terms := b.terms[t := t], term2type := b.term2type[t := "A" + NatToString(b.aCount)],
              aCount := b.aCount + 1))
    else if line[0] == 'B' then
      var crumbs := if |b.breadcrumb| > 1 then b.breadcrumb[1..] else b.breadcrumb;
      var t := Strip(line[1..]);
      if crumbs == [] then Err("IndexError")
      else
        Ok(b.(parents := b.parents[t := Some(crumbs[0])], breadcrumb := [t] + crumbs,
              terms := b.terms[t := t], term2type := b.term2type[t := "B" + NatToString(b.bCount)],
              bCount := b.bCount + 1))
    else if line[0] == 'C' then
      match CodeLine(line[1..])
      case None => Err("AttributeError")
      case Some((id, name)) =>
        if b.breadcrumb == [] then Err("IndexError")
        else
          var parent := Some(b.breadcrumb[0]);
          Ok(b.(index2terms := b.index2terms + [id],
                parents := b.parents[id := parent][name := parent],
                terms := b.terms[id := name], term2type := b.term2type[id := "C"]))
    else Ok(b)
  }

  /** The reader run over `lines`, stopping at the first error. */
  function Load(lines: seq<string>): Result<Brite>
  {
    if lines == [] then Ok(Start)
    else
      var b :- Load(lines[..|lines| - 1]);
      Step(b, lines[|lines| - 1])
  }

  /** Once a prefix of the file fails, the whole file fails the same way. */
  lemma {:induction false} ErrorPersists(lines: seq<string>, k: nat)
    requires k <= |lines| && Load(lines[..k]).Err?
    ensures Load(lines) == Load(lines[..k])
    decreases |lines| - k
  {
    if k < |lines| {
      assert lines[..k + 1][..k] == lines[..k];
      ErrorPersists(lines, k + 1);
    } else {
      assert lines[..k] == lines;
    }
  }

  // ------------------------------------------------------------------
  // What the reader builds
  // ------------------------------------------------------------------

  /** Every term but the root has a parent that is itself a term. */
  ghost predicate ParentsClosed(parents: map<string, Option<string>>)
  {
    forall t {:trigger parents[t]} :: t in parents && t != Root ==> parents[t].Some? && parents[t].value in parents
  }

  /** The tables of a read file hang together: every term other than the
    * root has a parent that is itself a known term, every named term has a
    * parent and a type, and every indexed pathway is named. */
  ghost predicate ConsistentTables(parents: map<string, Option<string>>, index2terms: seq<string>,
                                   terms: map<string, string>, term2type: map<string, string>)
  {
    && Root in parents
    && ParentsClosed(parents)
    && terms.Keys == term2type.Keys
    && (forall t :: t in terms ==> t in parents)
    && (forall k :: 0 <= k < |index2terms| ==> index2terms[k] in terms)
  }

  /** The tables hang together and the breadcrumb holds at most one A and
    * one B term, both named. */
  ghost predicate Consistent(b: Brite)
  {
    && ConsistentTables(b.parents, b.index2terms, b.terms, b.term2type)
    && |b.breadcrumb| <= 2
    && forall k :: 0 <= k < |b.breadcrumb| ==> b.breadcrumb[k] in b.terms
  }

  /** Giving a term a known parent, a name and a type keeps the tables
    * consistent. */
  lemma TermAdded(parents: map<string, Option<string>>, index2terms: seq<string>,
                  terms: map<string, string>, term2type: map<string, string>,
                  t: string, parent: string, name: string, ty: string)
    requires ConsistentTables(parents, index2terms, terms, term2type) && parent in parents
    ensures ConsistentTables(parents[t := Some(parent)], index2terms, terms[t := name], term2type[t := ty])
  {
  }

  /** Every line keeps the state consistent. */
  lemma StepConsistent(b: Brite, line: string)
    requires Consistent(b) && Step(b, line).Ok?
    ensures Consistent(Step(b, line).value)
  {
    if line[0] == 'A' && BoldTerm(line).Some? {
      BoldStepConsistent(b, line);
    } else if line[0] == 'B' {
      BStepConsistent(b, line);
    } else if line[0] == 'C' {
      CStepConsistent(b, line);
    }
  }

  lemma BoldStepConsistent(b: Brite, line: string)
    requires Consistent(b) && IsBoldLine(line)
    ensures Step(b, line).Ok? && Consistent(Step(b, line).value)
  {
    var t := BoldTerm(line).value;
    TermAdded(b.parents, b.index2terms, b.terms, b.term2type, t, Root, t, "A" + NatToString(b.aCount));
  }

  lemma BStepConsistent(b: Brite, line: string)
    requires Consistent(b) && IsBLine(line) && Step(b, line).Ok?
    ensures Consistent(Step(b, line).value)
  {
    var crumbs := if |b.breadcrumb| > 1 then b.breadcrumb[1..] else b.breadcrumb;
    assert crumbs[0] in b.terms by {
      assert crumbs[0] == b.breadcrumb[|b.breadcrumb| - |crumbs|];
    }
    var t := Strip(line[1..]);
    TermAdded(b.parents, b.index2terms, b.terms, b.term2type, t, crumbs[0], t, "B" + NatToString(b.bCount));
  }

  lemma CStepConsistent(b: Brite, line: string)
    requires Consistent(b) && IsCLine(line) && Step(b, line).Ok?
    ensures Consistent(Step(b, line).value)
  {
    var (id, name) := CodeLine(line[1..]).value;
    var parent := b.breadcrumb[0];
    assert parent in b.terms;
    TermAdded(b.parents, b.index2terms, b.terms, b.term2type, id, parent, name, "C");
    var parents' := b.parents[id := Some(parent)];
    assert ConsistentTables(parents'[name := Some(parent)], b.index2terms + [id],
                            b.terms[id := name], b.term2type[id := "C"]);
  }

  lemma {:induction false} LoadConsistent(lines: seq<string>)
    ensures Load(lines).Ok? ==> Consistent(Load(lines).value)
  {
    if lines != [] {
      LoadConsistent(lines[..|lines| - 1]);
      var prev := Load(lines[..|lines| - 1]);
      if prev.Ok? && Load(lines).Ok? {
        StepConsistent(prev.value, lines[|lines| - 1]);
      }
    }
  }

  // ------------------------------------------------------------------
  // The same, read off the lines directly
  // ------------------------------------------------------------------

  /** The term of the last A line that names one. */
  function LastA(lines: seq<string>): Option<string>
  {
    if lines == [] then None
    else if IsBoldLine(lines[|lines| - 1]) then BoldTerm(lines[|lines| - 1])
    else LastA(lines[..|lines| - 1])
  }

  /** The term of the last B line after that A line, if any. */
  function LastB(lines: seq<string>): Option<string>
  {
    if lines == [] then None
    else
      var line := lines[|lines| - 1];
      if IsBoldLine(line) then None
      else if IsBLine(line) then Some(Strip(line[1..]))
      else LastB(lines[..|lines| - 1])
  }

  /** How many lines satisfy `P`. */
  function CountLines(lines: seq<string>, P: string -> bool): nat
  {
    if lines == [] then 0
    else CountLines(lines[..|lines| - 1], P) + (if P(lines[|lines| - 1]) then 1 else 0)
  }

  /** The pathway ids of the C lines, in file order. */
  function CodeIds(lines: seq<string>): seq<string>
  {
    if lines == [] then []
    else
      var line := lines[|lines| - 1];
      CodeIds(lines[..|lines| - 1]) +
      (if IsCLine(line) && CodeLine(line[1..]).Some? then [CodeLine(line[1..]).value.0] else [])
  }

  function Listed(o: Option<string>): seq<string>
  {
    if o.Some? then [o.value] else []
  }

  /** The breadcrumb is the last B term since the last A term, followed by
    * that A term; the counters number the A and B terms read so far from
    * one; the index lists the C-line ids in file order. */
  ghost predicate Tracks(b: Brite, lines: seq<string>)
  {
    && b.breadcrumb == Listed(LastB(lines)) + Listed(LastA(lines))
    && (LastB(lines).Some? ==> LastA(lines).Some?)
    && b.aCount == 1 + CountLines(lines, IsBoldLine)
    && b.bCount == 1 + CountLines(lines, IsBLine)
    && b.index2terms == CodeIds(lines)
  }

  /** The reference functions of the lines read so far, one line on. */
  lemma Unfolded(lines: seq<string>, line: string)
    ensures var ls := lines + [line];
            && LastA(ls) == (if IsBoldLine(line) then BoldTerm(line) else LastA(lines))
            && LastB(ls) == (if IsBoldLine(line) then None else if IsBLine(line) then Some(Strip(line[1..])) else LastB(lines))
            && CountLines(ls, IsBoldLine) == CountLines(lines, IsBoldLine) + (if IsBoldLine(line) then 1 else 0)
            && CountLines(ls, IsBLine) == CountLines(lines, IsBLine) + (if IsBLine(line) then 1 else 0)
            && CodeIds(ls) == CodeIds(lines) +
                 (if IsCLine(line) && CodeLine(line[1..]).Some? then [CodeLine(line[1..]).value.0] else [])
  {
    assert (lines + [line])[..|lines|] == lines;
  }

  lemma StepTracks(b: Brite, lines: seq<string>, line: string)
    requires Tracks(b, lines) && Step(b, line).Ok?
    ensures Tracks(Step(b, line).value, lines + [line])
  {
    Unfolded(lines, line);
    if IsBLine(line) {
      assert LastA(lines).Some?;
    }
  }

  lemma {:induction false} LoadTracks(lines: seq<string>)
    ensures Load(lines).Ok? ==> Tracks(Load(lines).value, lines)
  {
    if lines != [] {
      var init := lines[..|lines| - 1];
      LoadTracks(init);
      if Load(lines).Ok? {
        assert init + [lines[|lines| - 1]] == lines;
        StepTracks(Load(init).value, init, lines[|lines| - 1]);
      }
    }
  }

  /** An A line with a bold term makes it a child of the root, resets the
    * breadcrumb to it, and types it "A<n>" for the n-th such line. */
  lemma BoldLineRead(lines: seq<string>, line: string)
    requires Load(lines).Ok? && IsBoldLine(line)
    ensures var r := Load(lines + [line]); var t := BoldTerm(line).value;
            && r.Ok? && t in r.value.parents && r.value.parents[t] == Some(Root)
            && r.value.breadcrumb == [t] && t in r.value.terms && r.value.terms[t] == t
            && t in r.value.term2type
            && r.value.term2type[t] == "A" + NatToString(CountLines(lines + [line], IsBoldLine))
  {
    assert (lines + [line])[..|lines|] == lines;
    LoadTracks(lines);
  }

  /** A B line is read only after an A line (else IndexError); its term,
    * stripped of whitespace, is a child of the last A term whatever B
    * lines came between, and is typed "B<n>" for the n-th B line. */
  lemma BLineRead(lines: seq<string>, line: string)
    requires Load(lines).Ok? && IsBLine(line)
    ensures var r := Load(lines + [line]); var t := Strip(line[1..]);
            && (r.Ok? <==> LastA(lines).Some?)
            && (r.Err? ==> r.error == "IndexError")
            && (r.Ok? ==> && t in r.value.parents && r.value.parents[t] == Some(LastA(lines).value)
                          && t in r.value.term2type
                          && r.value.term2type[t] == "B" + NatToString(CountLines(lines + [line], IsBLine)))
  {
    assert (lines + [line])[..|lines|] == lines;
    LoadTracks(lines);
  }

  /** A C line must match the pattern (else AttributeError) and follow an
    * A line (else IndexError). Its id and its name are both children of
    * the innermost open term, the last B term since the last A term or
    * else that A term; the id is named by the name, typed "C" and
    * appended to the index. */
  lemma CLineRead(lines: seq<string>, line: string)
    requires Load(lines).Ok? && IsCLine(line)
    ensures CodeLine(line[1..]).None? ==> Load(lines + [line]) == Err("AttributeError")
    ensures CodeLine(line[1..]).Some? ==>
            var r := Load(lines + [line]); var (id, name) := CodeLine(line[1..]).value;
            var inner := if LastB(lines).Some? then LastB(lines) else LastA(lines);
            && (r.Ok? <==> LastA(lines).Some?)
            && (r.Err? ==> r.error == "IndexError")
            && (r.Ok? ==> && id in r.value.parents && r.value.parents[id] == inner
                          && name in r.value.parents && r.value.parents[name] == inner
                          && id in r.value.terms && r.value.terms[id] == name
                          && id in r.value.term2type && r.value.term2type[id] == "C"
                          && r.value.index2terms == Load(lines).value.index2terms + [id])
  {
    assert (lines + [line])[..|lines|] == lines;
    LoadTracks(lines);
  }

  // ------------------------------------------------------------------
  // The walk up to the root
  // ------------------------------------------------------------------

  /** An edge of the closure: (child, "is_a", parent). */
  type Edge = (string, string, string)

  /** The terms left and the edges followed on the way from `t` up to the
    * root. A term without a parent entry is a KeyError, as is a `None`
    * parent (the next lookup is of `None`). `fuel` bounds the number of
    * steps: a walk that needs more is reported as "Diverges". */
  function Walk(parents: map<string, Option<string>>, t: string, fuel: nat): Result<(set<string>, set<Edge>)>
    decreases fuel
  {
    if t == Root then Ok(({}, {}))
    else if t !in parents || parents[t].None? then Err("KeyError")
    else if fuel == 0 then Err("Diverges")
    else
      var p := parents[t].value;
      var rest :- Walk(parents, p, fuel - 1);
      Ok(({t} + rest.0, {(t, "is_a", p)} + rest.1))
  }

  /** A walk result with the terms `vs` and edges `es` of its first steps
    * added. */
  function Extend(r: Result<(set<string>, set<Edge>)>, vs: set<string>, es: set<Edge>): Result<(set<string>, set<Edge>)>
  {
    if r.Err? then r else Ok((vs + r.value.0, es + r.value.1))
  }

  /** `transitive_closure(ids)`: the given terms together with every term
    * on their ways to the root, and the edges followed. The walks use as
    * many steps as there are terms. */
  function Closure(parents: map<string, Option<string>>, ids: seq<string>): Result<(set<string>, set<Edge>)>
  {
    if ids == [] then Ok(({}, {}))
    else
      var done :- Closure(parents, ids[..|ids| - 1]);
      var walk :- Walk(parents, ids[|ids| - 1], |parents|);
      Ok((done.0 + {ids[|ids| - 1]} + walk.0, done.1 + walk.1))
  }

  lemma ExtendNothing(r: Result<(set<string>, set<Edge>)>)
    ensures Extend(r, {}, {}) == r
  {
    if r.Ok? {
      assert {} + r.value.0 == r.value.0;
      assert {} + r.value.1 == r.value.1;
    }
  }

  /** One step of a walk, moved into the terms and edges already taken. */
  lemma WalkStep(parents: map<string, Option<string>>, t: string, fuel: nat, vs: set<string>, es: set<Edge>)
    requires t != Root && t in parents && parents[t].Some? && fuel > 0
    ensures Extend(Walk(parents, t, fuel), vs, es) ==
            Extend(Walk(parents, parents[t].value, fuel - 1), vs + {t}, es + {(t, "is_a", parents[t].value)})
  {
    var rest := Walk(parents, parents[t].value, fuel - 1);
    if rest.Ok? {
      assert vs + ({t} + rest.value.0) == vs + {t} + rest.value.0;
      assert es + ({(t, "is_a", parents[t].value)} + rest.value.1) == es + {(t, "is_a", parents[t].value)} + rest.value.1;
    }
  }

  /** The visited terms of a walk are its start (unless it is the root) and
    * terms whose edge to their parent was followed; each edge links a
    * visited term to its parent, which is visited or the root. */
  lemma {:induction false} WalkShape(parents: map<string, Option<string>>, t: string, fuel: nat)
    requires Walk(parents, t, fuel).Ok?
    ensures var (v, e) := Walk(parents, t, fuel).value;
            && (t == Root || t in v)
            && (forall c :: c in v ==> c != Root && c in parents && parents[c].Some?
                                       && (c, "is_a", parents[c].value) in e)
            && (forall x :: x in e ==> && x.1 == "is_a" && x.0 in v && x.0 in parents
                                       && parents[x.0] == Some(x.2) && (x.2 in v || x.2 == Root))
    decreases fuel
  {
    if t != Root {
      WalkShape(parents, parents[t].value, fuel - 1);
    }
  }

  /** A walk from a term fails only by running out of steps when every term
    * but the root has a known parent. */
  lemma {:induction false} WalkOfTerm(parents: map<string, Option<string>>, t: string, fuel: nat)
    requires ParentsClosed(parents) && (t in parents || t == Root)
    ensures Walk(parents, t, fuel).Err? ==> Walk(parents, t, fuel).error == "Diverges"
    decreases fuel
  {
    if t != Root && fuel > 0 {
      WalkOfTerm(parents, parents[t].value, fuel - 1);
    }
  }

  /** The closure contains the given terms; every visited term but the
    * root has its edge to its parent; the edges are exactly those, so
    * each leads from a visited term to a visited term or the root. */
  lemma {:induction false} ClosureShape(parents: map<string, Option<string>>, ids: seq<string>)
    requires Closure(parents, ids).Ok?
    ensures var (v, e) := Closure(parents, ids).value;
            && (forall k :: 0 <= k < |ids| ==> ids[k] in v)
            && (Root in v ==> Root in ids)
            && (forall c :: c in v && c != Root ==> c in parents && parents[c].Some?
                                                    && (c, "is_a", parents[c].value) in e)
            && (forall x :: x in e ==> && x.1 == "is_a" && x.0 in v && x.0 in parents
                                       && parents[x.0] == Some(x.2) && (x.2 in v || x.2 == Root))
  {
    if ids != [] {
      ClosureShape(parents, ids[..|ids| - 1]);
      WalkShape(parents, ids[|ids| - 1], |parents|);
      var (v, e) := Closure(parents, ids).value;
      if Root in v && Root != ids[|ids| - 1] {
        assert Root in ids[..|ids| - 1];
      }
      forall k | 0 <= k < |ids| ensures ids[k] in v {
        if k < |ids| - 1 {
          assert ids[k] == ids[..|ids| - 1][k];
        }
      }
    }
  }

  /** Starting from terms only, the closure fails only by running out of
    * steps when every term but the root has a known parent. */
  lemma {:induction false} ClosureOfTerms(parents: map<string, Option<string>>, ids: seq<string>)
    requires ParentsClosed(parents) && forall k :: 0 <= k < |ids| ==> ids[k] in parents
    ensures Closure(parents, ids).Err? ==> Closure(parents, ids).error == "Diverges"
  {
    if ids != [] {
      ClosureOfTerms(parents, ids[..|ids| - 1]);
      WalkOfTerm(parents, ids[|ids| - 1], |parents|);
    }
  }

  /** Once the walks of a prefix of the terms fail, the closure fails the
    * same way. */
  lemma {:induction false} ClosureErrorPersists(parents: map<string, Option<string>>, ids: seq<string>, k: nat)
    requires k <= |ids| && Closure(parents, ids[..k]).Err?
    ensures Closure(parents, ids) == Closure(parents, ids[..k])
    decreases |ids| - k
  {
    if k < |ids| {
      assert ids[..k + 1][..k] == ids[..k];
      ClosureErrorPersists(parents, ids, k + 1);
    } else {
      assert ids[..k] == ids;
    }
  }

  // ------------------------------------------------------------------
  // The ontology object
  // ------------------------------------------------------------------

  /** A term as `get_term` builds it: the attributes it gives the KEGG
    * term. */
  datatype KeggTerm = KeggTerm(termId: string, namespace: string, name: string, termType: string,
                               orgPrefix: Option<string>,
                               pathLevelUrlFmt: Option<string>, objLevelUrlFmt: Option<string>)

  /** `KEGGTerm.format_id()` without HTML: a pathway (type C) shows the
    * organism prefix and its number, which fails when there is no prefix
    * (`'KEGG:' + None`); a higher level term shows its type, which holds its
    * level and index. */
  function FormatId(t: KeggTerm): (r: Result<string>)
    ensures r.Err? <==> t.termType == "C" && t.orgPrefix.None?
    ensures r.Ok? && t.termType == "C" ==> r.value == "KEGG:" + t.orgPrefix.value + t.termId
    ensures r.Ok? && t.termType != "C" ==> r.value == "KEGG:" + t.termType
  {
    if t.termType == "C" then
      if t.orgPrefix.None? then Err("TypeError") else Ok("KEGG:" + t.orgPrefix.value + t.termId)
    else Ok("KEGG:" + t.termType)
  }

  /** The KEGG ontology: the tables read from a brite file. */
  class KeggOntology {
    var orgPrefix: Option<string>
    var namespace: Option<string>
    var index2terms: seq<string>
    var term2type: map<string, string>
    var terms: map<string, string>
    var term2parent: map<string, Option<string>>
    var objLevelUrlFmt: Option<string>
    var pathLevelUrlFmt: Option<string>
    var term2index: map<string, nat>

    /** The tables hang together and `term2index` inverts the index. */
    ghost predicate Valid()
      reads this
    {
      && ConsistentTables(term2parent, index2terms, terms, term2type)
      && term2index == Enumerated(index2terms)
    }

    /** The fields as the constructor sets them before reading the file. */
    constructor Empty(orgPrefix: Option<string>)
      ensures this.orgPrefix == orgPrefix && namespace == None
      ensures index2terms == [] && term2type == map[] && terms == map[]
    {
      this.orgPrefix := orgPrefix;
      namespace := None;
      index2terms, term2type, terms := [], map[], map[];
      term2parent, term2index := map[], map[];
      objLevelUrlFmt, pathLevelUrlFmt := None, None;
    }

    /** The rest of the constructor once the file is read: stores the
      * parent dictionary and the URL formats, and inverts the index. */
    method FinishInit(parents: map<string, Option<string>>,
                      objLevelUrlFmt: Option<string>, pathLevelUrlFmt: Option<string>)
      requires ConsistentTables(parents, index2terms, terms, term2type)
      modifies this`term2parent, this`objLevelUrlFmt, this`pathLevelUrlFmt, this`term2index
      ensures Valid()
      ensures term2parent == parents && term2index == Enumerated(index2terms)
      ensures this.objLevelUrlFmt == objLevelUrlFmt && this.pathLevelUrlFmt == pathLevelUrlFmt
    {
      term2parent, this.objLevelUrlFmt, this.pathLevelUrlFmt, term2index :=
        parents, objLevelUrlFmt, pathLevelUrlFmt, Enumerated(index2terms);
    }

    /** `_load_brite`: reads the lines into the index, name and type
      * tables of the ontology and returns the parent dictionary, as the
      * reader `Load` does. */
    method LoadBrite(lines: seq<string>) returns (r: Result<map<string, Option<string>>>)
      requires index2terms == [] && terms == map[] && term2type == map[]
      modifies this`index2terms, this`terms, this`term2type
      ensures r == if Load(lines).Ok? then Ok(Load(lines).value.parents) else Err(Load(lines).error)
      ensures r.Ok? ==> && index2terms == Load(lines).value.index2terms
                        && terms == Load(lines).value.terms
                        && term2type == Load(lines).value.term2type
    {
      var parents: map<string, Option<string>> := map[Root := None];
      var breadcrumb: seq<string> := [];
      var aCt: nat := 1;
      var bCt: nat := 1;
      for k := 0 to |lines|
        invariant Load(lines[..k]) == Ok(Brite(parents, breadcrumb, aCt, bCt, index2terms, terms, term2type))
      {
        ghost var b := Brite(parents, breadcrumb, aCt, bCt, index2terms, terms, term2type);
        var line := lines[k];
        assert Load(lines[..k + 1]) == Step(b, line) by {
          assert lines[..k + 1][..k] == lines[..k];
        }
        if line == [] {
          ErrorPersists(lines, k + 1);
          return Err("IndexError");
        }
        if line[0] == '#' {
          continue;
        } else if line[0] == 'A' {
          var found := BoldTerm(line);
          if found.Some? {
            var term := found.value;
            parents := parents[term := Some(Root)];
            breadcrumb := [term];
            terms, term2type := terms[term := term], term2type[term := "A" + NatToString(aCt)];
            aCt := aCt + 1;
          }
        } else if line[0] == 'B' {
          if |breadcrumb| > 1 {
            breadcrumb := breadcrumb[1..];
          }
          var term := Strip(line[1..]);
          if breadcrumb == [] {
            ErrorPersists(lines, k + 1);
            return Err("IndexError");
          }
          parents := parents[term := Some(breadcrumb[0])];
          breadcrumb := [term] + breadcrumb;
          terms, term2type := terms[term := term], term2type[term := "B" + NatToString(bCt)];
          bCt := bCt + 1;
        } else if line[0] == 'C' {
          var found := CodeLine(line[1..]);
          if found.None? {
            ErrorPersists(lines, k + 1);
            return Err("AttributeError");
          }
          var (id, name) := found.value;
          index2terms := index2terms + [id];
          if breadcrumb == [] {
            ErrorPersists(lines, k + 1);
            return Err("IndexError");
          }
          parents := parents[id := Some(breadcrumb[0])][name := Some(breadcrumb[0])];
          terms, term2type := terms[id := name], term2type[id := "C"];
        }
      }
      assert lines[..|lines|] == lines;
      return Ok(parents);
    }

    /** The inner loop of `transitive_closure`: follows the parents from
      * `start` up to the root, collecting the terms left and the edges
      * followed; the result is `Walk`. The loop gives up after as many
      * steps as there are terms. */
    method WalkUp(start: string) returns (r: Result<(set<string>, set<Edge>)>)
      ensures r == Walk(term2parent, start, |term2parent|)
    {
      var parents := term2parent;
      var visited: set<string>, edges: set<Edge> := {}, {};
      var current := start;
      var fuel: nat := |parents|;
      ExtendNothing(Walk(parents, current, fuel));
      while current != Root
        invariant Walk(parents, start, |parents|) == Extend(Walk(parents, current, fuel), visited, edges)
        decreases fuel
      {
        if current !in parents || parents[current].None? {
          return Err("KeyError");
        }
        if fuel == 0 {
          return Err("Diverges");
        }
        var next := parents[current].value;
        WalkStep(parents, current, fuel, visited, edges);
        edges := edges + {(current, "is_a", next)};
        visited := visited + {current};
        current := next;
        fuel := fuel - 1;
      }
      return Ok((visited, edges));
    }

    /** `transitive_closure`: the given terms, and every term and edge on
      * their walks up to the root; the result is `Closure`. */
    method TransitiveClosure(ids: seq<string>) returns (r: Result<(set<string>, set<Edge>)>)
      ensures r == Closure(term2parent, ids)
    {
      var edges: set<Edge> := {};
      var visited: set<string> := set t | t in ids;
      for i := 0 to |ids|
        invariant Closure(term2parent, ids[..i]).Ok?
        invariant visited == (set t | t in ids) + Closure(term2parent, ids[..i]).value.0
        invariant edges == Closure(term2parent, ids[..i]).value.1
      {
        assert ids[..i + 1][..i] == ids[..i];
        var walk := WalkUp(ids[i]);
        if walk.Err? {
          ClosureErrorPersists(term2parent, ids, i + 1);
          return Err(walk.error);
        }
        visited := visited + walk.value.0;
        edges := edges + walk.value.1;
      }
      assert ids[..|ids|] == ids;
      ClosureShape(term2parent, ids);
      assert visited == Closure(term2parent, ids).value.0 by {
        forall t | t in ids ensures t in Closure(term2parent, ids).value.0 {
          var k :| 0 <= k < |ids| && ids[k] == t;
        }
      }
      return Ok((visited, edges));
    }

    /** `get_term`: the term named by exactly one of an id and a position
      * in the index (negative positions count from the end). */
    function GetTerm(termId: Option<string>, termIndex: Option<int>): (r: Result<KeggTerm>)
      reads this
      ensures r == Err("AssertionError") <==> termId.Some? == termIndex.Some?
      ensures r.Err? ==> r.error in {"AssertionError", "IndexError", "KeyError"}
      ensures termIndex.Some? && PyIndex(termIndex.value, |index2terms|).None? && termId.None? ==>
                r == Err("IndexError")
      ensures r.Ok? ==> && r.value.termId in terms && r.value.name == terms[r.value.termId]
                        && r.value.termId in term2type && r.value.termType == term2type[r.value.termId]
                        && r.value.namespace == "KEGG Pathways" && r.value.orgPrefix == orgPrefix
                        && r.value.pathLevelUrlFmt == pathLevelUrlFmt
                        && r.value.objLevelUrlFmt == objLevelUrlFmt
      ensures r.Ok? && termId.Some? ==> r.value.termId == termId.value
      ensures r.Ok? && termIndex.Some? ==>
                PyIndex(termIndex.value, |index2terms|).Some? &&
                r.value.termId == index2terms[PyIndex(termIndex.value, |index2terms|).value]
    {
      if termId.Some? == termIndex.Some? then Err("AssertionError")
      else
        var id :-
          if termId.Some? then Ok(termId.value)
          else match PyIndex(termIndex.value, |index2terms|)
            case None => Err("IndexError")
            case Some(k) => Ok(index2terms[k]);
        if id !in terms || id !in term2type then Err("KeyError")
        else Ok(KeggTerm(id, "KEGG Pathways", terms[id], term2type[id], orgPrefix, pathLevelUrlFmt, objLevelUrlFmt))
    }

    /** A position in the index selects the term the id at that position
      * selects, and a term of the ontology is found by its id. */
    lemma TermByIndex(i: int)
      requires Valid() && PyIndex(i, |index2terms|).Some?
      ensures GetTerm(None, Some(i)).Ok?
      ensures GetTerm(None, Some(i)) == GetTerm(Some(index2terms[PyIndex(i, |index2terms|).value]), None)
    {
    }

    /** `term2index` inverts the index: the position it records for a term
      * selects that term. */
    lemma TermIndexInverts(t: string)
      requires Valid()
      ensures t in term2index <==> t in index2terms
      ensures t in term2index ==> GetTerm(None, Some(term2index[t] as int)) == GetTerm(Some(t), None)
      ensures t in term2index ==> GetTerm(Some(t), None).Ok?
    {
    }

    /** The walk from terms of a valid ontology fails only by running out
      * of steps (which Python would spend looping forever). */
    lemma ClosureOfKnownTerms(ids: seq<string>)
      requires Valid() && forall k :: 0 <= k < |ids| ==> ids[k] in term2parent
      ensures Closure(term2parent, ids).Err? ==> Closure(term2parent, ids).error == "Diverges"
    {
      ClosureOfTerms(term2parent, ids);
    }
  }

  /** `KEGGOntology(kegg_brite, ...)`: reads the file and inverts the
    * index; the object holds what `Load` read, and is valid. */
  method NewKeggOntology(lines: seq<string>, objLevelUrlFmt: Option<string>,
                         pathLevelUrlFmt: Option<string>, orgPrefix: Option<string>)
      returns (r: Result<KeggOntology>)
    ensures r.Err? ==> Load(lines) == Err(r.error)
    ensures r.Ok? ==> && Load(lines).Ok? && fresh(r.value) && r.value.Valid()
                      && var b := Load(lines).value;
                      && (r.value.term2parent, r.value.index2terms, r.value.terms, r.value.term2type)
                         == (b.parents, b.index2terms, b.terms, b.term2type)
                      && (r.value.orgPrefix, r.value.namespace, r.value.objLevelUrlFmt, r.value.pathLevelUrlFmt)
                         == (orgPrefix, None, objLevelUrlFmt, pathLevelUrlFmt)
  {
    var o := new KeggOntology.Empty(orgPrefix);
    var parents := o.LoadBrite(lines);
    if parents.Err? {
      return Err(parents.error);
    }
    LoadConsistent(lines);
    o.FinishInit(parents.value, objLevelUrlFmt, pathLevelUrlFmt);
    return Ok(o);
  }
}
