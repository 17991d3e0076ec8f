/** The picture of the enriched part of an ontology that SaddleSum draws
  * (web/SaddleSum/svgoutput.py): the roots of the term graph joined under
  * one node 'ALL', the colour scale of the E-value levels, the attribute
  * dictionaries of terms and relations, and the DOT graph handed to the
  * `dot` program. */
module SvgOutput {
  import opened Wrappers
  import opened Text
  import Render
  import Indexing

  /** One relation of the term graph, `[term_id1, rel, term_id2]`: the
    * child term, the relation type and the parent term. */
  datatype Link = Link(child: string, rel: string, parent: string)

  type Edge = (string, string)

  type Attrs = Render.Attrs

  /** A Brewer colour as its red, green and blue parts. */
  type Rgb = (int, int, int)

  // ------------------------------------------------------------------
  // The roots of the term graph
  // ------------------------------------------------------------------

  /** The terms with an outgoing relation. */
  function Sources(edges: seq<Link>): set<string>
  {
    set e | e in edges :: e.child
  }

  /** The terms some relation points to. */
  function Targets(edges: seq<Link>): set<string>
  {
    set e | e in edges :: e.parent
  }

  /** The roots: terms that relations point to and that have no outgoing
    * relation of their own. */
  function Roots(edges: seq<Link>): set<string>
  {
    Targets(edges) - Sources(edges)
  }

  /** The dictionary `has_outgoing_edges` after the loop over `edges`
    * (web/SaddleSum/svgoutput.py:43-47): a child is entered as False,
    * a parent not yet present as True. It holds every term, and True
    * marks exactly the roots, whatever order the relations come in. */
  function Flags(edges: seq<Link>): (m: map<string, bool>)
    ensures forall v :: v in m <==> v in Sources(edges) || v in Targets(edges)
    ensures forall v :: v in m ==> (m[v] <==> v in Roots(edges))
  {
    if edges == [] then map[]
    else
      var init := edges[..|edges| - 1];
      var e := edges[|edges| - 1];
      LinksSnoc(init, e);
      assert edges == init + [e];
      var m := Flags(init)[e.child := false];
      if e.parent in m then m else m[e.parent := true]
  }

  /** One more relation adds its child to the sources and its parent to
    * the targets. */
  lemma LinksSnoc(init: seq<Link>, e: Link)
    ensures Sources(init + [e]) == Sources(init) + {e.child}
    ensures Targets(init + [e]) == Targets(init) + {e.parent}
  {
    assert forall x :: x in init + [e] <==> x in init || x == e;
  }

  /** The relations `_find_roots` appends: each root `is_a` 'ALL'. */
  function ToAll(roots: seq<string>): (links: seq<Link>)
    ensures |links| == |roots|
    ensures forall k :: 0 <= k < |roots| ==> links[k] == Link(roots[k], "is_a", "ALL")
  {
    seq(|roots|, k requires 0 <= k < |roots| => Link(roots[k], "is_a", "ALL"))
  }

  lemma ToAllSnoc(roots: seq<string>, k: nat)
    requires k < |roots|
    ensures ToAll(roots[..k + 1]) == ToAll(roots[..k]) + [Link(roots[k], "is_a", "ALL")]
  {
  }

  /** `added` holds one relation `root is_a ALL` for every root, each
    * root once. */
  predicate RootLinks(roots: set<string>, added: seq<Link>)
  {
    && |added| == |roots|
    && (forall k :: 0 <= k < |added| ==> added[k].rel == "is_a" && added[k].parent == "ALL" && added[k].child in roots)
    && (forall j, k :: 0 <= j < k < |added| ==> added[j].child != added[k].child)
    && (forall v :: v in roots ==> exists k :: 0 <= k < |added| && added[k].child == v)
  }

  /** The roots of `edges` as the dictionary iterates them
    * (web/SaddleSum/svgoutput.py:43-49): the loop fills
    * `has_outgoing_edges`, and the comprehension keeps the terms marked
    * True, each once, in an order the dictionary decides. */
  method RootList(edges: seq<Link>) returns (roots: seq<string>)
    ensures Indexing.Distinct(roots) && |roots| == |Roots(edges)|
    ensures forall x :: x in roots <==> x in Roots(edges)
  {
    var has: map<string, bool> := map[];
    for n := 0 to |edges|
      invariant has == Flags(edges[..n])
    {
      var e := edges[n];
      assert edges[..n + 1][..n] == edges[..n];
      has := has[e.child := false];
      if e.parent !in has {
        has := has[e.parent := true];
      }
    }
    assert edges[..|edges|] == edges;
    var marked := set v | v in has && has[v];
    assert marked == Roots(edges);
    roots := Indexing.Arrange(marked);
  }

  /** `_find_roots(edges)` (web/SaddleSum/svgoutput.py:42-54): with more
    * than one root, every root gets a relation `is_a` 'ALL', in the order
    * the dictionary iterates them, and the answer is True; otherwise the
    * list is left alone and the answer is False. The caller's list is
    * extended in place; here the extended list is returned. */
  method FindRoots(edges: seq<Link>) returns (edges': seq<Link>, added: bool)
    ensures added <==> |Roots(edges)| > 1
    ensures !added ==> edges' == edges
    ensures added ==> |edges'| >= |edges| && edges'[..|edges|] == edges && RootLinks(Roots(edges), edges'[|edges|..])
  {
    var roots := RootList(edges);
    edges', added := edges, false;
    if |roots| > 1 {
      for k := 0 to |roots|
        invariant edges' == edges + ToAll(roots[..k])
      {
        ToAllSnoc(roots, k);
        edges' := edges' + [Link(roots[k], "is_a", "ALL")];
      }
      assert roots[..|roots|] == roots;
      assert edges'[|edges|..] == ToAll(roots);
      ArrangedLinks(Roots(edges), roots);
      added := true;
    }
  }

  /** `ToAll` of an arrangement of the roots links each root once. */
  lemma ArrangedLinks(rs: set<string>, roots: seq<string>)
    requires Indexing.Distinct(roots) && |roots| == |rs|
    requires forall x :: x in roots <==> x in rs
    ensures RootLinks(rs, ToAll(roots))
  {
    var added := ToAll(roots);
    forall v | v in rs
      ensures exists k :: 0 <= k < |added| && added[k].child == v
    {
      var i :| 0 <= i < |roots| && roots[i] == v;
      assert added[i].child == v;
    }
  }

  /** The sources and targets of two lists of relations together. */
  lemma LinksAppend(a: seq<Link>, b: seq<Link>)
    ensures Sources(a + b) == Sources(a) + Sources(b)
    ensures Targets(a + b) == Targets(a) + Targets(b)
  {
    assert forall x :: x in a + b <==> x in a || x in b;
  }

  /** The appended relations start at the roots and end at 'ALL'. */
  lemma AddedLinks(roots: set<string>, added: seq<Link>)
    requires RootLinks(roots, added) && |roots| > 0
    ensures Sources(added) == roots
    ensures Targets(added) == {"ALL"}
  {
    forall v | v in Sources(added)
      ensures v in roots
    {
      var e :| e in added && e.child == v;
      var i :| 0 <= i < |added| && added[i] == e;
    }
    forall v | v in roots
      ensures v in Sources(added)
    {
      var k :| 0 <= k < |added| && added[k].child == v;
      assert added[k] in added;
    }
    forall v | v in Targets(added)
      ensures v == "ALL"
    {
      var e :| e in added && e.parent == v;
      var i :| 0 <= i < |added| && added[i] == e;
    }
    var r :| r in roots;
    assert added[0] in added;
  }

  /** After the roots are joined, 'ALL' is the only root, provided no term
    * is already called 'ALL' (web/SaddleSum/svgoutput.py:98-101). */
  lemma {:induction false} JoinedSingleRoot(edges: seq<Link>, added: seq<Link>)
    requires RootLinks(Roots(edges), added) && |Roots(edges)| > 1
    requires "ALL" !in Sources(edges) && "ALL" !in Targets(edges)
    ensures Roots(edges + added) == {"ALL"}
  {
    LinksAppend(edges, added);
    AddedLinks(Roots(edges), added);
  }

  // ------------------------------------------------------------------
  // The colour scale
  // ------------------------------------------------------------------

  /** `int(item[2])` for one row of the term table: a row of fewer than
    * three fields is IndexError, a level that is not an integer
    * ValueError. */
  function Level(row: seq<string>): (r: Result<int>)
    ensures r.Ok? <==> |row| >= 3 && ParseInt(row[2]).Some?
    ensures r.Ok? ==> r.value == ParseInt(row[2]).value
  {
    if |row| < 3 then Err("IndexError")
    else match ParseInt(row[2])
      case None => Err("ValueError")
      case Some(v) => Ok(v)
  }

  /** The levels of all rows, in order; the first row that fails decides
    * the error, as the generator inside `min` meets it. */
  function Levels(props: seq<seq<string>>): (r: Result<seq<int>>)
    ensures r.Ok? ==> |r.value| == |props| && forall k :: 0 <= k < |props| ==> Level(props[k]) == Ok(r.value[k])
    ensures r.Err? ==> exists k :: 0 <= k < |props| && Level(props[k]) == Err(r.error)
  {
    Collect(seq(|props|, k requires 0 <= k < |props| => Level(props[k])))
  }

  /** The smallest positive level, if any. */
  function MinPositive(levels: seq<int>): (b: Option<int>)
    ensures b.Some? <==> exists k :: 0 <= k < |levels| && levels[k] > 0
    ensures b.Some? ==> b.value > 0 && b.value in levels
    ensures b.Some? ==> forall k :: 0 <= k < |levels| && levels[k] > 0 ==> b.value <= levels[k]
  {
    if levels == [] then None
    else
      var init := levels[..|levels| - 1];
      var l := levels[|levels| - 1];
      assert levels == init + [l];
      var b := MinPositive(init);
      if l <= 0 then b
      else if b.Some? && b.value <= l then b
      else Some(l)
  }

  /** `base_val`, the smallest positive level of the term table; `min` of
    * nothing is ValueError (web/SaddleSum/svgoutput.py:104). */
  function Base(props: seq<seq<string>>): (r: Result<int>)
    ensures r.Ok? ==> Levels(props).Ok? && r.value > 0
    ensures r.Ok? ==> forall k :: 0 <= k < |props| && Levels(props).value[k] > 0 ==> r.value <= Levels(props).value[k]
    ensures r.Ok? ==> exists k :: 0 <= k < |props| && Levels(props).value[k] == r.value
    ensures Levels(props).Ok? ==> (r.Err? <==> forall k :: 0 <= k < |props| ==> Levels(props).value[k] <= 0)
    ensures Levels(props).Err? ==> r == Err(Levels(props).error)
  {
    var levels :- Levels(props);
    match MinPositive(levels)
    case None => Err("ValueError")
    case Some(b) => Ok(b)
  }

  /** `bins`: the seven powers 10^-m for m from `base` on
    * (web/SaddleSum/svgoutput.py:105). They start at 10^-base and each is
    * a tenth of the one before. */
  function Bins(base: nat): (bins: seq<real>)
    ensures |bins| == 7
    ensures bins[0] * Pow10(base) as real == 1.0
    ensures forall k :: 0 <= k < 6 ==> bins[k] == 10.0 * bins[k + 1]
    ensures forall k :: 0 <= k < 7 ==> bins[k] > 0.0
  {
    var bins := seq(7, k requires 0 <= k < 7 => 1.0 / Pow10(base + k) as real);
    forall k | 0 <= k < 6
      ensures bins[k] == 10.0 * bins[k + 1]
    {
      assert Pow10(base + k + 1) == 10 * Pow10(base + k);
      TenthOf(Pow10(base + k) as real);
    }
    forall k | 0 <= k < 7
      ensures bins[k] > 0.0
    {
      Reciprocal(Pow10(base + k) as real);
    }
    Reciprocal(Pow10(base) as real);
    bins
  }

  lemma TenthOf(p: real)
    requires p > 0.0
    ensures 1.0 / p == 10.0 * (1.0 / (10.0 * p))
  {
  }

  lemma Reciprocal(p: real)
    requires p > 0.0
    ensures 1.0 / p * p == 1.0 && 1.0 / p > 0.0
  {
  }

  /** The fill colour index of a term (web/SaddleSum/svgoutput.py:111-113):
    * its level above the base, shifted by two and kept within the eight
    * colours of the scheme. */
  function FillIndex(level: int, base: int): (v: int)
    ensures 1 <= v <= 8
  {
    var v := level - base + 2;
    var v := if v > 8 then 8 else v;
    if v < 1 then 1 else v
  }

  /** A fill index above five is dark: its font is white
    * (web/SaddleSum/svgoutput.py:114). */
  function FontColor(v: int): (c: string)
    ensures c == "white" || c == "black"
  {
    if v > 5 then "white" else "black"
  }

  /** A higher level never gets a lighter colour. */
  lemma FillMonotone(level: int, level': int, base: int)
    requires level <= level'
    ensures FillIndex(level, base) <= FillIndex(level', base)
  {
  }

  /** Within the range of the scale, neighbouring levels get neighbouring
    * colours; outside it they share the end colour. */
  lemma FillSteps(level: int, base: int)
    ensures base - 1 <= level <= base + 5 ==> FillIndex(level, base) == level - base + 2
    ensures level < base - 1 ==> FillIndex(level, base) == 1
    ensures level > base + 5 ==> FillIndex(level, base) == 8
  {
  }

  /** With the base the smallest positive level of the table, a term's
    * colour is the lightest one only below the base, so every term with
    * a positive level is coloured from the second colour on. */
  lemma {:induction false} FillMarksPositive(props: seq<seq<string>>, k: nat)
    requires Base(props).Ok? && k < |props|
    ensures Levels(props).value[k] > 0 <==> FillIndex(Levels(props).value[k], Base(props).value) >= 2
  {
    var level := Levels(props).value[k];
    var base := Base(props).value;
    if level > 0 {
      assert base <= level;
    } else {
      assert level < base;
    }
  }

  /** The font is white exactly for the terms at least four levels above
    * the base. */
  lemma WhiteFont(level: int, base: int)
    ensures FontColor(FillIndex(level, base)) == "white" <==> level >= base + 4
  {
  }

  // ------------------------------------------------------------------
  // Attribute dictionaries
  // ------------------------------------------------------------------

  /** A dictionary filled by assigning `pairs` in order. */
  function LastWins<K, V>(pairs: seq<(K, V)>): map<K, V>
  {
    if pairs == [] then map[] else LastWins(pairs[..|pairs| - 1])[pairs[|pairs| - 1].0 := pairs[|pairs| - 1].1]
  }

  /** The dictionary holds exactly the keys assigned. */
  lemma {:induction false} LastWinsKeys<K, V>(pairs: seq<(K, V)>, x: K)
    ensures x in LastWins(pairs) <==> exists i :: 0 <= i < |pairs| && pairs[i].0 == x
  {
    if pairs != [] {
      var init := pairs[..|pairs| - 1];
      LastWinsKeys(init, x);
      if exists i :: 0 <= i < |init| && init[i].0 == x {
        var i :| 0 <= i < |init| && init[i].0 == x;
        assert pairs[i].0 == x;
      }
      if exists i :: 0 <= i < |pairs| && pairs[i].0 == x {
        var i :| 0 <= i < |pairs| && pairs[i].0 == x;
        if i < |init| {
          assert init[i].0 == x;
        }
      }
    }
  }

  /** A later assignment to a key overwrites an earlier one: the value
    * is that of the last assignment. */
  lemma {:induction false} LastWinsValue<K, V>(pairs: seq<(K, V)>, i: nat)
    requires i < |pairs| && forall j :: i < j < |pairs| ==> pairs[j].0 != pairs[i].0
    ensures pairs[i].0 in LastWins(pairs) && LastWins(pairs)[pairs[i].0] == pairs[i].1
  {
    var init := pairs[..|pairs| - 1];
    if i < |init| {
      LastWinsValue(init, i);
      assert pairs[|pairs| - 1].0 != pairs[i].0;
    }
  }

  /** Every term of the table has an attribute dictionary, and it is the
    * one of the term's last row: a repeated identifier keeps the
    * attributes of its last occurrence (web/SaddleSum/svgoutput.py:119-121). */
  lemma {:induction false} LastRowStyles(props: seq<seq<string>>, levels: seq<int>, base: int, wrap: string -> seq<string>, k: nat)
    requires |levels| == |props| && Unpackable(props) && k < |props|
    requires forall j :: k < j < |props| ==> props[j][0] != props[k][0]
    ensures props[k][0] in LastWins(Styled(props, levels, base, wrap))
    ensures LastWins(Styled(props, levels, base, wrap))[props[k][0]] == NodeAttrs(props[k], levels[k], base, wrap)
  {
    LastWinsValue(Styled(props, levels, base, wrap), k);
  }

  /** The colour of each relation type that has one
    * (web/SaddleSum/svgoutput.py:35-39). */
  function RelColor(rel: string): (c: Option<string>)
    ensures c.Some? <==> rel in {"is_a", "part_of", "regulates", "negatively_regulates", "positively_regulates"}
  {
    if rel == "is_a" then Some("black")
    else if rel == "part_of" then Some("blue")
    else if rel == "regulates" then Some("gold1")
    else if rel == "negatively_regulates" then Some("orangered1")
    else if rel == "positively_regulates" then Some("green2")
    else None
  }

  /** The edge a relation is drawn as. */
  function EdgeOf(l: Link): Edge
  {
    (l.child, l.parent)
  }

  /** Whether the relation at position k is drawn as edge e and has a
    * coloured type. */
  predicate ColouredAt(edges: seq<Link>, k: int, e: Edge)
  {
    0 <= k < |edges| && EdgeOf(edges[k]) == e && RelColor(edges[k].rel).Some?
  }

  /** `edges_attr` after the loop over the relations
    * (web/SaddleSum/svgoutput.py:124-129): each relation of a coloured
    * type sets its edge's colour, a later one overwriting an earlier. */
  function EdgeColours(edges: seq<Link>): map<Edge, Attrs>
  {
    if edges == [] then map[]
    else
      var m := EdgeColours(edges[..|edges| - 1]);
      var l := edges[|edges| - 1];
      match RelColor(l.rel)
      case None => m
      case Some(c) => m[EdgeOf(l) := [("color", c)]]
  }

  /** An edge has a colour attribute exactly when one of the relations
    * drawn as that edge has a coloured type. */
  lemma {:induction false} ColouredOnlyKnown(edges: seq<Link>, e: Edge)
    ensures e in EdgeColours(edges) <==> exists k :: ColouredAt(edges, k, e)
  {
    if edges != [] {
      var init := edges[..|edges| - 1];
      ColouredOnlyKnown(init, e);
      if ColouredAt(edges, |init|, e) {
        assert exists k :: ColouredAt(edges, k, e);
      }
      if exists k :: ColouredAt(init, k, e) {
        var k :| ColouredAt(init, k, e);
        assert ColouredAt(edges, k, e);
      }
      if exists k :: ColouredAt(edges, k, e) {
        var k :| ColouredAt(edges, k, e);
        if k < |init| {
          assert ColouredAt(init, k, e);
        }
      }
    }
  }

  /** The colour of an edge is that of the last relation of a coloured
    * type drawn as it. */
  lemma {:induction false} LastColourWins(edges: seq<Link>, k: nat)
    requires k < |edges| && RelColor(edges[k].rel).Some?
    requires forall j :: k < j < |edges| ==> !ColouredAt(edges, j, EdgeOf(edges[k]))
    ensures EdgeOf(edges[k]) in EdgeColours(edges)
    ensures EdgeColours(edges)[EdgeOf(edges[k])] == [("color", RelColor(edges[k].rel).value)]
  {
    var init := edges[..|edges| - 1];
    if k < |init| {
      forall j | k < j < |init|
        ensures !ColouredAt(init, j, EdgeOf(init[k]))
      {
        assert !ColouredAt(edges, j, EdgeOf(edges[k]));
      }
      LastColourWins(init, k);
      assert !ColouredAt(edges, |init|, EdgeOf(edges[k]));
    }
  }

  /** The label of a term (web/SaddleSum/svgoutput.py:65-68,115-118): a
    * two-row table linking to the term's page, with the wrapped name
    * above the identifier in small type. */
  function Label(termId: string, name: string, url: string, wrapped: seq<string>): string
  {
    "<<table border=\"0\" href=\"" + url + "\" target=\"_blank\" title=\"" + name + "\">"
      + "<tr><td>" + Joined(wrapped, "<br/>") + "</td></tr>"
      + "<tr><td><font point-size=\"8.0\">" + termId + "</font></td></tr>"
      + "</table>>"
  }

  /** The attribute dictionary of one term (web/SaddleSum/svgoutput.py:
    * 109-121); `wrap` is the 24-column text wrapper. */
  function NodeAttrs(row: seq<string>, level: int, base: int, wrap: string -> seq<string>): (a: Attrs)
    requires |row| >= 4
    ensures |a| == 3 && a[0].0 == "label" && a[1].0 == "fillcolor" && a[2].0 == "fontcolor"
    ensures a[1].1 == "\"" + IntToString(FillIndex(level, base)) + "\""
    ensures a[2].1 == FontColor(FillIndex(level, base))
  {
    var v := FillIndex(level, base);
    [("label", Label(row[0], row[1], row[3], wrap(row[1]))),
     ("fillcolor", "\"" + IntToString(v) + "\""),
     ("fontcolor", FontColor(v))]
  }

  /** The assignments `nodes_attr[term_id] = ...` of the loop over the
    * term table, in order. */
  function Styled(props: seq<seq<string>>, levels: seq<int>, base: int, wrap: string -> seq<string>): (ps: seq<(string, Attrs)>)
    requires |levels| == |props| && Unpackable(props)
    ensures |ps| == |props|
    ensures forall k :: 0 <= k < |props| ==> ps[k] == (props[k][0], NodeAttrs(props[k], levels[k], base, wrap))
  {
    seq(|props|, k requires 0 <= k < |props| => (props[k][0], NodeAttrs(props[k], levels[k], base, wrap)))
  }

  /** The default attributes of the graph, of every node and of every
    * edge (web/SaddleSum/svgoutput.py:72-91). */
  function DefaultAttr(colorscheme: string): (d: map<string, Attrs>)
    ensures d.Keys == {"graph", "node", "edge"}
    ensures ("colorscheme", colorscheme) in d["node"]
  {
    map["graph" := [("ratio", "auto"), ("rankdir", "\"BT\""), ("size", "\"7.0 9.0\""), ("bgcolor", "transparent")],
        "node" := [("shape", "Mrecord"), ("fontname", "\"Arial\""), ("fontsize", "10.0"), ("style", "filled"),
                   ("fixedsize", "false"), ("width", "1.0"), ("height", "0.35"), ("colorscheme", colorscheme),
                   ("color", "black"), ("fillcolor", "\"1\""), ("margin", "\"0.02,0.02\"")],
        "edge" := [("color", "black")]]
  }

  /** The layout arguments `_dot_layout_args` returns: the directed graph
    * 'ontology_part' with these nodes, edges and attributes. */
  datatype Layout = Layout(shownNodes: seq<string>, shownEdges: seq<Edge>, nodesAttr: map<string, Attrs>,
                           defaultAttr: map<string, Attrs>, edgesAttr: map<Edge, Attrs>)

  /** Every row of the term table unpacks into four fields. */
  predicate Unpackable(props: seq<seq<string>>)
  {
    forall k :: 0 <= k < |props| ==> |props[k]| >= 4
  }

  /** The term identifiers of the table, in order. */
  function Ids(props: seq<seq<string>>): (ids: seq<string>)
    requires Unpackable(props)
    ensures |ids| == |props| && forall k :: 0 <= k < |props| ==> ids[k] == props[k][0]
  {
    seq(|props|, k requires 0 <= k < |props| => props[k][0])
  }

  /** The edges of the relations, in order. */
  function Shown(edges: seq<Link>): (es: seq<Edge>)
    ensures |es| == |edges| && forall k :: 0 <= k < |edges| ==> es[k] == EdgeOf(edges[k])
  {
    seq(|edges|, k requires 0 <= k < |edges| => EdgeOf(edges[k]))
  }

  /** The layout arguments of a term table with a positive level whose
    * rows all unpack, over the relations as they are after the roots are
    * joined. */
  function LayoutOf(edges: seq<Link>, props: seq<seq<string>>, colorscheme: string, wrap: string -> seq<string>): Layout
    requires Base(props).Ok? && Unpackable(props)
  {
    Layout(Ids(props), Shown(edges), LastWins(Styled(props, Levels(props).value, Base(props).value, wrap)),
           DefaultAttr(colorscheme), EdgeColours(edges))
  }

  /** The loop over the term table (web/SaddleSum/svgoutput.py:108-121):
    * the identifiers in order and each term's attribute dictionary, or
    * ValueError at the first row of fewer than four fields. */
  method NodeAttributes(props: seq<seq<string>>, levels: seq<int>, base: int, wrap: string -> seq<string>)
    returns (r: Result<(seq<string>, map<string, Attrs>)>)
    requires |levels| == |props|
    ensures r.Ok? <==> Unpackable(props)
    ensures r.Err? ==> r.error == "ValueError"
    ensures r.Ok? ==> r.value == (Ids(props), LastWins(Styled(props, levels, base, wrap)))
  {
    var nodes: seq<string> := [];
    var nodesAttr: map<string, Attrs> := map[];
    for k := 0 to |props|
      invariant Unpackable(props[..k])
      invariant nodes == Ids(props[..k])
      invariant nodesAttr == LastWins(Styled(props[..k], levels[..k], base, wrap))
    {
      if |props[k]| < 4 {
        assert !Unpackable(props);
        return Err("ValueError");
      }
      StyledNext(props, levels, base, wrap, k);
      nodes := nodes + [props[k][0]];
      nodesAttr := nodesAttr[props[k][0] := NodeAttrs(props[k], levels[k], base, wrap)];
    }
    SliceAll(props);
    SliceAll(levels);
    r := Ok((nodes, nodesAttr));
  }

  /** The loop over the relations (web/SaddleSum/svgoutput.py:124-129):
    * every relation is shown as its edge, and the coloured ones colour
    * it. */
  method EdgeAttributes(edges: seq<Link>) returns (shown: seq<Edge>, edgesAttr: map<Edge, Attrs>)
    ensures shown == Shown(edges)
    ensures edgesAttr == EdgeColours(edges)
  {
    shown, edgesAttr := [], map[];
    for k := 0 to |edges|
      invariant shown == Shown(edges[..k])
      invariant edgesAttr == EdgeColours(edges[..k])
    {
      var l := edges[k];
      assert edges[..k + 1][..k] == edges[..k];
      shown := shown + [EdgeOf(l)];
      var c := RelColor(l.rel);
      if c.Some? {
        edgesAttr := edgesAttr[EdgeOf(l) := [("color", c.value)]];
      }
    }
    SliceAll(edges);
  }

  /** `_dot_layout_args(edges, node_props, colorscheme, add_root)`
    * (web/SaddleSum/svgoutput.py:63-141). The roots are joined first, so
    * the list stays extended even when a later step raises. The level of
    * every row is read before any row is unpacked: a row of fewer than
    * three fields is IndexError, a level that is not an integer or a
    * table with no positive level ValueError, and only then a row of
    * exactly three fields ValueError. */
  method DotLayoutArgs(edges: seq<Link>, props: seq<seq<string>>, colorscheme: string, addRoot: bool,
                       wrap: string -> seq<string>)
    returns (edges': seq<Link>, r: Result<(seq<real>, Layout)>)
    ensures addRoot && |Roots(edges)| > 1 ==>
              |edges'| >= |edges| && edges'[..|edges|] == edges && RootLinks(Roots(edges), edges'[|edges|..])
    ensures !(addRoot && |Roots(edges)| > 1) ==> edges' == edges
    ensures Base(props).Err? ==> r == Err(Base(props).error)
    ensures Base(props).Ok? ==> (r.Ok? <==> Unpackable(props))
    ensures Base(props).Ok? && r.Err? ==> r == Err("ValueError")
    ensures r.Ok? ==> Base(props).Ok? && Unpackable(props)
    ensures r.Ok? ==> r.value == (Bins(Base(props).value), LayoutOf(edges', props, colorscheme, wrap))
  {
    edges' := edges;
    if addRoot {
      var added;
      edges', added := FindRoots(edges);
    }
    var b := Base(props);
    if b.Err? {
      return edges', Err(b.error);
    }
    var bins := Bins(b.value);
    var nodes := NodeAttributes(props, Levels(props).value, b.value, wrap);
    if nodes.Err? {
      return edges', Err("ValueError");
    }
    var shown, edgesAttr := EdgeAttributes(edges');
    r := Ok((bins, Layout(nodes.value.0, shown, nodes.value.1, DefaultAttr(colorscheme), edgesAttr)));
  }

  lemma SliceNext<T>(s: seq<T>, k: nat)
    requires k < |s|
    ensures s[..k + 1] == s[..k] + [s[k]]
  {
  }

  lemma SliceAll<T>(s: seq<T>)
    ensures s[..|s|] == s
  {
  }

  /** Entering one more term of the table. */
  lemma StyledNext(props: seq<seq<string>>, levels: seq<int>, base: int, wrap: string -> seq<string>, k: nat)
    requires |levels| == |props| && k < |props|
    requires Unpackable(props[..k]) && |props[k]| >= 4
    ensures Unpackable(props[..k + 1])
    ensures Ids(props[..k + 1]) == Ids(props[..k]) + [props[k][0]]
    ensures Styled(props[..k + 1], levels[..k + 1], base, wrap)
              == Styled(props[..k], levels[..k], base, wrap) + [(props[k][0], NodeAttrs(props[k], levels[k], base, wrap))]
  {
    assert props[..k + 1] == props[..k] + [props[k]];
    assert levels[..k + 1] == levels[..k] + [levels[k]];
  }

  // ------------------------------------------------------------------
  // The picture
  // ------------------------------------------------------------------

  /** The `-T` option of the image processor of each format; both SVG
    * processors ask for plain SVG, any other format is KeyError
    * (web/SaddleSum/svgoutput.py:164-175). */
  function FormatOption(imgFormat: string): (r: Result<string>)
    ensures r.Ok? <==> imgFormat == "svg" || imgFormat == "netmapsvg"
    ensures r.Ok? ==> r.value == "-Tsvg"
  {
    if imgFormat == "svg" || imgFormat == "netmapsvg" then Ok("-Tsvg") else Err("KeyError")
  }

  /** `os.path.join(dot_path, 'dot')`. */
  function DotProgram(dotPath: string): (p: string)
    ensures dotPath == [] ==> p == "dot"
    ensures dotPath <= p && |p| >= 3 && p[|p| - 3..] == "dot"
  {
    if dotPath == [] then "dot"
    else if dotPath[|dotPath| - 1] == '/' then dotPath + "dot"
    else dotPath + "/dot"
  }

  /** A list from its last element to its first. */
  function Reversed<T>(xs: seq<T>): (ys: seq<T>)
    ensures |ys| == |xs|
    ensures forall k :: 0 <= k < |xs| ==> ys[k] == xs[|xs| - 1 - k]
  {
    seq(|xs|, k requires 0 <= k < |xs| => xs[|xs| - 1 - k])
  }

  /** What `render_enriched_subgraph` hands on: the DOT graph object, the
    * options `dot` runs with, the DOT text written into it, and the
    * legend (the colours and the bins, both from last to first). */
  datatype Picture = Picture(graph: Render.GraphvizLayout, options: string, dot: string,
                             legendColors: seq<Rgb>, legendBins: seq<real>)

  /** `g` is `GraphvizLayout(program=program, **layout_kwargs)`: the
    * directed graph 'ontology_part' of the layout, run by `program`. */
  predicate Draws(g: Render.GraphvizLayout, l: Layout, program: string)
  {
    && g.shownNodes == l.shownNodes && g.shownEdges == l.shownEdges
    && g.nodesAttr == l.nodesAttr && g.defaultAttr == l.defaultAttr && g.edgesAttr == l.edgesAttr
    && g.program == program && g.programOptions == ""
    && g.graphName == "ontology_part" && g.graphType == "digraph" && g.edgeType == "->"
  }

  /** `render_enriched_subgraph(fp_out, edges, node_props, img_format,
    * dot_path, colorscheme)` (web/SaddleSum/svgoutput.py:144-188), up to
    * the pipe into `dot`: an unknown format is KeyError before anything
    * else, then the layout arguments are built, then a colour scheme the
    * table `brewer` does not have is KeyError. */
  method RenderEnrichedSubgraph(edges: seq<Link>, props: seq<seq<string>>, imgFormat: string, dotPath: string,
                                colorscheme: string, brewer: map<string, seq<Rgb>>, wrap: string -> seq<string>)
    returns (edges': seq<Link>, r: Result<Picture>)
    ensures FormatOption(imgFormat).Err? ==> edges' == edges && r == Err("KeyError")
    ensures FormatOption(imgFormat).Ok? && |Roots(edges)| > 1 ==>
              |edges'| >= |edges| && edges'[..|edges|] == edges && RootLinks(Roots(edges), edges'[|edges|..])
    ensures |Roots(edges)| <= 1 ==> edges' == edges
    ensures r.Ok? <==> FormatOption(imgFormat).Ok? && Base(props).Ok? && Unpackable(props) && colorscheme in brewer
    ensures r.Ok? ==>
              && Draws(r.value.graph, LayoutOf(edges', props, colorscheme, wrap), DotProgram(dotPath))
              && r.value.dot == r.value.graph.LayoutDot()
              && r.value.options == "-q " + FormatOption(imgFormat).value
              && r.value.legendColors == Reversed(brewer[colorscheme])
              && r.value.legendBins == Reversed(Bins(Base(props).value))
  {
    var opt := FormatOption(imgFormat);
    if opt.Err? {
      return edges, Err("KeyError");
    }
    var args;
    edges', args := DotLayoutArgs(edges, props, colorscheme, true, wrap);
    if args.Err? {
      return edges', Err(args.error);
    }
    var (bins, layout) := args.value;
    if colorscheme !in brewer {
      return edges', Err("KeyError");
    }
    var graph := new Render.GraphvizLayout(layout.shownNodes, layout.shownEdges, layout.nodesAttr,
                                           layout.defaultAttr, layout.edgesAttr, DotProgram(dotPath), "", true,
                                           "ontology_part");
    var dot := graph.WriteLayoutDot();
    r := Ok(Picture(graph, "-q " + opt.value, dot, Reversed(brewer[colorscheme]), Reversed(bins)));
  }

  /** `create_and_save_image` (web/SaddleSum/svgoutput.py:192-197): a
    * picture is drawn, and its file opened, only when there is at least
    * one relation; otherwise nothing happens. */
  method CreateAndSaveImage(imgFormat: string, dotPath: string, colorscheme: string, brewer: map<string, seq<Rgb>>,
                            edges: seq<Link>, props: seq<seq<string>>, wrap: string -> seq<string>)
    returns (edges': seq<Link>, drawn: Option<Result<Picture>>)
    ensures drawn.None? <==> edges == []
    ensures edges == [] ==> edges' == edges
    ensures drawn.Some? ==>
              (drawn.value.Ok? <==> FormatOption(imgFormat).Ok? && Base(props).Ok? && Unpackable(props) && colorscheme in brewer)
  {
    if |edges| > 0 {
      var r;
      edges', r := RenderEnrichedSubgraph(edges, props, imgFormat, dotPath, colorscheme, brewer, wrap);
      drawn := Some(r);
    } else {
      edges', drawn := edges, None;
    }
  }
}
