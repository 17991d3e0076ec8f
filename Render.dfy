/** The Graphviz writer (common/graphics/render.py). A layout holds the
  * nodes and edges to show and their attribute dictionaries, and writes
  * them as a DOT graph. The neato layout keeps the positioned graph that
  * neato printed and writes it again with colours added. Every writer
  * returns the text it writes, piece by piece, into its file. */
module Render {
  import opened Wrappers
  import opened Text

  /** An attribute dictionary, as the (key, value) pairs its iteration
    * yields, values already in their text form. */
  type Attrs = seq<(string, string)>

  type Edge = (string, string)

  /** The keywords of the default attribute blocks, in the order they are
    * written (common/graphics/render.py:83). */
  const DefaultKinds := ["graph", "node", "edge"]

  /** ` key=value,` for one attribute. */
  function AttrItem(item: (string, string)): string
  {
    " " + item.0 + "=" + item.1 + ","
  }

  /** The attributes of one dictionary, each as ` key=value,`. */
  function AttrText(items: Attrs): string
  {
    if items == [] then "" else AttrText(items[..|items| - 1]) + AttrItem(items[|items| - 1])
  }

  /** The block of default attributes for keyword `kw`, closed by
    * `close`: nothing when the defaults do not name the keyword. */
  function DefaultBlock(kw: string, defaults: map<string, Attrs>, close: string): string
  {
    if kw in defaults then kw + " [" + AttrText(defaults[kw]) + close else ""
  }

  /** The default blocks for the keywords of `kinds`, in order. */
  function DefaultsText(kinds: seq<string>, defaults: map<string, Attrs>, close: string): string
  {
    if kinds == [] then ""
    else DefaultsText(kinds[..|kinds| - 1], defaults, close) + DefaultBlock(kinds[|kinds| - 1], defaults, close)
  }

  /** The node has attributes to write: it is in the dictionary and its
    * own dictionary is not empty (common/graphics/render.py:92). */
  predicate HasAttrs(v: string, attrs: map<string, Attrs>)
  {
    v in attrs && attrs[v] != []
  }

  /** The line of one node: its quoted name and its attributes, or nothing
    * for a node without attributes. */
  function NodeText(v: string, attrs: map<string, Attrs>): string
  {
    if HasAttrs(v, attrs) then "\"" + v + "\" [" + AttrText(attrs[v]) + " ];\n" else ""
  }

  /** The lines of the nodes of `nodes`, in order. */
  function NodesText(nodes: seq<string>, attrs: map<string, Attrs>): string
  {
    if nodes == [] then "" else NodesText(nodes[..|nodes| - 1], attrs) + NodeText(nodes[|nodes| - 1], attrs)
  }

  /** The line of one edge: both quoted ends joined by the edge operator,
    * a bracket of attributes when the edge has a non-empty dictionary, and
    * the closing `;`. */
  function EdgeText(e: Edge, edgeType: string, attrs: map<Edge, Attrs>): string
  {
    "\"" + e.0 + "\" " + edgeType + " \"" + e.1 + "\" "
      + (if e in attrs && attrs[e] != [] then "[" + AttrText(attrs[e]) + " ]" else "") + ";\n"
  }

  /** The lines of the edges of `edges`, in order. */
  function EdgesText(edges: seq<Edge>, edgeType: string, attrs: map<Edge, Attrs>): string
  {
    if edges == [] then "" else EdgesText(edges[..|edges| - 1], edgeType, attrs) + EdgeText(edges[|edges| - 1], edgeType, attrs)
  }

  /** The lines neato printed after its first, without the closing brace
    * line (common/graphics/render.py:171-173). */
  function KeptLines(lines: seq<string>): (kept: seq<string>)
    ensures forall k :: 0 <= k < |kept| ==> kept[k] in lines && Strip(kept[k]) != "}"
    ensures forall l :: l in lines && Strip(l) != "}" ==> l in kept
  {
    if lines == [] then []
    else
      var last := lines[|lines| - 1];
      KeptLines(lines[..|lines| - 1]) + (if Strip(last) != "}" then [last] else [])
  }

  /** The kept lines as one text: each line neato printed after its
    * first, unless it is the closing brace, in order. */
  function KeptText(lines: seq<string>): string
  {
    if lines == [] then ""
    else
      var last := lines[|lines| - 1];
      KeptText(lines[..|lines| - 1]) + (if Strip(last) != "}" then last else "")
  }

  /** The text of one attribute dictionary, written item by item
    * (common/graphics/render.py:86-87). */
  method WriteAttrs(items: Attrs) returns (out: string)
    ensures out == AttrText(items)
  {
    out := "";
    for i := 0 to |items|
      invariant out == AttrText(items[..i])
    {
      assert items[..i + 1][..i] == items[..i];
      out := out + AttrItem(items[i]);
    }
    assert items[..|items|] == items;
  }

  /** The default blocks, written keyword by keyword
    * (common/graphics/render.py:83-88). */
  method WriteDefaults(defaults: map<string, Attrs>, close: string) returns (out: string)
    ensures out == DefaultsText(DefaultKinds, defaults, close)
  {
    out := "";
    for i := 0 to |DefaultKinds|
      invariant out == DefaultsText(DefaultKinds[..i], defaults, close)
    {
      assert DefaultKinds[..i + 1][..i] == DefaultKinds[..i];
      var kw := DefaultKinds[i];
      if kw in defaults {
        var attrs := WriteAttrs(defaults[kw]);
        out := out + (kw + " [" + attrs + close);
      }
    }
    assert DefaultKinds[..|DefaultKinds|] == DefaultKinds;
  }

  /** The node lines, skipping nodes without attributes
    * (common/graphics/render.py:91-97). */
  method WriteNodes(nodes: seq<string>, attrs: map<string, Attrs>) returns (out: string)
    ensures out == NodesText(nodes, attrs)
  {
    out := "";
    for i := 0 to |nodes|
      invariant out == NodesText(nodes[..i], attrs)
    {
      assert nodes[..i + 1][..i] == nodes[..i];
      var v := nodes[i];
      if v in attrs && |attrs[v]| != 0 {
        var items := WriteAttrs(attrs[v]);
        out := out + ("\"" + v + "\" [" + items + " ];\n");
      }
    }
    assert nodes[..|nodes|] == nodes;
  }

  /** The edge lines (common/graphics/render.py:100-108). */
  method WriteEdges(edges: seq<Edge>, edgeType: string, attrs: map<Edge, Attrs>) returns (out: string)
    ensures out == EdgesText(edges, edgeType, attrs)
  {
    out := "";
    for i := 0 to |edges|
      invariant out == EdgesText(edges[..i], edgeType, attrs)
    {
      assert edges[..i + 1][..i] == edges[..i];
      var e := edges[i];
      var bracket := "";
      if e in attrs && |attrs[e]| != 0 {
        var items := WriteAttrs(attrs[e]);
        bracket := "[" + items + " ]";
      }
      out := out + ("\"" + e.0 + "\" " + edgeType + " \"" + e.1 + "\" " + bracket + ";\n");
    }
    assert edges[..|edges|] == edges;
  }

  /** The loop of `NeatoLayout.__init__` over neato's lines after the
    * first (common/graphics/render.py:171-175). */
  method KeepLines(lines: seq<string>) returns (layout: string)
    ensures layout == KeptText(lines)
  {
    layout := "";
    for i := 0 to |lines|
      invariant layout == KeptText(lines[..i])
    {
      assert lines[..i + 1][..i] == lines[..i];
      if Strip(lines[i]) != "}" {
        layout := layout + lines[i];
      }
    }
    assert lines[..|lines|] == lines;
  }

  /** `GraphvizLayout`, and `NeatoLayout` once neato has placed the
    * nodes: what to show, how, and the positioned graph. */
  class GraphvizLayout {
    const shownNodes: seq<string>
    const shownEdges: seq<Edge>
    const nodesAttr: map<string, Attrs>
    const defaultAttr: map<string, Attrs>
    const edgesAttr: map<Edge, Attrs>
    const program: string
    const programOptions: string
    const graphName: string
    const edgeType: string
    const graphType: string
    var dotLayout: string

    /** A directed graph is a `digraph` with `->` edges, an undirected one
      * a `graph` with `--` edges (common/graphics/render.py:61-75). */
    constructor (shownNodes: seq<string>, shownEdges: seq<Edge>, nodesAttr: map<string, Attrs>,
                 defaultAttr: map<string, Attrs>, edgesAttr: map<Edge, Attrs>, program: string,
                 programOptions: string, directed: bool, graphName: string)
      ensures this.shownNodes == shownNodes && this.shownEdges == shownEdges
      ensures this.nodesAttr == nodesAttr && this.defaultAttr == defaultAttr && this.edgesAttr == edgesAttr
      ensures this.program == program && this.programOptions == programOptions && this.graphName == graphName
      ensures edgeType == (if directed then "->" else "--")
      ensures graphType == (if directed then "digraph" else "graph")
      ensures dotLayout == ""
    {
      this.shownNodes := shownNodes;
      this.shownEdges := shownEdges;
      this.nodesAttr := nodesAttr;
      this.defaultAttr := defaultAttr;
      this.edgesAttr := edgesAttr;
      this.program := program;
      this.programOptions := programOptions;
      this.graphName := graphName;
      if directed {
        edgeType, graphType := "->", "digraph";
      } else {
        edgeType, graphType := "--", "graph";
      }
      dotLayout := "";
    }

    /** What `write_layout_dot` writes: the opening line, the default
      * blocks, the node lines, the edge lines and the closing brace. */
    function LayoutDot(): string
    {
      graphType + " " + graphName + " {\n" + DefaultsText(DefaultKinds, defaultAttr, " ]\n")
        + NodesText(shownNodes, nodesAttr) + EdgesText(shownEdges, edgeType, edgesAttr) + "}\n"
    }

    /** `write_layout_dot` (common/graphics/render.py:77-110). */
    method WriteLayoutDot() returns (out: string)
      ensures out == LayoutDot()
    {
      var defaults := WriteDefaults(defaultAttr, " ]\n");
      var nodes := WriteNodes(shownNodes, nodesAttr);
      var edges := WriteEdges(shownEdges, edgeType, edgesAttr);
      out := graphType + " " + graphName + " {\n" + defaults + nodes + edges + "}\n";
    }

    /** The second half of `NeatoLayout.__init__`: neato's first line is
      * skipped and its other lines but the closing brace are kept as the
      * layout; output without a first line raises StopIteration
      * (common/graphics/render.py:170-175). */
    method KeepLayout(neatoOutput: seq<string>) returns (r: Result<()>)
      modifies this
      ensures neatoOutput == [] <==> r.Err?
      ensures r.Err? ==> dotLayout == old(dotLayout)
      ensures r.Ok? ==> dotLayout == KeptText(neatoOutput[1..])
    {
      if neatoOutput == [] {
        return Err("StopIteration");
      }
      dotLayout := KeepLines(neatoOutput[1..]);
      r := Ok(());
    }

    /** The DOT text has the opening and the closing line, one line per
      * default block, one per node with attributes and one per edge,
      * when no name, keyword or attribute holds a line break. */
    lemma LayoutLines()
      requires '\n' !in graphType && '\n' !in graphName && '\n' !in edgeType
      requires forall v :: v in shownNodes ==> '\n' !in v
      requires forall e :: e in shownEdges ==> '\n' !in e.0 && '\n' !in e.1
      requires CleanMap(nodesAttr) && CleanMap(defaultAttr) && CleanMap(edgesAttr)
      ensures Newlines(LayoutDot()) == 2 + |Present(DefaultKinds, defaultAttr)|
        + |Attributed(shownNodes, nodesAttr)| + |shownEdges|
    {
      var head := graphType + " " + graphName + " {";
      var d := DefaultsText(DefaultKinds, defaultAttr, " ]\n");
      var n := NodesText(shownNodes, nodesAttr);
      var e := EdgesText(shownEdges, edgeType, edgesAttr);
      assert LayoutDot() == head + "\n" + d + n + e + "}\n";
      Terminators();
      DefaultsLines(DefaultKinds, defaultAttr, " ]\n");
      NodesLines(shownNodes, nodesAttr);
      EdgesLines(shownEdges, edgeType, edgesAttr);
      FramedLines(head, d, n, e);
    }

    /** What `write_colored_dot` writes: the opening line, the given
      * default blocks, the stored layout, the lines of the given node
      * attributes, and the closing brace. */
    function ColoredDot(nodeColors: map<string, Attrs>, defaults: map<string, Attrs>): string
      reads this
    {
      graphType + " G {\n" + DefaultsText(DefaultKinds, defaults, " ];\n") + dotLayout
        + NodesText(shownNodes, nodeColors) + "}\n"
    }

    /** `write_colored_dot` (common/graphics/render.py:178-209). */
    method WriteColoredDot(nodeColors: map<string, Attrs>, defaults: map<string, Attrs>) returns (out: string)
      ensures out == ColoredDot(nodeColors, defaults)
    {
      var blocks := WriteDefaults(defaults, " ];\n");
      var nodes := WriteNodes(shownNodes, nodeColors);
      out := graphType + " G {\n" + blocks + dotLayout + nodes + "}\n";
    }

    /** `save_layout`: the stored layout inside `G { ... }`
      * (common/graphics/render.py:212-217); it is what `write_colored_dot`
      * writes with no colours and no defaults. */
    method SaveLayout() returns (out: string)
      ensures out == ColoredDot(map[], map[])
    {
      NoColors(shownNodes);
      NoDefaults(DefaultKinds, " ];\n");
      out := graphType + " G {\n" + dotLayout + "}\n";
    }
  }

  /** Appending one more piece. */
  lemma ConcatSnoc(pieces: seq<string>, p: string)
    ensures Concat(pieces + [p]) == Concat(pieces) + p
  {
    assert (pieces + [p])[..|pieces|] == pieces;
  }

  /** The kept text is the concatenation of the kept lines, which are the
    * lines that are not a closing brace. */
  lemma {:induction false} KeptTextLines(lines: seq<string>)
    ensures KeptText(lines) == Concat(KeptLines(lines))
  {
    if lines != [] {
      var init, last := lines[..|lines| - 1], lines[|lines| - 1];
      KeptTextLines(init);
      if Strip(last) != "}" {
        ConcatSnoc(KeptLines(init), last);
      } else {
        assert KeptLines(lines) == KeptLines(init) + [];
        assert KeptLines(init) + [] == KeptLines(init);
      }
    }
  }

  /** Without attribute dictionaries no node line is written. */
  lemma {:induction false} NoColors(nodes: seq<string>)
    ensures NodesText(nodes, map[]) == ""
  {
    if nodes != [] {
      NoColors(nodes[..|nodes| - 1]);
    }
  }

  /** Without defaults no default block is written. */
  lemma {:induction false} NoDefaults(kinds: seq<string>, close: string)
    ensures DefaultsText(kinds, map[], close) == ""
  {
    if kinds != [] {
      NoDefaults(kinds[..|kinds| - 1], close);
    }
  }

  /** The number of line breaks in a text. */
  function Newlines(s: string): nat
  {
    if s == [] then 0 else Newlines(s[..|s| - 1]) + (if s[|s| - 1] == '\n' then 1 else 0)
  }

  lemma {:induction false} NewlinesAppend(a: string, b: string)
    ensures Newlines(a + b) == Newlines(a) + Newlines(b)
  {
    if b == [] {
      assert a + b == a;
    } else {
      assert (a + b)[..|a + b| - 1] == a + b[..|b| - 1];
      NewlinesAppend(a, b[..|b| - 1]);
    }
  }

  lemma {:induction false} NoNewlines(s: string)
    requires '\n' !in s
    ensures Newlines(s) == 0
  {
    if s != [] {
      NoNewlines(s[..|s| - 1]);
    }
  }

  /** No key and no value of the dictionary holds a line break. */
  predicate CleanAttrs(items: Attrs)
  {
    forall k :: 0 <= k < |items| ==> '\n' !in items[k].0 && '\n' !in items[k].1
  }

  predicate CleanMap<K>(m: map<K, Attrs>)
  {
    forall k :: k in m ==> CleanAttrs(m[k])
  }

  /** The attributes of a dictionary fit on one line. */
  lemma {:induction false} AttrTextOneLine(items: Attrs)
    requires CleanAttrs(items)
    ensures '\n' !in AttrText(items)
  {
    if items != [] {
      AttrTextOneLine(items[..|items| - 1]);
    }
  }

  /** The nodes of `nodes` that get a line. */
  function Attributed(nodes: seq<string>, attrs: map<string, Attrs>): seq<string>
  {
    if nodes == [] then []
    else
      var last := nodes[|nodes| - 1];
      Attributed(nodes[..|nodes| - 1], attrs) + (if HasAttrs(last, attrs) then [last] else [])
  }

  /** The keywords of `kinds` that get a default block. */
  function Present(kinds: seq<string>, defaults: map<string, Attrs>): seq<string>
  {
    if kinds == [] then []
    else
      var last := kinds[|kinds| - 1];
      Present(kinds[..|kinds| - 1], defaults) + (if last in defaults then [last] else [])
  }

  /** A text without line breaks, then its terminator. */
  lemma EndedLine(head: string, tail: string)
    requires '\n' !in head
    requires tail == "\n" || tail == " ];\n"
    ensures Newlines(head + tail) == 1
  {
    NoNewlines(head);
    NewlinesAppend(head, tail);
    Terminators();
  }

  lemma Terminators()
    ensures Newlines("\n") == 1 && Newlines(" ];\n") == 1 && Newlines(" ]\n") == 1
  {
    assert " ]\n"[..2] == " ]";
    assert "\n"[..0] == "";
    assert " ];\n"[..3] == " ];";
    assert " ];"[..2] == " ]";
    assert " ]"[..1] == " ";
    assert " "[..0] == "";
  }

  /** A one-line header and the closing brace around three bodies. */
  lemma FramedLines(head: string, d: string, n: string, e: string)
    requires '\n' !in head
    ensures Newlines(head + "\n" + d + n + e + "}\n") == 2 + Newlines(d) + Newlines(n) + Newlines(e)
  {
    EndedLine(head, "\n");
    EndedLine("}", "\n");
    NewlinesAppend(head + "\n", d);
    NewlinesAppend(head + "\n" + d, n);
    NewlinesAppend(head + "\n" + d + n, e);
    NewlinesAppend(head + "\n" + d + n + e, "}\n");
  }

  /** The line of a node with attributes is one line. */
  lemma NodeLine(v: string, attrs: map<string, Attrs>)
    requires '\n' !in v
    requires CleanMap(attrs)
    ensures Newlines(NodeText(v, attrs)) == if HasAttrs(v, attrs) then 1 else 0
  {
    if HasAttrs(v, attrs) {
      AttrTextOneLine(attrs[v]);
      EndedLine("\"" + v + "\" [" + AttrText(attrs[v]), " ];\n");
    }
  }

  /** The line of an edge is one line. */
  lemma EdgeLine(e: Edge, edgeType: string, attrs: map<Edge, Attrs>)
    requires '\n' !in e.0 && '\n' !in e.1 && '\n' !in edgeType
    requires CleanMap(attrs)
    ensures Newlines(EdgeText(e, edgeType, attrs)) == 1
  {
    var bracket := if e in attrs && attrs[e] != [] then "[" + AttrText(attrs[e]) + " ]" else "";
    if e in attrs && attrs[e] != [] {
      AttrTextOneLine(attrs[e]);
    }
    assert '\n' !in bracket;
    var head := "\"" + e.0 + "\" " + edgeType + " \"" + e.1 + "\" " + bracket + ";";
    assert EdgeText(e, edgeType, attrs) == head + "\n";
    EndedLine(head, "\n");
  }

  /** One line per node with attributes, and none for the others. */
  lemma {:induction false} NodesLines(nodes: seq<string>, attrs: map<string, Attrs>)
    requires forall v :: v in nodes ==> '\n' !in v
    requires CleanMap(attrs)
    ensures Newlines(NodesText(nodes, attrs)) == |Attributed(nodes, attrs)|
  {
    if nodes != [] {
      var init, v := nodes[..|nodes| - 1], nodes[|nodes| - 1];
      assert forall u :: u in init ==> u in nodes;
      NodesLines(init, attrs);
      NewlinesAppend(NodesText(init, attrs), NodeText(v, attrs));
      NodeLine(v, attrs);
    }
  }

  /** One line per edge. */
  lemma {:induction false} EdgesLines(edges: seq<Edge>, edgeType: string, attrs: map<Edge, Attrs>)
    requires forall e :: e in edges ==> '\n' !in e.0 && '\n' !in e.1
    requires '\n' !in edgeType
    requires CleanMap(attrs)
    ensures Newlines(EdgesText(edges, edgeType, attrs)) == |edges|
  {
    if edges != [] {
      var init, e := edges[..|edges| - 1], edges[|edges| - 1];
      assert forall d :: d in init ==> d in edges;
      EdgesLines(init, edgeType, attrs);
      NewlinesAppend(EdgesText(init, edgeType, attrs), EdgeText(e, edgeType, attrs));
      EdgeLine(e, edgeType, attrs);
    }
  }

  /** One line per default block present, when the closing text holds one
    * line break. */
  lemma {:induction false} DefaultsLines(kinds: seq<string>, defaults: map<string, Attrs>, close: string)
    requires forall kw :: kw in kinds ==> '\n' !in kw
    requires CleanMap(defaults)
    requires Newlines(close) == 1
    ensures Newlines(DefaultsText(kinds, defaults, close)) == |Present(kinds, defaults)|
  {
    if kinds != [] {
      var init, kw := kinds[..|kinds| - 1], kinds[|kinds| - 1];
      assert forall k :: k in init ==> k in kinds;
      DefaultsLines(init, defaults, close);
      NewlinesAppend(DefaultsText(init, defaults, close), DefaultBlock(kw, defaults, close));
      if kw in defaults {
        AttrTextOneLine(defaults[kw]);
        var head := kw + " [" + AttrText(defaults[kw]);
        NoNewlines(head);
        NewlinesAppend(head, close);
      }
    }
  }
}
