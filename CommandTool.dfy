/** The command-line toolkit (common/commandtool/__init__.py): the
  * attribute dictionary with dotted keys, the manual page and docstring
  * helpers, the checks of option metavars and positions, and the
  * validation of the option table that precedes `getopt`. */
module CommandTool {
  import opened Wrappers
  import opened Text
  import opened Indexing
  import Filesys

  // ------------------------------------------------------------------
  // AttributeDict
  // ------------------------------------------------------------------

  /** A value in an attribute dictionary: a nested dictionary, or any
    * other value (kept as its text). */
  datatype Node = Leaf(v: string) | Dict(m: map<string, Node>)

  /** The value at a path of keys: a missing key is a KeyError, a key
    * looked up in something that is not a dictionary a TypeError. */
  function Follow(n: Node, path: seq<string>): (r: Result<Node>)
    ensures r.Err? ==> r.error == "KeyError" || r.error == "TypeError"
  {
    if path == [] then Ok(n)
    else
      match n
      case Leaf(_) => Err("TypeError")
      case Dict(m) => if path[0] in m then Follow(m[path[0]], path[1..]) else Err("KeyError")
  }

  /** Storing a value at a path: every key but the last must exist; a
    * missing one is a KeyError, a value that is not a dictionary on the
    * way an AttributeError (it has no `has_key`), and one at the end a
    * TypeError. */
  function Store(n: Node, path: seq<string>, value: Node): (r: Result<Node>)
    requires path != []
    ensures r.Ok? ==> n.Dict? && r.value.Dict?
    decreases |path|
  {
    match n
    case Leaf(_) => Err(if |path| == 1 then "TypeError" else "AttributeError")
    case Dict(m) =>
      if |path| == 1 then Ok(Dict(m[path[0] := value]))
      else if path[0] !in m then Err("KeyError")
      else
        var c :- Store(m[path[0]], path[1..], value);
        Ok(Dict(m[path[0] := c]))
  }

  /** A stored value is found again at its path. */
  lemma {:induction false} StoreThenFollow(n: Node, path: seq<string>, value: Node)
    requires path != [] && Store(n, path, value).Ok?
    ensures Follow(Store(n, path, value).value, path) == Ok(value)
    decreases |path|
  {
    if |path| > 1 {
      StoreThenFollow(n.m[path[0]], path[1..], value);
    }
  }

  /** Two paths that part at some key. */
  predicate Diverge(p: seq<string>, q: seq<string>)
  {
    p != [] && q != [] && (p[0] != q[0] || Diverge(p[1..], q[1..]))
  }

  /** Storing leaves every path that parts from the stored one as it was. */
  lemma {:induction false} StoreKeepsOthers(n: Node, path: seq<string>, value: Node, q: seq<string>)
    requires path != [] && Store(n, path, value).Ok? && Diverge(path, q)
    ensures Follow(Store(n, path, value).value, q) == Follow(n, q)
    decreases |path|
  {
    if path[0] == q[0] {
      StoreKeepsOthers(n.m[path[0]], path[1..], value, q[1..]);
    }
  }

  /** Storing succeeds exactly when the keys before the last lead to a
    * dictionary; a missing key on the way is a KeyError. */
  lemma {:induction false} StoreSucceeds(n: Node, path: seq<string>, value: Node)
    requires path != []
    ensures var parent := Follow(n, path[..|path| - 1]);
            Store(n, path, value).Ok? <==> parent.Ok? && parent.value.Dict?
    ensures Follow(n, path[..|path| - 1]) == Err("KeyError") ==> Store(n, path, value) == Err("KeyError")
    decreases |path|
  {
    if |path| > 1 && n.Dict? && path[0] in n.m {
      StoreSucceeds(n.m[path[0]], path[1..], value);
      assert path[1..][..|path| - 2] == path[..|path| - 1][1..];
    }
  }

  /** Walking down to the node at `k` keys leaves the store to that node. */
  lemma {:induction false} StoreBelow(n: Node, path: seq<string>, value: Node, k: nat, c: Node)
    requires k < |path| && Follow(n, path[..k]) == Ok(c)
    ensures Store(n, path, value).Ok? <==> Store(c, path[k..], value).Ok?
    ensures Store(n, path, value).Err? ==> Store(n, path, value).error == Store(c, path[k..], value).error
    decreases k
  {
    if k > 0 {
      assert path[..k][1..] == path[1..][..k - 1];
      StoreBelow(n.m[path[0]], path[1..], value, k - 1, c);
      assert path[1..][k - 1..] == path[k..];
    }
  }

  /** Following a path in two parts: first to `c`, then on from there. */
  lemma {:induction false} FollowSplit(n: Node, path: seq<string>, k: nat, c: Node)
    requires k <= |path| && Follow(n, path[..k]) == Ok(c)
    ensures Follow(n, path) == Follow(c, path[k..])
    decreases k
  {
    if k > 0 {
      assert path[..k][1..] == path[1..][..k - 1];
      FollowSplit(n.m[path[0]], path[1..], k - 1, c);
      assert path[1..][k - 1..] == path[k..];
    } else {
      assert path[k..] == path;
    }
  }

  /** One step further down the path. */
  lemma FollowNext(n: Node, path: seq<string>, k: nat, c: Node)
    requires k < |path| && Follow(n, path[..k]) == Ok(c)
    ensures Follow(n, path[..k + 1]) == Follow(c, [path[k]])
  {
    FollowAppend(n, path[..k], path[k], c);
    assert path[..k] + [path[k]] == path[..k + 1];
  }

  lemma {:induction false} FollowAppend(n: Node, p: seq<string>, key: string, c: Node)
    requires Follow(n, p) == Ok(c)
    ensures Follow(n, p + [key]) == Follow(c, [key])
    decreases |p|
  {
    if p != [] {
      assert (p + [key])[1..] == p[1..] + [key];
      FollowAppend(n.m[p[0]], p[1..], key, c);
    }
  }

  /** `AttributeDict`: a dictionary whose keys may be dotted paths into
    * nested dictionaries (common/commandtool/__init__.py:25-68). */
  class AttributeDict {
    var entries: map<string, Node>

    constructor(entries: map<string, Node>)
      ensures this.entries == entries
    {
      this.entries := entries;
    }

    /** The dictionary as a value. */
    function Tree(): Node
      reads this
    {
      Dict(entries)
    }

    /** `__getitem__`: follows the dot-separated keys one dictionary at a
      * time (common/commandtool/__init__.py:37-41). */
    method Get(name: string) returns (r: Result<Node>)
      ensures r == Follow(Tree(), Filesys.Split(name, '.'))
    {
      var parts := Filesys.Split(name, '.');
      var start := Tree();
      var k := 0;
      while k < |parts|
        invariant 0 <= k <= |parts|
        invariant Follow(Tree(), parts[..k]) == Ok(start)
      {
        FollowNext(Tree(), parts, k, start);
        FollowSplit(Tree(), parts, k, start);
        if !start.Dict? {
          return Err("TypeError");
        }
        if parts[k] !in start.m {
          return Err("KeyError");
        }
        start := start.m[parts[k]];
        k := k + 1;
      }
      assert parts[..k] == parts;
      r := Ok(start);
    }

    /** `__getattr__`: an item, with a missing key reported as an
      * AttributeError (common/commandtool/__init__.py:26-30). */
    method GetAttr(name: string) returns (r: Result<Node>)
      ensures r.Ok? <==> Follow(Tree(), Filesys.Split(name, '.')).Ok?
      ensures r.Ok? ==> r == Follow(Tree(), Filesys.Split(name, '.'))
      ensures r.Err? ==> (r.error == "AttributeError" <==> Follow(Tree(), Filesys.Split(name, '.')) == Err("KeyError"))
    {
      r := Get(name);
      if r == Err("KeyError") {
        r := Err("AttributeError");
      }
    }

    /** `__setattr__`: setting an attribute always fails and changes
      * nothing (common/commandtool/__init__.py:32-35). */
    method SetAttr(name: string, value: Node) returns (r: Result<()>)
      ensures r.Err? && r.error == "AttributeError"
    {
      r := Err("AttributeError");
    }

    /** `__setitem__`: walks every key but the last, each of which must
      * exist, and assigns the last in the dictionary reached
      * (common/commandtool/__init__.py:43-68). */
    method Set(name: string, value: Node) returns (r: Result<()>)
      modifies this
      ensures var s := Store(old(Tree()), Filesys.Split(name, '.'), value);
              (r.Ok? <==> s.Ok?) && (r.Ok? ==> Tree() == s.value) &&
              (r.Err? ==> r.error == s.error && entries == old(entries))
    {
      var parts := Filesys.Split(name, '.');
      var start := Tree();
      var k := 0;
      while k < |parts| - 1
        invariant 0 <= k <= |parts| - 1 && entries == old(entries)
        invariant Follow(Tree(), parts[..k]) == Ok(start)
      {
        StoreBelow(Tree(), parts, value, k, start);
        FollowNext(Tree(), parts, k, start);
        if !start.Dict? {
          return Err("AttributeError");
        }
        if parts[k] !in start.m {
          return Err("KeyError");
        }
        start := start.m[parts[k]];
        k := k + 1;
      }
      StoreBelow(Tree(), parts, value, k, start);
      if !start.Dict? {
        return Err("TypeError");
      }
      var stored := Store(Tree(), parts, value);
      entries := stored.value.m;
      r := Ok(());
    }
  }

  // ------------------------------------------------------------------
  // strip_docstring
  // ------------------------------------------------------------------

  /** A character of indentation. */
  predicate IsIndentChar(c: char)
  {
    c == ' ' || c == '\t'
  }

  /** The columns an indentation character takes: one for a space,
    * `tabstop` for a tab. */
  function Width(c: char, tabstop: nat): nat
  {
    if c == ' ' then 1 else tabstop
  }

  /** The indentation of a line in columns
    * (common/commandtool/__init__.py:259-269). */
  function Indent(line: string, tabstop: nat): nat
  {
    if line == [] || !IsIndentChar(line[0]) then 0 else Width(line[0], tabstop) + Indent(line[1..], tabstop)
  }

  /** Measures the indentation of a line, one character at a time
    * (common/commandtool/__init__.py:259-269). */
  method IndentOf(line: string, tabstop: nat) returns (chars: nat)
    ensures chars == Indent(line, tabstop)
  {
    chars := 0;
    var i := 0;
    while i < |line|
      invariant 0 <= i <= |line|
      invariant chars + Indent(line[i..], tabstop) == Indent(line, tabstop)
    {
      assert line[i..][1..] == line[i + 1..];
      if line[i] == ' ' {
        chars := chars + 1;
      } else if line[i] == '\t' {
        chars := chars + tabstop;
      } else {
        break;
      }
      i := i + 1;
    }
  }

  /** The lines of a docstring, carriage returns read as line feeds
    * (common/commandtool/__init__.py:254-256). */
  function DocLines(doc: string): (lines: seq<string>)
    ensures |lines| >= 1
    ensures forall k :: 0 <= k < |lines| ==> '\n' !in lines[k] && '\r' !in lines[k]
  {
    var d := Replace(doc, "\r", "\n");
    var lines := Filesys.Split(d, '\n');
    forall k | 0 <= k < |lines| ensures '\r' !in lines[k] {
      SplitPieceAvoids(d, '\n', '\r', k);
    }
    lines
  }

  /** A piece of a split text holds only characters of the text. */
  lemma {:induction false} SplitPieceAvoids(s: string, sep: char, c: char, k: nat)
    requires c !in s && k < |Filesys.Split(s, sep)|
    ensures c !in Filesys.Split(s, sep)[k]
    decreases |s|
  {
    if s != [] {
      assert c !in s[1..] by {
        forall j | 0 <= j < |s| - 1 ensures s[1..][j] != c {
          assert s[1..][j] == s[j + 1];
        }
      }
      if s[0] == sep {
        if k > 0 {
          SplitPieceAvoids(s[1..], sep, c, k - 1);
        }
      } else if k == 0 {
        SplitPieceAvoids(s[1..], sep, c, 0);
      } else {
        SplitPieceAvoids(s[1..], sep, c, k);
      }
    }
  }

  /** The least indentation as `strip_docstring` finds it: it starts from
    * the length of the whole docstring and only lowers it for non-empty
    * lines (common/commandtool/__init__.py:255-271). */
  function LeastAsWritten(lines: seq<string>, tabstop: nat, start: nat): nat
  {
    if lines == [] then start
    else
      var m := LeastAsWritten(lines[..|lines| - 1], tabstop, start);
      var line := lines[|lines| - 1];
      if line != [] && Indent(line, tabstop) < m then Indent(line, tabstop) else m
  }

  /** `line[m:]`. */
  function Drop(line: string, m: nat): string
  {
    if m <= |line| then line[m..] else []
  }

  /** `strip_docstring` as written: every non-empty line loses as many
    * characters as the least indentation has columns
    * (common/commandtool/__init__.py:253-280). */
  function StripDocstringAsWritten(doc: string, tabstop: nat): string
  {
    var d := Replace(doc, "\r", "\n");
    var lines := Filesys.Split(d, '\n');
    var m := LeastAsWritten(lines, tabstop, |d|);
    Filesys.Join(seq(|lines|, k requires 0 <= k < |lines| => if lines[k] == [] then [] else Drop(lines[k], m)), '\n')
  }

  /** The least indentation of the non-empty lines, if there are any. */
  function Least(lines: seq<string>, tabstop: nat): Option<nat>
  {
    if lines == [] then None
    else
      var m := Least(lines[..|lines| - 1], tabstop);
      var line := lines[|lines| - 1];
      if line == [] then m
      else if m.None? || Indent(line, tabstop) < m.value then Some(Indent(line, tabstop))
      else m
  }

  /** The least indentation is at most that of every non-empty line and
    * is the indentation of one of them. */
  lemma {:induction false} LeastMeaning(lines: seq<string>, tabstop: nat)
    ensures Least(lines, tabstop).None? <==> forall k :: 0 <= k < |lines| ==> lines[k] == []
    ensures Least(lines, tabstop).Some? ==>
              (forall k :: 0 <= k < |lines| && lines[k] != [] ==> Least(lines, tabstop).value <= Indent(lines[k], tabstop)) &&
              exists k :: 0 <= k < |lines| && lines[k] != [] && Indent(lines[k], tabstop) == Least(lines, tabstop).value
  {
    if lines != [] {
      var init := lines[..|lines| - 1];
      LeastMeaning(init, tabstop);
      forall k | 0 <= k < |init| ensures init[k] == lines[k] { }
      if Least(lines, tabstop) == Least(init, tabstop) && Least(init, tabstop).Some? {
        var j :| 0 <= j < |init| && init[j] != [] && Indent(init[j], tabstop) == Least(init, tabstop).value;
        assert lines[j] == init[j];
      }
    }
  }

  /** Removes `cols` columns of indentation from the front of a line: the
    * indentation characters are taken one by one until they cover the
    * columns, and a tab that straddles the limit goes as a whole. */
  function Dedent(line: string, cols: nat, tabstop: nat): string
    decreases |line|
  {
    if cols == 0 || line == [] || !IsIndentChar(line[0]) then line
    else if Width(line[0], tabstop) >= cols then line[1..]
    else Dedent(line[1..], cols - Width(line[0], tabstop), tabstop)
  }

  /** Dedenting removes only indentation from the front; it removes at
    * least `cols` columns from a line indented that far, and all the
    * indentation of a line indented no further. */
  lemma {:induction false} DedentMeaning(line: string, cols: nat, tabstop: nat)
    ensures var r := Dedent(line, cols, tabstop);
            |r| <= |line| && r == line[|line| - |r|..] &&
            (forall k :: 0 <= k < |line| - |r| ==> IsIndentChar(line[k])) &&
            (Indent(line, tabstop) >= cols ==> Indent(line, tabstop) - Indent(r, tabstop) >= cols) &&
            (Indent(line, tabstop) <= cols ==> Indent(r, tabstop) == 0)
    decreases |line|
  {
    if !(cols == 0 || line == [] || !IsIndentChar(line[0])) && Width(line[0], tabstop) < cols {
      DedentMeaning(line[1..], cols - Width(line[0], tabstop), tabstop);
      var r := Dedent(line, cols, tabstop);
      assert line[1..][|line| - 1 - |r|..] == line[|line| - |r|..];
      forall k | 1 <= k < |line| - |r| ensures IsIndentChar(line[k]) {
        assert line[k] == line[1..][k - 1];
      }
    }
  }

  /** The lines of a docstring with the least indentation removed. */
  function DedentedLines(lines: seq<string>, tabstop: nat): (out: seq<string>)
    ensures |out| == |lines|
  {
    var m := Least(lines, tabstop);
    var cut := if m.Some? then m.value else 0;
    seq(|lines|, k requires 0 <= k < |lines| => if lines[k] == [] then [] else Dedent(lines[k], cut, tabstop))
  }

  /** `strip_docstring` as intended: the least indentation of the
    * non-empty lines, in columns, is removed from every line
    * (common/commandtool/__init__.py:253-280). */
  function StrippedDocstring(doc: string, tabstop: nat): string
  {
    Filesys.Join(DedentedLines(DocLines(doc), tabstop), '\n')
  }

  /** A joined text holds a character only if some piece or the separator
    * does. */
  lemma {:induction false} JoinAvoids(items: seq<string>, sep: char, c: char)
    requires c != sep && forall k :: 0 <= k < |items| ==> c !in items[k]
    ensures c !in Filesys.Join(items, sep)
    decreases |items|
  {
    if |items| > 1 {
      JoinAvoids(items[1..], sep, c);
    }
  }

  /** `out` is `line` with only indentation characters removed from its
    * front. */
  predicate KeepsText(line: string, out: string)
  {
    |out| <= |line| && out == line[|line| - |out|..] &&
    forall j :: 0 <= j < |line| - |out| ==> IsIndentChar(line[j])
  }

  /** Each dedented line keeps its text and loses only indentation, an
    * empty line stays empty, every non-empty line loses at least the
    * least indentation and one of them loses all of it. */
  lemma DedentedLinesMeaning(lines: seq<string>, tabstop: nat)
    ensures forall k :: 0 <= k < |lines| ==>
              KeepsText(lines[k], DedentedLines(lines, tabstop)[k]) &&
              (lines[k] == [] ==> DedentedLines(lines, tabstop)[k] == [])
    ensures Least(lines, tabstop).Some? ==>
              (forall k :: 0 <= k < |lines| && lines[k] != [] ==>
                 Indent(lines[k], tabstop) - Indent(DedentedLines(lines, tabstop)[k], tabstop) >= Least(lines, tabstop).value) &&
              exists k :: 0 <= k < |lines| && lines[k] != [] && Indent(DedentedLines(lines, tabstop)[k], tabstop) == 0
  {
    var ded := DedentedLines(lines, tabstop);
    var cut := if Least(lines, tabstop).Some? then Least(lines, tabstop).value else 0;
    forall k | 0 <= k < |lines|
      ensures KeepsText(lines[k], ded[k])
      ensures Indent(lines[k], tabstop) >= cut ==> Indent(lines[k], tabstop) - Indent(ded[k], tabstop) >= cut
      ensures Indent(lines[k], tabstop) <= cut ==> Indent(ded[k], tabstop) == 0
    {
      DedentMeaning(lines[k], cut, tabstop);
    }
    LeastMeaning(lines, tabstop);
  }

  /** A piece kept from a line holds no character the line lacks. */
  lemma KeptAvoids(line: string, out: string, c: char)
    requires KeepsText(line, out) && c !in line
    ensures c !in out
  {
    forall j | 0 <= j < |out| ensures out[j] != c {
      assert out[j] == line[|line| - |out| + j];
    }
  }

  /** The stripped docstring holds no carriage return, and its lines are
    * exactly the docstring's lines dedented. */
  lemma StrippedDocstringMeaning(doc: string, tabstop: nat)
    ensures '\r' !in StrippedDocstring(doc, tabstop)
    ensures Filesys.Split(StrippedDocstring(doc, tabstop), '\n') == DedentedLines(DocLines(doc), tabstop)
  {
    var lines := DocLines(doc);
    var ded := DedentedLines(lines, tabstop);
    DedentedLinesMeaning(lines, tabstop);
    forall k | 0 <= k < |ded| ensures '\n' !in ded[k] && '\r' !in ded[k] {
      KeptAvoids(lines[k], ded[k], '\n');
      KeptAvoids(lines[k], ded[k], '\r');
    }
    Filesys.SplitJoin(ded, '\n');
    JoinAvoids(ded, '\n', '\r');
  }

  /** The first loop of `strip_docstring`: the least indentation of the
    * non-empty lines (common/commandtool/__init__.py:262-271). */
  method LeastIndent(lines: seq<string>, tabstop: nat) returns (least: Option<nat>)
    ensures least == Least(lines, tabstop)
  {
    least := None;
    var k := 0;
    while k < |lines|
      invariant 0 <= k <= |lines|
      invariant least == Least(lines[..k], tabstop)
    {
      assert lines[..k + 1][..k] == lines[..k];
      if lines[k] != [] {
        var chars := IndentOf(lines[k], tabstop);
        if least.None? || chars < least.value {
          least := Some(chars);
        }
      }
      k := k + 1;
    }
    assert lines[..k] == lines;
  }

  /** `strip_docstring`, loop by loop: the least indentation of the
    * non-empty lines, then each line with it removed
    * (common/commandtool/__init__.py:253-280). */
  method StripDocstring(doc: string, tabstop: nat) returns (r: string)
    ensures r == StrippedDocstring(doc, tabstop)
  {
    var lines := DocLines(doc);
    var least := LeastIndent(lines, tabstop);
    var cut := if least.Some? then least.value else 0;
    ghost var want := DedentedLines(lines, tabstop);
    var final: seq<string> := [];
    var k := 0;
    while k < |lines|
      invariant 0 <= k <= |lines|
      invariant final == want[..k]
    {
      assert want[..k + 1] == want[..k] + [want[k]];
      if lines[k] == [] {
        final := final + [[]];
      } else {
        final := final + [Dedent(lines[k], cut, tabstop)];
      }
      k := k + 1;
    }
    assert want[..k] == want;
    r := Filesys.Join(final, '\n');
  }

  /** Replacing a character that does not occur changes nothing. */
  lemma ReplaceAbsent(s: string, c: char, rep: string)
    requires c !in s
    ensures Replace(s, [c], rep) == s
  {
    forall k | 0 <= k < |s| ensures !OccursAt(s, [c], k) {
      assert s[k] != c;
    }
  }

  /** A line indented by one tab loses its text as written, where the
    * intended result keeps it. */
  lemma TabIndentedLineLost()
    ensures StripDocstringAsWritten("\tab", 4) == ""
    ensures StrippedDocstring("\tab", 4) == "ab"
  {
    ReplaceAbsent("\tab", '\r', "\n");
    assert '\n' !in "\tab";
    assert Filesys.Split("\tab", '\n') == ["\tab"];
    assert Indent("\tab", 4) == 4 by {
      assert "\tab"[1..] == "ab";
      assert Indent("ab", 4) == 0;
    }
    assert LeastAsWritten(["\tab"], 4, 3) == 3 by {
      assert ["\tab"][..0] == [];
    }
    assert Least(["\tab"], 4) == Some(4) by {
      assert ["\tab"][..0] == [];
    }
    assert Dedent("\tab", 4, 4) == "ab";
    assert DedentedLines(["\tab"], 4) == ["ab"];
  }

  // ------------------------------------------------------------------
  // Parsed options: metavars, positions and names
  // ------------------------------------------------------------------

  /** An option as the command line used it: the name it was given by,
    * its metavar when it takes a value, the value (empty for a flag) and
    * its position among the options used. */
  datatype Used = Used(name: string, metavar: Option<string>, value: string, pos: nat)

  /** The options of a dictionary of option lists, in iteration order. */
  function UsedIn(items: seq<(string, seq<Used>)>): (r: seq<Used>)
  {
    if items == [] then [] else UsedIn(items[..|items| - 1]) + items[|items| - 1].1
  }

  /** The options of a list of option-set dictionaries, in order. */
  function AllUsed(sets: seq<seq<(string, seq<Used>)>>): seq<Used>
  {
    if sets == [] then [] else AllUsed(sets[..|sets| - 1]) + UsedIn(sets[|sets| - 1])
  }

  /** One option of `extract_metavars` as written: the dictionary is
    * only written inside the branch that finds the metavar already
    * present (common/commandtool/__init__.py:238-250). */
  function MetavarStepAsWritten(mv: map<string, (string, string)>, o: Used): Result<map<string, (string, string)>>
  {
    if o.metavar.None? || o.metavar.value !in mv then Ok(mv)
    else if mv[o.metavar.value].1 != o.value then Err("GetoptError")
    else Ok(mv[o.metavar.value := (o.name, o.value)])
  }

  /** `extract_metavars` as written, over the options in order
    * (common/commandtool/__init__.py:233-251). */
  function ExtractMetavarsAsWritten(opts: seq<Used>): Result<map<string, (string, string)>>
  {
    if opts == [] then Ok(map[])
    else
      var mv :- ExtractMetavarsAsWritten(opts[..|opts| - 1]);
      MetavarStepAsWritten(mv, opts[|opts| - 1])
  }

  /** As written, nothing is ever recorded: the result is always empty
    * and conflicting values are never reported. */
  lemma {:induction false} MetavarsAsWrittenEmpty(opts: seq<Used>)
    ensures ExtractMetavarsAsWritten(opts) == Ok(map[])
  {
    if opts != [] {
      MetavarsAsWrittenEmpty(opts[..|opts| - 1]);
    }
  }

  /** Two options that share a metavar but were given different values. */
  predicate Conflict(opts: seq<Used>, i: nat, j: nat)
    requires i < |opts| && j < |opts|
  {
    opts[i].metavar.Some? && opts[i].metavar == opts[j].metavar && opts[i].value != opts[j].value
  }

  /** Two options that share a metavar with different values, e.g.
    * `-d X` and `--dir Y` for the same `DIR`, pass unreported as written. */
  lemma ConflictUnreported()
    ensures var opts := [Used("-d", Some("DIR"), "X", 0), Used("--dir", Some("DIR"), "Y", 1)];
            Conflict(opts, 0, 1) && ExtractMetavarsAsWritten(opts).Ok?
  {
    MetavarsAsWrittenEmpty([Used("-d", Some("DIR"), "X", 0), Used("--dir", Some("DIR"), "Y", 1)]);
  }

  /** One option of `extract_metavars` as intended: a new metavar is
    * recorded with the option's name and value, and a metavar seen before
    * with a different value is a GetoptError. */
  function MetavarStep(mv: map<string, (string, string)>, o: Used): Result<map<string, (string, string)>>
  {
    if o.metavar.None? then Ok(mv)
    else if o.metavar.value !in mv then Ok(mv[o.metavar.value := (o.name, o.value)])
    else if mv[o.metavar.value].1 != o.value then Err("GetoptError")
    else Ok(mv)
  }

  /** `extract_metavars` as intended, over the options in order. */
  function ExtractMetavars(opts: seq<Used>): Result<map<string, (string, string)>>
  {
    if opts == [] then Ok(map[])
    else
      var mv :- ExtractMetavars(opts[..|opts| - 1]);
      MetavarStep(mv, opts[|opts| - 1])
  }

  /** The first option, before `n`, that uses metavar `m`. */
  function FirstWith(opts: seq<Used>, m: string, n: nat): (k: Option<nat>)
    requires n <= |opts|
    ensures k.Some? ==> k.value < n && opts[k.value].metavar == Some(m) &&
                        forall j :: 0 <= j < k.value ==> opts[j].metavar != Some(m)
    ensures k.None? ==> forall j :: 0 <= j < n ==> opts[j].metavar != Some(m)
  {
    if n == 0 then None
    else
      var k := FirstWith(opts, m, n - 1);
      if k.Some? then k else if opts[n - 1].metavar == Some(m) then Some(n - 1) else None
  }

  /** The intended extraction fails exactly when two options conflict;
    * otherwise each metavar used is recorded with the name and value of
    * the first option that used it. */
  lemma {:induction false} ExtractMetavarsMeaning(opts: seq<Used>)
    ensures ExtractMetavars(opts).Err? <==> exists i, j :: 0 <= i < j < |opts| && Conflict(opts, i, j)
    ensures ExtractMetavars(opts).Ok? ==>
              var mv := ExtractMetavars(opts).value;
              (forall m :: m in mv <==> FirstWith(opts, m, |opts|).Some?) &&
              (forall m :: m in mv ==> var k := FirstWith(opts, m, |opts|).value;
                                       mv[m] == (opts[k].name, opts[k].value))
  {
    if opts != [] {
      var n := |opts| - 1;
      var init := opts[..n];
      var o := opts[n];
      ExtractMetavarsMeaning(init);
      forall k | 0 <= k < n ensures init[k] == opts[k] { }
      forall m ensures FirstWith(opts, m, n) == FirstWith(init, m, n) {
        FirstWithPrefix(opts, init, m, n);
      }
      if ExtractMetavars(init).Ok? {
        var mv := ExtractMetavars(init).value;
        if ExtractMetavars(opts).Err? {
          var k := FirstWith(opts, o.metavar.value, n).value;
          assert Conflict(opts, k, n);
        } else {
          forall i, j | 0 <= i < j < |opts| ensures !Conflict(opts, i, j) {
            if j == n && o.metavar.Some? && opts[i].metavar == o.metavar {
              var m := o.metavar.value;
              var k := FirstWith(init, m, n).value;
              assert m in mv && mv[m] == (init[k].name, init[k].value);
              if k < i {
                assert !Conflict(init, k, i);
              }
              assert opts[i].value == o.value;
            } else if j < n {
              assert !Conflict(init, i, j);
            }
          }
        }
      } else {
        var i, j :| 0 <= i < j < |init| && Conflict(init, i, j);
        assert Conflict(opts, i, j);
      }
    }
  }

  /** Looking for the first user of a metavar sees only the options it
    * scans. */
  lemma {:induction false} FirstWithPrefix(opts: seq<Used>, init: seq<Used>, m: string, n: nat)
    requires n <= |init| && n <= |opts| && forall k :: 0 <= k < n ==> init[k] == opts[k]
    ensures FirstWith(opts, m, n) == FirstWith(init, m, n)
  {
    if n > 0 {
      FirstWithPrefix(opts, init, m, n - 1);
    }
  }

  /** The keys of a dictionary's items are distinct. */
  predicate DistinctKeys<V>(items: seq<(string, V)>)
  {
    forall j, k :: 0 <= j < k < |items| ==> items[j].0 != items[k].0
  }

  /** The positions of the options kept under allowed keys
    * (common/commandtool/__init__.py:296-300). */
  function AllowedPositions(items: seq<(string, seq<Used>)>, allowed: set<string>): seq<nat>
  {
    if items == [] then []
    else
      var last := items[|items| - 1];
      AllowedPositions(items[..|items| - 1], allowed) +
        (if last.0 in allowed then seq(|last.1|, i requires 0 <= i < |last.1| => last.1[i].pos) else [])
  }

  /** A position is allowed exactly when an option under an allowed key
    * has it. */
  lemma {:induction false} AllowedPositionsMeaning(items: seq<(string, seq<Used>)>, allowed: set<string>, p: nat)
    ensures p in AllowedPositions(items, allowed) <==>
              exists j, i :: 0 <= j < |items| && 0 <= i < |items[j].1| && items[j].0 in allowed && items[j].1[i].pos == p
  {
    if items != [] {
      var init := items[..|items| - 1];
      var last := items[|items| - 1];
      AllowedPositionsMeaning(init, allowed, p);
      if p in AllowedPositions(items, allowed) && p !in AllowedPositions(init, allowed) {
        var i :| 0 <= i < |last.1| && last.1[i].pos == p;
        assert items[|items| - 1].1[i].pos == p;
      }
      if exists j, i :: 0 <= j < |items| && 0 <= i < |items[j].1| && items[j].0 in allowed && items[j].1[i].pos == p {
        var j, i :| 0 <= j < |items| && 0 <= i < |items[j].1| && items[j].0 in allowed && items[j].1[i].pos == p;
        if j < |init| {
          assert init[j] == items[j];
        } else {
          var ps := seq(|last.1|, i requires 0 <= i < |last.1| => last.1[i].pos);
          assert ps[i] == p;
        }
      }
    }
  }

  /** What `set_error_on` keeps for an option: its value when it takes
    * one, otherwise `True`. */
  datatype Setting = Flag | Given(value: string)

  function SettingOf(u: Used): Setting
  {
    if u.metavar.Some? then Given(u.value) else Flag
  }

  /** The options of one key in turn: each must sit at an allowed
    * position, and each overwrites the key's setting
    * (common/commandtool/__init__.py:303-311). */
  function SettleUses(vars: map<string, Setting>, key: string, vs: seq<Used>, valid: seq<nat>): (r: Result<map<string, Setting>>)
  {
    if vs == [] then Ok(vars)
    else
      var prev :- SettleUses(vars, key, vs[..|vs| - 1], valid);
      var v := vs[|vs| - 1];
      if v.pos !in valid then Err("GetoptError") else Ok(prev[key := SettingOf(v)])
  }

  /** One key's options succeed exactly when every position is allowed,
    * and then only that key changes, to the setting of its last option. */
  lemma {:induction false} SettleUsesMeaning(vars: map<string, Setting>, key: string, vs: seq<Used>, valid: seq<nat>)
    ensures SettleUses(vars, key, vs, valid).Ok? <==> forall i :: 0 <= i < |vs| ==> vs[i].pos in valid
    ensures SettleUses(vars, key, vs, valid).Ok? ==>
              SettleUses(vars, key, vs, valid).value == if vs == [] then vars else vars[key := SettingOf(vs[|vs| - 1])]
  {
    if vs != [] {
      var init := vs[..|vs| - 1];
      SettleUsesMeaning(vars, key, init, valid);
      forall i | 0 <= i < |init| ensures init[i] == vs[i] { }
    }
  }

  /** Every key's options in turn (common/commandtool/__init__.py:301-312). */
  function Settle(items: seq<(string, seq<Used>)>, valid: seq<nat>): Result<map<string, Setting>>
  {
    if items == [] then Ok(map[])
    else
      var prev :- Settle(items[..|items| - 1], valid);
      var last := items[|items| - 1];
      SettleUses(prev, last.0, last.1, valid)
  }

  /** `set_error_on`: the options under allowed keys fix the allowed
    * positions; an option at any other position is a GetoptError; each
    * key with options gets the setting of its last one
    * (common/commandtool/__init__.py:292-312). */
  function SetErrorOn(items: seq<(string, seq<Used>)>, allowed: set<string>): Result<map<string, Setting>>
  {
    Settle(items, AllowedPositions(items, allowed))
  }

  /** Settling fails exactly when an option is at a position not in
    * `valid`. */
  lemma {:induction false} SettleSucceeds(items: seq<(string, seq<Used>)>, valid: seq<nat>)
    ensures Settle(items, valid).Ok? <==>
              forall j, i :: 0 <= j < |items| && 0 <= i < |items[j].1| ==> items[j].1[i].pos in valid
  {
    if items != [] {
      var n := |items| - 1;
      var init := items[..n];
      SettleSucceeds(init, valid);
      forall j | 0 <= j < n ensures init[j] == items[j] { }
      if Settle(init, valid).Ok? {
        SettleUsesMeaning(Settle(init, valid).value, items[n].0, items[n].1, valid);
      } else {
        var j, i :| 0 <= j < n && 0 <= i < |init[j].1| && init[j].1[i].pos !in valid;
        assert items[j].1[i].pos !in valid;
      }
    }
  }

  /** After settling, each key with options holds the setting of its
    * last one, and no other key is present. */
  lemma {:induction false} SettleSettings(items: seq<(string, seq<Used>)>, valid: seq<nat>)
    requires DistinctKeys(items) && Settle(items, valid).Ok?
    ensures var vars := Settle(items, valid).value;
            (forall j :: 0 <= j < |items| && items[j].1 != [] ==>
               items[j].0 in vars && vars[items[j].0] == SettingOf(items[j].1[|items[j].1| - 1])) &&
            (forall key :: key in vars ==> exists j :: 0 <= j < |items| && items[j].0 == key && items[j].1 != [])
  {
    if items != [] {
      var n := |items| - 1;
      var init := items[..n];
      var last := items[n];
      var prev := Settle(init, valid).value;
      var vars := Settle(items, valid).value;
      assert DistinctKeys(init) by {
        forall j, k | 0 <= j < k < n ensures init[j].0 != init[k].0 {
          assert init[j] == items[j] && init[k] == items[k];
        }
      }
      SettleSettings(init, valid);
      SettleUsesMeaning(prev, last.0, last.1, valid);
      forall j | 0 <= j < n && items[j].1 != []
        ensures items[j].0 in vars && vars[items[j].0] == SettingOf(items[j].1[|items[j].1| - 1])
      {
        assert init[j] == items[j];
      }
      forall key | key in vars ensures exists j :: 0 <= j < |items| && items[j].0 == key && items[j].1 != [] {
        if key in prev {
          var j :| 0 <= j < |init| && init[j].0 == key && init[j].1 != [];
          assert items[j].0 == key && items[j].1 != [];
        } else {
          assert items[n].0 == key && items[n].1 != [];
        }
      }
    }
  }

  /** No two options share a position. */
  predicate UniquePositions(items: seq<(string, seq<Used>)>)
  {
    forall j1, i1, j2, i2 ::
      (0 <= j1 < |items| && 0 <= i1 < |items[j1].1| && 0 <= j2 < |items| && 0 <= i2 < |items[j2].1| &&
       items[j1].1[i1].pos == items[j2].1[i2].pos) ==> j1 == j2 && i1 == i2
  }

  /** As the comment in the source reasons: with positions unique,
    * `set_error_on` fails exactly when a key that is not allowed has
    * options (common/commandtool/__init__.py:293-295). */
  lemma SetErrorOnUnique(items: seq<(string, seq<Used>)>, allowed: set<string>)
    requires DistinctKeys(items) && UniquePositions(items)
    ensures SetErrorOn(items, allowed).Ok? <==>
              forall j :: 0 <= j < |items| && items[j].1 != [] ==> items[j].0 in allowed
  {
    var valid := AllowedPositions(items, allowed);
    SettleSucceeds(items, valid);
    forall j, i | 0 <= j < |items| && 0 <= i < |items[j].1|
      ensures items[j].1[i].pos in valid <==> items[j].0 in allowed
    {
      AllowedPositionsMeaning(items, allowed, items[j].1[i].pos);
    }
    if !SetErrorOn(items, allowed).Ok? {
      var j, i :| 0 <= j < |items| && 0 <= i < |items[j].1| && items[j].1[i].pos !in valid;
      assert items[j].1 != [] && items[j].0 !in allowed;
    } else {
      forall j | 0 <= j < |items| && items[j].1 != [] ensures items[j].0 in allowed {
        assert items[j].1[0].pos in valid;
      }
    }
  }

  // ------------------------------------------------------------------
  // The option table
  // ------------------------------------------------------------------

  /** An option as configured: its short and long spellings, its type
    * ('shared', 'program' or 'command') and its metavar when it takes a
    * value. */
  datatype OptionSpec = OptionSpec(short: seq<string>, long: seq<string>, kind: string, metavar: Option<string>)

  /** Every short then every long name of each option, in order. */
  function OptionNames(opts: seq<OptionSpec>): seq<string>
  {
    if opts == [] then [] else OptionNames(opts[..|opts| - 1]) + opts[|opts| - 1].short + opts[|opts| - 1].long
  }

  /** A name is listed exactly when some option is spelt that way. */
  lemma {:induction false} OptionNamesMeaning(opts: seq<OptionSpec>, x: string)
    ensures x in OptionNames(opts) <==> exists k :: 0 <= k < |opts| && (x in opts[k].short || x in opts[k].long)
  {
    if opts != [] {
      var init := opts[..|opts| - 1];
      OptionNamesMeaning(init, x);
      if exists k :: 0 <= k < |opts| && (x in opts[k].short || x in opts[k].long) {
        var k :| 0 <= k < |opts| && (x in opts[k].short || x in opts[k].long);
        if k < |init| {
          assert init[k] == opts[k];
        }
      }
      if x in OptionNames(init) {
        var k :| 0 <= k < |init| && (x in init[k].short || x in init[k].long);
        assert init[k] == opts[k];
      }
    }
  }

  /** `option_names_from_option_list`: the names appended one by one
    * (common/commandtool/__init__.py:283-290). */
  method OptionNamesFromList(opts: seq<OptionSpec>) returns (names: seq<string>)
    ensures names == OptionNames(opts)
  {
    names := [];
    var k := 0;
    while k < |opts|
      invariant 0 <= k <= |opts|
      invariant names == OptionNames(opts[..k])
    {
      assert opts[..k + 1][..k] == opts[..k];
      var i := 0;
      while i < |opts[k].short|
        invariant 0 <= i <= |opts[k].short|
        invariant names == OptionNames(opts[..k]) + opts[k].short[..i]
      {
        assert opts[k].short[..i + 1] == opts[k].short[..i] + [opts[k].short[i]];
        names := names + [opts[k].short[i]];
        i := i + 1;
      }
      assert opts[k].short[..i] == opts[k].short;
      i := 0;
      while i < |opts[k].long|
        invariant 0 <= i <= |opts[k].long|
        invariant names == OptionNames(opts[..k]) + opts[k].short + opts[k].long[..i]
      {
        assert opts[k].long[..i + 1] == opts[k].long[..i] + [opts[k].long[i]];
        names := names + [opts[k].long[i]];
        i := i + 1;
      }
      assert opts[k].long[..i] == opts[k].long;
      k := k + 1;
    }
    assert opts[..k] == opts;
  }

  /** `s.lstrip(cs)`. */
  function LStrip(s: string, cs: set<char>): string
  {
    if s != [] && s[0] in cs then LStrip(s[1..], cs) else s
  }

  /** `s.rstrip(cs)`. */
  function RStrip(s: string, cs: set<char>): string
  {
    if s != [] && s[|s| - 1] in cs then RStrip(s[..|s| - 1], cs) else s
  }

  /** `s.strip(cs)`. */
  function StripChars(s: string, cs: set<char>): string
  {
    RStrip(LStrip(s, cs), cs)
  }

  /** The steps of checking the option table, in the order of the loops
    * (common/commandtool/__init__.py:436-480): an internal name, the type
    * of one of its options, then each short and each long spelling. */
  datatype Event =
    | Internal(name: string)
    | Kind(kind: string)
    | ShortName(raw: string, spec: OptionSpec, internal: string)
    | LongName(raw: string, spec: OptionSpec, internal: string)

  /** The `by_option` key a spelling registers: the short spelling without
    * ':' at either end, the long one without '='. */
  function KeyOf(e: Event): string
    requires e.ShortName? || e.LongName?
  {
    if e.ShortName? then StripChars(e.raw, {':'}) else StripChars(e.raw, {'='})
  }

  function OptionEvents(o: OptionSpec, internal: string): seq<Event>
  {
    [Kind(o.kind)] + seq(|o.short|, i requires 0 <= i < |o.short| => ShortName(o.short[i], o, internal))
                   + seq(|o.long|, i requires 0 <= i < |o.long| => LongName(o.long[i], o, internal))
  }

  function ListEvents(opts: seq<OptionSpec>, internal: string): seq<Event>
  {
    if opts == [] then [] else ListEvents(opts[..|opts| - 1], internal) + OptionEvents(opts[|opts| - 1], internal)
  }

  /** The steps for a dictionary of option lists, in iteration order. */
  function Events(items: seq<(string, seq<OptionSpec>)>): seq<Event>
  {
    if items == [] then []
    else
      var last := items[|items| - 1];
      Events(items[..|items| - 1]) + [Internal(last.0)] + ListEvents(last.1, last.0)
  }

  /** An entry of `by_option`: the option, its internal name and the
    * spelling it was registered under. */
  datatype Entry = Entry(spec: OptionSpec, internal: string, name: string)

  /** The `getopt` arguments built so far, the options by spelling and
    * the internal names seen. */
  datatype Table = Table(shortOptions: string, longOptions: seq<string>, byOption: map<string, Entry>, usedInternal: seq<string>)

  const Kinds := {"shared", "program", "command"}

  /** One step of the check; every failure is an
    * OptionConfigurationError (common/commandtool/__init__.py:437-480). */
  function TableStep(t: Table, e: Event): Result<Table>
  {
    match e
    case Internal(n) =>
      if n in t.usedInternal then Err("OptionConfigurationError")
      else Ok(t.(usedInternal := t.usedInternal + [n]))
    case Kind(k) =>
      if k !in Kinds then Err("OptionConfigurationError") else Ok(t)
    case ShortName(raw, o, internal) =>
      var key := StripChars(raw, {':'});
      var text := StripChars(raw, {':', '-'}) + (if o.metavar.Some? then ":" else "");
      if key in t.byOption then Err("OptionConfigurationError")
      else Ok(t.(shortOptions := t.shortOptions + text, byOption := t.byOption[key := Entry(o, internal, key)]))
    case LongName(raw, o, internal) =>
      var key := StripChars(raw, {'='});
      var text := StripChars(raw, {'-', '='}) + (if o.metavar.Some? then "=" else "");
      if key in t.byOption then Err("OptionConfigurationError")
      else Ok(t.(longOptions := t.longOptions + [text], byOption := t.byOption[key := Entry(o, internal, key)]))
  }

  /** The check over the steps in order. */
  function CheckTable(es: seq<Event>): Result<Table>
  {
    if es == [] then Ok(Table("", [], map[], []))
    else
      var t :- CheckTable(es[..|es| - 1]);
      TableStep(t, es[|es| - 1])
  }

  /** The option table of `_parse_command_line`, checked before the
    * command line is read (common/commandtool/__init__.py:422-480). */
  function ConfigureOptions(items: seq<(string, seq<OptionSpec>)>): Result<Table>
  {
    CheckTable(Events(items))
  }

  /** The internal names among the steps. */
  function InternalNames(es: seq<Event>): seq<string>
  {
    if es == [] then []
    else InternalNames(es[..|es| - 1]) + (if es[|es| - 1].Internal? then [es[|es| - 1].name] else [])
  }

  /** The `by_option` keys among the steps. */
  function KeyNames(es: seq<Event>): seq<string>
  {
    if es == [] then []
    else
      var e := es[|es| - 1];
      KeyNames(es[..|es| - 1]) + (if e.ShortName? || e.LongName? then [KeyOf(e)] else [])
  }

  /** Appending to a list without duplicates keeps it without them
    * exactly when the element is new. */
  lemma DistinctSnoc(xs: seq<string>, x: string)
    ensures Distinct(xs + [x]) <==> Distinct(xs) && x !in xs
  {
    var ys := xs + [x];
    if Distinct(ys) {
      forall i, j | 0 <= i < j < |xs| ensures xs[i] != xs[j] {
        assert ys[i] == xs[i] && ys[j] == xs[j];
      }
      forall i | 0 <= i < |xs| ensures xs[i] != x {
        assert ys[i] == xs[i] && ys[|xs|] == x;
      }
    }
  }

  /** Every type among the steps is shared, program or command. */
  predicate KindsKnown(es: seq<Event>)
  {
    forall k :: 0 <= k < |es| && es[k].Kind? ==> es[k].kind in Kinds
  }

  lemma KindsKnownSnoc(es: seq<Event>)
    requires es != []
    ensures KindsKnown(es) <==>
              KindsKnown(es[..|es| - 1]) && (es[|es| - 1].Kind? ==> es[|es| - 1].kind in Kinds)
  {
    var init := es[..|es| - 1];
    forall k | 0 <= k < |init| ensures init[k] == es[k] { }
  }

  /** The check passes exactly when the internal names are distinct,
    * every type is known and no two spellings give the same key. */
  lemma {:induction false} CheckTableOk(es: seq<Event>)
    ensures CheckTable(es).Ok? <==> Distinct(InternalNames(es)) && Distinct(KeyNames(es)) && KindsKnown(es)
  {
    if es != [] {
      var init := es[..|es| - 1];
      var e := es[|es| - 1];
      CheckTableOk(init);
      CheckTableContents(init);
      KindsKnownSnoc(es);
      if e.Internal? {
        DistinctSnoc(InternalNames(init), e.name);
        assert KeyNames(es) == KeyNames(init);
      } else if e.ShortName? || e.LongName? {
        DistinctSnoc(KeyNames(init), KeyOf(e));
        assert InternalNames(es) == InternalNames(init);
      } else {
        assert KeyNames(es) == KeyNames(init);
        assert InternalNames(es) == InternalNames(init);
      }
    }
  }

  /** After a passing check the internal names are those of the steps
    * and `by_option` holds each key under its own name. */
  lemma {:induction false} CheckTableContents(es: seq<Event>)
    ensures CheckTable(es).Ok? ==>
              CheckTable(es).value.usedInternal == InternalNames(es) &&
              (forall x :: x in CheckTable(es).value.byOption <==> x in KeyNames(es)) &&
              (forall x :: x in CheckTable(es).value.byOption ==> CheckTable(es).value.byOption[x].name == x)
  {
    if es != [] {
      var init := es[..|es| - 1];
      var e := es[|es| - 1];
      CheckTableContents(init);
      if CheckTable(es).Ok? {
        if e.Internal? {
          assert KeyNames(es) == KeyNames(init);
        } else if e.ShortName? || e.LongName? {
          assert InternalNames(es) == InternalNames(init);
        } else {
          assert KeyNames(es) == KeyNames(init);
          assert InternalNames(es) == InternalNames(init);
        }
      }
    }
  }

  /** The internal names of a dictionary's items appear once each among
    * the steps, in order. */
  lemma {:induction false} InternalNamesOfItems(items: seq<(string, seq<OptionSpec>)>)
    ensures InternalNames(Events(items)) == seq(|items|, j requires 0 <= j < |items| => items[j].0)
  {
    if items != [] {
      var init := items[..|items| - 1];
      var last := items[|items| - 1];
      InternalNamesOfItems(init);
      NoInternalIn(last.1, last.0);
      InternalNamesAppend(Events(init) + [Internal(last.0)], ListEvents(last.1, last.0));
      InternalNamesAppend(Events(init), [Internal(last.0)]);
      assert [Internal(last.0)][..0] == [];
    }
  }

  lemma {:induction false} InternalNamesAppend(a: seq<Event>, b: seq<Event>)
    ensures InternalNames(a + b) == InternalNames(a) + InternalNames(b)
    decreases |b|
  {
    if b != [] {
      assert (a + b)[..|a + b| - 1] == a + b[..|b| - 1];
      InternalNamesAppend(a, b[..|b| - 1]);
    } else {
      assert a + b == a;
    }
  }

  lemma {:induction false} NoInternalIn(opts: seq<OptionSpec>, internal: string)
    ensures InternalNames(ListEvents(opts, internal)) == []
  {
    if opts != [] {
      NoInternalIn(opts[..|opts| - 1], internal);
      var os := OptionEvents(opts[|opts| - 1], internal);
      NoInternalAmong(os);
      InternalNamesAppend(ListEvents(opts[..|opts| - 1], internal), os);
    }
  }

  lemma {:induction false} NoInternalAmong(es: seq<Event>)
    requires forall k :: 0 <= k < |es| ==> !es[k].Internal?
    ensures InternalNames(es) == []
  {
    if es != [] {
      NoInternalAmong(es[..|es| - 1]);
    }
  }

  /** The options of a dictionary never fail the internal-name check:
    * the table is accepted exactly when every type is known and no two
    * spellings give the same key (common/commandtool/__init__.py:437-444). */
  lemma DictionaryOptionsMeaning(items: seq<(string, seq<OptionSpec>)>)
    requires DistinctKeys(items)
    ensures var es := Events(items);
            ConfigureOptions(items).Ok? <==> Distinct(KeyNames(es)) && KindsKnown(es)
  {
    InternalNamesOfItems(items);
    CheckTableOk(Events(items));
  }

  // ------------------------------------------------------------------
  // Grouping the parsed options
  // ------------------------------------------------------------------

  /** The option `getopt` returned at position k, with its value and
    * position, as recorded under its internal name. */
  function UseAt(byOption: map<string, Entry>, opts: seq<(string, string)>, k: nat): Used
    requires k < |opts| && opts[k].0 in byOption
  {
    var e := byOption[opts[k].0];
    Used(e.name, e.spec.metavar, opts[k].1, k)
  }

  /** The internal name of the option at position k. */
  function InternalAt(byOption: map<string, Entry>, opts: seq<(string, string)>, k: nat): string
    requires k < |opts| && opts[k].0 in byOption
  {
    byOption[opts[k].0].internal
  }

  /** The parsed options whose type is in `kinds`, grouped by internal
    * name in command-line order, each with its value and position
    * (common/commandtool/__init__.py:487-501, 528-542). */
  function Group(byOption: map<string, Entry>, opts: seq<(string, string)>, kinds: set<string>): map<string, seq<Used>>
    requires forall k :: 0 <= k < |opts| ==> opts[k].0 in byOption
  {
    if opts == [] then map[]
    else
      var n := |opts| - 1;
      var prev := Group(byOption, opts[..n], kinds);
      var e := byOption[opts[n].0];
      if e.spec.kind !in kinds then prev
      else if e.internal in prev then prev[e.internal := prev[e.internal] + [UseAt(byOption, opts, n)]]
      else prev[e.internal := [UseAt(byOption, opts, n)]]
  }

  /** Whether the option at position k has a type in `kinds`. */
  predicate KindAt(byOption: map<string, Entry>, opts: seq<(string, string)>, k: nat, kinds: set<string>)
    requires k < |opts| && opts[k].0 in byOption
  {
    byOption[opts[k].0].spec.kind in kinds
  }

  /** The grouping loop, with its position counter. */
  method GroupOptions(byOption: map<string, Entry>, opts: seq<(string, string)>, kinds: set<string>)
    returns (groups: map<string, seq<Used>>)
    requires forall k :: 0 <= k < |opts| ==> opts[k].0 in byOption
    ensures groups == Group(byOption, opts, kinds)
  {
    groups := map[];
    var counter := 0;
    while counter < |opts|
      invariant 0 <= counter <= |opts|
      invariant groups == Group(byOption, opts[..counter], kinds)
    {
      assert opts[..counter + 1][..counter] == opts[..counter];
      var e := byOption[opts[counter].0];
      if e.spec.kind in kinds {
        var u := Used(e.name, e.spec.metavar, opts[counter].1, counter);
        if e.internal in groups {
          groups := groups[e.internal := groups[e.internal] + [u]];
        } else {
          groups := groups[e.internal := [u]];
        }
      }
      counter := counter + 1;
    }
    assert opts[..counter] == opts;
  }

  /** `u` records the option at its own position, which has a type in
    * `kinds` and internal name `x`. */
  predicate Recorded(byOption: map<string, Entry>, opts: seq<(string, string)>, kinds: set<string>, x: string, u: Used)
  {
    u.pos < |opts| && opts[u.pos].0 in byOption && byOption[opts[u.pos].0].spec.kind in kinds &&
    byOption[opts[u.pos].0].internal == x && u == UseAt(byOption, opts, u.pos)
  }

  lemma RecordedExtends(byOption: map<string, Entry>, opts: seq<(string, string)>, n: nat, kinds: set<string>, x: string, u: Used)
    requires n <= |opts| && Recorded(byOption, opts[..n], kinds, x, u)
    ensures Recorded(byOption, opts, kinds, x, u)
  {
    assert opts[..n][u.pos] == opts[u.pos];
  }

  /** Every entry of a group records an option of that internal name
    * whose type is in `kinds`. */
  lemma {:induction false} GroupEntries(byOption: map<string, Entry>, opts: seq<(string, string)>, kinds: set<string>)
    requires forall k :: 0 <= k < |opts| ==> opts[k].0 in byOption
    ensures forall x, j :: x in Group(byOption, opts, kinds) && 0 <= j < |Group(byOption, opts, kinds)[x]| ==> Recorded(byOption, opts, kinds, x, Group(byOption, opts, kinds)[x][j])
  {
    if opts != [] {
      var n := |opts| - 1;
      var init := opts[..n];
      GroupEntries(byOption, init, kinds);
      var prev: map<string, seq<Used>> := Group(byOption, init, kinds);
      var g: map<string, seq<Used>> := Group(byOption, opts, kinds);
      forall x, j | x in g && 0 <= j < |g[x]| ensures Recorded(byOption, opts, kinds, x, g[x][j]) {
        if x in prev && j < |prev[x]| {
          assert g[x][j] == prev[x][j];
          RecordedExtends(byOption, opts, n, kinds, x, prev[x][j]);
        } else {
          assert g[x][j] == UseAt(byOption, opts, n);
        }
      }
    }
  }

  /** A name has a group exactly when an option of that name with a type
    * in `kinds` was given. */
  lemma {:induction false} GroupKeys(byOption: map<string, Entry>, opts: seq<(string, string)>, kinds: set<string>)
    requires forall k :: 0 <= k < |opts| ==> opts[k].0 in byOption
    ensures forall x :: x in Group(byOption, opts, kinds) <==> exists k :: 0 <= k < |opts| && KindAt(byOption, opts, k, kinds) && InternalAt(byOption, opts, k) == x
  {
    if opts != [] {
      var n := |opts| - 1;
      var init := opts[..n];
      GroupKeys(byOption, init, kinds);
      var g: map<string, seq<Used>> := Group(byOption, opts, kinds);
      forall x ensures x in g <==> exists k :: 0 <= k < |opts| && KindAt(byOption, opts, k, kinds) && InternalAt(byOption, opts, k) == x {
        if exists k :: 0 <= k < |opts| && KindAt(byOption, opts, k, kinds) && InternalAt(byOption, opts, k) == x {
          var k :| 0 <= k < |opts| && KindAt(byOption, opts, k, kinds) && InternalAt(byOption, opts, k) == x;
          if k < n {
            assert init[k] == opts[k];
            assert KindAt(byOption, init, k, kinds) && InternalAt(byOption, init, k) == x;
            assert x in Group(byOption, init, kinds);
          }
          assert x in g;
        }
        if x in Group(byOption, init, kinds) {
          var k :| 0 <= k < n && KindAt(byOption, init, k, kinds) && InternalAt(byOption, init, k) == x;
          assert init[k] == opts[k];
          assert KindAt(byOption, opts, k, kinds) && InternalAt(byOption, opts, k) == x;
        } else if x in g {
          assert KindAt(byOption, opts, n, kinds) && InternalAt(byOption, opts, n) == x;
        }
      }
    }
  }

  /** Within a group the positions increase. */
  lemma {:induction false} GroupOrdered(byOption: map<string, Entry>, opts: seq<(string, string)>, kinds: set<string>)
    requires forall k :: 0 <= k < |opts| ==> opts[k].0 in byOption
    ensures forall x, i, j :: x in Group(byOption, opts, kinds) && 0 <= i < j < |Group(byOption, opts, kinds)[x]| ==> Group(byOption, opts, kinds)[x][i].pos < Group(byOption, opts, kinds)[x][j].pos
  {
    if opts != [] {
      var n := |opts| - 1;
      var init := opts[..n];
      GroupOrdered(byOption, init, kinds);
      GroupEntries(byOption, init, kinds);
      var prev: map<string, seq<Used>> := Group(byOption, init, kinds);
      var g: map<string, seq<Used>> := Group(byOption, opts, kinds);
      forall x, i, j | x in g && 0 <= i < j < |g[x]| ensures g[x][i].pos < g[x][j].pos {
        if x in prev && j < |prev[x]| {
          assert g[x][i] == prev[x][i] && g[x][j] == prev[x][j];
        } else {
          assert g[x][j].pos == n;
          assert g[x][i] == prev[x][i];
          assert Recorded(byOption, init, kinds, x, prev[x][i]);
        }
      }
    }
  }

  /** Every option with a type in `kinds` is recorded in its name's
    * group. */
  lemma {:induction false} GroupComplete(byOption: map<string, Entry>, opts: seq<(string, string)>, kinds: set<string>)
    requires forall k :: 0 <= k < |opts| ==> opts[k].0 in byOption
    ensures forall k :: 0 <= k < |opts| && KindAt(byOption, opts, k, kinds) ==>
              var x := InternalAt(byOption, opts, k);
              x in Group(byOption, opts, kinds) && exists j :: 0 <= j < |Group(byOption, opts, kinds)[x]| && Group(byOption, opts, kinds)[x][j].pos == k
  {
    if opts != [] {
      var n := |opts| - 1;
      var init := opts[..n];
      GroupComplete(byOption, init, kinds);
      var prev: map<string, seq<Used>> := Group(byOption, init, kinds);
      var g: map<string, seq<Used>> := Group(byOption, opts, kinds);
      forall k | 0 <= k < |opts| && KindAt(byOption, opts, k, kinds)
        ensures var x := InternalAt(byOption, opts, k); x in g && exists j :: 0 <= j < |g[x]| && g[x][j].pos == k
      {
        var x := InternalAt(byOption, opts, k);
        if k < n {
          assert init[k] == opts[k];
          assert KindAt(byOption, init, k, kinds) && InternalAt(byOption, init, k) == x;
          var j :| 0 <= j < |prev[x]| && prev[x][j].pos == k;
          assert g[x][j] == prev[x][j];
        } else {
          assert g[x][|g[x]| - 1].pos == k;
        }
      }
    }
  }

  /** A group holds exactly the options of its internal name whose type
    * is in `kinds`, each recorded with its own position, in command-line
    * order; a name has a group exactly when one such option was given. */
  lemma GroupMeaning(byOption: map<string, Entry>, opts: seq<(string, string)>, kinds: set<string>)
    requires forall k :: 0 <= k < |opts| ==> opts[k].0 in byOption
    ensures (forall x :: x in Group(byOption, opts, kinds) <==> exists k :: 0 <= k < |opts| && KindAt(byOption, opts, k, kinds) && InternalAt(byOption, opts, k) == x) &&
            (forall x, j :: x in Group(byOption, opts, kinds) && 0 <= j < |Group(byOption, opts, kinds)[x]| ==> Recorded(byOption, opts, kinds, x, Group(byOption, opts, kinds)[x][j])) &&
            (forall x, i, j :: x in Group(byOption, opts, kinds) && 0 <= i < j < |Group(byOption, opts, kinds)[x]| ==> Group(byOption, opts, kinds)[x][i].pos < Group(byOption, opts, kinds)[x][j].pos) &&
            (forall k :: 0 <= k < |opts| && KindAt(byOption, opts, k, kinds) ==>
               var x := InternalAt(byOption, opts, k);
               x in Group(byOption, opts, kinds) && exists j :: 0 <= j < |Group(byOption, opts, kinds)[x]| && Group(byOption, opts, kinds)[x][j].pos == k)
  {
    GroupKeys(byOption, opts, kinds);
    GroupEntries(byOption, opts, kinds);
    GroupOrdered(byOption, opts, kinds);
    GroupComplete(byOption, opts, kinds);
  }

  /** Without a command only shared and program options may be given
    * (common/commandtool/__init__.py:482-506). */
  function NoCommandOptions(byOption: map<string, Entry>, opts: seq<(string, string)>): (r: Result<map<string, seq<Used>>>)
    requires forall k :: 0 <= k < |opts| ==> opts[k].0 in byOption
    ensures r.Err? <==> exists k :: 0 <= k < |opts| && byOption[opts[k].0].spec.kind == "command"
    ensures r.Err? ==> r.error == "GetoptError"
  {
    if exists k :: 0 <= k < |opts| && byOption[opts[k].0].spec.kind == "command" then Err("GetoptError")
    else Ok(Group(byOption, opts, {"shared", "program"}))
  }

  /** Every parsed option lands in exactly one of the three type groups
    * (common/commandtool/__init__.py:524-542). */
  lemma TypeGroupsPartition(byOption: map<string, Entry>, opts: seq<(string, string)>, k: nat)
    requires forall k :: 0 <= k < |opts| ==> opts[k].0 in byOption
    requires forall e :: e in byOption.Values ==> e.spec.kind in Kinds
    requires k < |opts|
    ensures var x := InternalAt(byOption, opts, k);
            var found := (kind: string) =>
              var g := Group(byOption, opts, {kind});
              x in g && exists j :: 0 <= j < |g[x]| && g[x][j].pos == k;
            (found("program") || found("command") || found("shared")) &&
            !(found("program") && found("command")) && !(found("program") && found("shared")) &&
            !(found("command") && found("shared"))
  {
    var kind := byOption[opts[k].0].spec;
    assert byOption[opts[k].0] in byOption.Values;
    GroupComplete(byOption, opts, {kind.kind});
    GroupEntries(byOption, opts, {"program"});
    GroupEntries(byOption, opts, {"command"});
    GroupEntries(byOption, opts, {"shared"});
  }

  /** `parse_command_line`: the program and command options found are
    * checked together for metavars given conflicting values, the result
    * being ignored (common/commandtool/__init__.py:411-420). As written
    * the check never fails; as intended it fails exactly on a conflict
    * among them. */
  lemma ParsedMetavarsChecked(programOpts: seq<(string, seq<Used>)>, commandOpts: seq<(string, seq<Used>)>)
    ensures AllUsed([programOpts, commandOpts]) == UsedIn(programOpts) + UsedIn(commandOpts)
    ensures ExtractMetavarsAsWritten(AllUsed([programOpts, commandOpts])).Ok?
    ensures var all := AllUsed([programOpts, commandOpts]);
            ExtractMetavars(all).Err? <==> exists i, j :: 0 <= i < j < |all| && Conflict(all, i, j)
  {
    var sets := [programOpts, commandOpts];
    assert sets[..1] == [programOpts] && [programOpts][..0] == [];
    assert [] + UsedIn(programOpts) == UsedIn(programOpts);
    assert AllUsed([programOpts]) == UsedIn(programOpts);
    MetavarsAsWrittenEmpty(AllUsed(sets));
    ExtractMetavarsMeaning(AllUsed(sets));
  }

  // ------------------------------------------------------------------
  // Resolving the command
  // ------------------------------------------------------------------

  /** The loop over the aliases as written: an entry named like the
    * command ends it, while a matching alias only ends the inner loop,
    * so a later match replaces an earlier one
    * (common/commandtool/__init__.py:509-518). */
  function ScanAliases(orig: string, aliases: seq<(string, seq<string>)>, command: Option<string>): Option<string>
  {
    if aliases == [] then command
    else if aliases[0].0 == orig then Some(orig)
    else ScanAliases(orig, aliases[1..], if orig in aliases[0].1 then Some(aliases[0].0) else command)
  }

  /** The command named on the command line, by name or alias; an
    * unknown one (or an empty name) is a GetoptError
    * (common/commandtool/__init__.py:507-522). */
  function ResolveCommand(orig: string, aliases: seq<(string, seq<string>)>): Result<string>
  {
    var c := ScanAliases(orig, aliases, None);
    if c.None? || c.value == "" then Err("GetoptError") else Ok(c.value)
  }

  /** The command found is an entry named like the word given or having
    * it as an alias; when every name is non-empty, the word is rejected
    * exactly when no entry is named or aliased so. */
  lemma {:induction false} ResolveCommandMeaning(orig: string, aliases: seq<(string, seq<string>)>)
    ensures var r := ResolveCommand(orig, aliases);
            r.Ok? ==> exists k :: 0 <= k < |aliases| && aliases[k].0 == r.value && (r.value == orig || orig in aliases[k].1)
    ensures (forall k :: 0 <= k < |aliases| ==> aliases[k].0 != "") ==>
              (ResolveCommand(orig, aliases).Err? <==> forall k :: 0 <= k < |aliases| ==> aliases[k].0 != orig && orig !in aliases[k].1)
  {
    ScanMeaning(orig, aliases, None);
  }

  lemma {:induction false} ScanMeaning(orig: string, aliases: seq<(string, seq<string>)>, command: Option<string>)
    ensures var c := ScanAliases(orig, aliases, command);
            c.None? <==> command.None? && forall k :: 0 <= k < |aliases| ==> aliases[k].0 != orig && orig !in aliases[k].1
    ensures var c := ScanAliases(orig, aliases, command);
            c.Some? && c != command ==>
              exists k :: 0 <= k < |aliases| && aliases[k].0 == c.value && (c.value == orig || orig in aliases[k].1)
    decreases |aliases|
  {
    if aliases != [] && aliases[0].0 != orig {
      var next := if orig in aliases[0].1 then Some(aliases[0].0) else command;
      ScanMeaning(orig, aliases[1..], next);
      forall k | 0 <= k < |aliases| - 1 ensures aliases[1..][k] == aliases[k + 1] { }
      var c := ScanAliases(orig, aliases, command);
      if c.Some? && c != command && c == next {
        assert aliases[0].0 == c.value && orig in aliases[0].1;
      }
      if c.Some? && c != next {
        var k :| 0 <= k < |aliases| - 1 && aliases[1..][k].0 == c.value && (c.value == orig || orig in aliases[1..][k].1);
        assert aliases[k + 1].0 == c.value;
      }
    }
  }

  /** A command given by its own name is always found, whatever aliases
    * other entries have. */
  lemma {:induction false} NameWins(orig: string, aliases: seq<(string, seq<string>)>, command: Option<string>)
    requires exists k :: 0 <= k < |aliases| && aliases[k].0 == orig
    ensures ScanAliases(orig, aliases, command) == Some(orig)
    decreases |aliases|
  {
    if aliases[0].0 != orig {
      var k :| 0 <= k < |aliases| && aliases[k].0 == orig;
      assert aliases[1..][k - 1] == aliases[k];
      NameWins(orig, aliases[1..], if orig in aliases[0].1 then Some(aliases[0].0) else command);
    }
  }

  // ------------------------------------------------------------------
  // make_man_page
  // ------------------------------------------------------------------

  /** `'='` or `'-'` repeated. */
  function Repeat(c: char, n: nat): (r: string)
    ensures |r| == n && forall k :: 0 <= k < n ==> r[k] == c
  {
    if n == 0 then [] else Repeat(c, n - 1) + [c]
  }

  /** An optional field line, e.g. `:Version: 1.0`, or nothing. */
  function Field(tag: string, v: Option<string>): string
  {
    if v.Some? then tag + v.value + "\n" else ""
  }

  /** An optional section with its heading, or nothing. */
  function Section(heading: string, v: Option<string>): string
  {
    if v.Some? then heading + "\n" + Repeat('=', |heading|) + "\n\n" + v.value + "\n\n" else ""
  }

  /** The address field: the label alone on its line, then the address's
    * first line, then the others indented. */
  function AddressField(address: Option<string>): string
  {
    if address.None? then ""
    else
      var parts := Filesys.Split(address.value, '\n');
      var rest := seq(|parts| - 1, k requires 0 <= k < |parts| - 1 => "          " + parts[k + 1]);
      Filesys.Join([":Address: ", parts[0]] + rest, '\n') + "\n"
  }

  /** The date line: given text, or today's date for an empty one
    * (`today` stands for the clock). */
  function DateField(date: Option<string>, today: string): string
  {
    if date == Some("") then ":Date: " + today + "\n" else Field(":Date: ", date)
  }

  /** The title: the program name between two rules of '=' as long as
    * the name. */
  function TitleBlock(programName: string): string
  {
    var under := Repeat('=', |programName|);
    under + "\n" + programName + "\n" + under + "\n\n"
  }

  /** The manual section and group lines. */
  function ManualBlock(section: int, group: string): string
  {
    ":Manual section: " + IntToString(section) + "\n:Manual group: " + group + "\n\n"
  }

  /** The description between dashed rules and the optional fields. */
  function HeaderBlock(desc: string, email: Option<string>, organization: Option<string>, address: Option<string>,
                       date: Option<string>, copyright: Option<string>, version: Option<string>, today: string): string
  {
    var descUnder := Repeat('-', 29);
    descUnder + "\n" + desc + "\n" + descUnder + "\n\n" +
    Field(":Author: ", email) + Field(":organization: ", organization) + AddressField(address) +
    DateField(date, today) + Field(":copyright: ", copyright) + Field(":Version: ", version)
  }

  /** The optional sections and the trailing text. */
  function SectionsBlock(synopsis: Option<string>, description: Option<string>, options: Option<string>,
                         rest: Option<string>): string
  {
    Section("SYNOPSIS", synopsis) + Section("DESCRIPTION", description) + Section("OPTIONS", options) +
    (if rest.Some? then rest.value else "")
  }

  /** `make_man_page`: a page for `rst2man`; a section of 0 or an empty
    * group is a ManError, and a missing description is the program name
    * (common/commandtool/__init__.py:85-209). */
  function ManPage(programName: string, programDescription: Option<string>, email: Option<string>,
                   organization: Option<string>, address: Option<string>, date: Option<string>,
                   copyright: Option<string>, version: Option<string>, section: int, group: string,
                   synopsis: Option<string>, description: Option<string>, options: Option<string>,
                   rest: Option<string>, today: string): (r: Result<string>)
    ensures r.Err? <==> section == 0 || group == ""
    ensures r.Err? ==> r.error == "ManError"
  {
    if section == 0 || group == "" then Err("ManError")
    else
      var desc := if programDescription.Some? then programDescription.value else programName;
      Ok(TitleBlock(programName) +
         ((HeaderBlock(desc, email, organization, address, date, copyright, version, today) +
           ManualBlock(section, group)) + SectionsBlock(synopsis, description, options, rest)) + "\n\n\n")
  }

  /** The title block: a rule of '=' as long as the name, the name, the
    * rule again. */
  lemma TitleBlockShape(programName: string)
    ensures var t := TitleBlock(programName);
            var n := |programName|;
            |t| == 3 * n + 4 &&
            t[..n] == Repeat('=', n) && t[n] == '\n' &&
            t[n + 1..2 * n + 1] == programName && t[2 * n + 1] == '\n' &&
            t[2 * n + 2..3 * n + 2] == Repeat('=', n) && t[3 * n + 2] == '\n'
  {
    var n := |programName|;
    var under := Repeat('=', n);
    var t := TitleBlock(programName);
    assert t == under + "\n" + programName + "\n" + under + "\n\n";
    assert t[..n] == under && t[n + 1..2 * n + 1] == programName && t[2 * n + 2..3 * n + 2] == under;
  }

  /** Regrouping the pieces of a page. */
  lemma Regroup(t: string, h: string, m: string, b: string, e: string)
    ensures t + ((h + m) + b) + e == (t + h) + m + (b + e)
    ensures t + ((h + m) + b) + e == t + (((h + m) + b) + e)
  {
  }

  /** The page opens with the title block (the program name between two
    * rules of '=' as long as the name) and ends with three line feeds
    * (common/commandtool/__init__.py:176-193). */
  lemma ManPageTitle(programName: string, programDescription: Option<string>, email: Option<string>,
                     organization: Option<string>, address: Option<string>, date: Option<string>,
                     copyright: Option<string>, version: Option<string>, section: int, group: string,
                     synopsis: Option<string>, description: Option<string>, options: Option<string>,
                     rest: Option<string>, today: string)
    requires section != 0 && group != ""
    ensures var page := ManPage(programName, programDescription, email, organization, address, date, copyright,
                                version, section, group, synopsis, description, options, rest, today).value;
            var t := TitleBlock(programName);
            |page| >= |t| + 3 && page[..|t|] == t && page[|page| - 3..] == "\n\n\n"
  {
    var page := ManPage(programName, programDescription, email, organization, address, date, copyright,
                        version, section, group, synopsis, description, options, rest, today).value;
    var desc := if programDescription.Some? then programDescription.value else programName;
    var t := TitleBlock(programName);
    var h := HeaderBlock(desc, email, organization, address, date, copyright, version, today);
    var m := ManualBlock(section, group);
    var b := SectionsBlock(synopsis, description, options, rest);
    assert page == t + ((h + m) + b) + "\n\n\n";
    Regroup(t, h, m, b, "\n\n\n");
    Ends(t, ((h + m) + b), "\n\n\n");
  }

  lemma Ends(t: string, x: string, e: string)
    ensures var p := t + (x + e);
            |p| >= |t| + |e| && p[..|t|] == t && p[|p| - |e|..] == e
  {
  }

  /** The page names the manual section and group it was given
    * (common/commandtool/__init__.py:185-186). */
  lemma ManPageManual(programName: string, programDescription: Option<string>, email: Option<string>,
                      organization: Option<string>, address: Option<string>, date: Option<string>,
                      copyright: Option<string>, version: Option<string>, section: int, group: string,
                      synopsis: Option<string>, description: Option<string>, options: Option<string>,
                      rest: Option<string>, today: string)
    requires section != 0 && group != ""
    ensures var page := ManPage(programName, programDescription, email, organization, address, date, copyright,
                                version, section, group, synopsis, description, options, rest, today).value;
            exists i :: OccursAt(page, ManualBlock(section, group), i)
  {
    var page := ManPage(programName, programDescription, email, organization, address, date, copyright,
                        version, section, group, synopsis, description, options, rest, today).value;
    var desc := if programDescription.Some? then programDescription.value else programName;
    var t := TitleBlock(programName);
    var h := HeaderBlock(desc, email, organization, address, date, copyright, version, today);
    var m := ManualBlock(section, group);
    var b := SectionsBlock(synopsis, description, options, rest);
    assert page == t + ((h + m) + b) + "\n\n\n";
    Regroup(t, h, m, b, "\n\n\n");
    var z := b + "\n\n\n";
    assert page == (t + h) + m + z;
    OccursBetween(t + h, m, z);
  }

  lemma OccursBetween(a: string, m: string, z: string)
    ensures OccursAt(a + m + z, m, |a|)
  {
    assert (a + m + z)[|a|..|a| + |m|] == m;
  }
}
