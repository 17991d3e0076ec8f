/** The network object of the web front end (web/ITMProbe/network.py,
  * class `ITMProbeNetwork`): user names are mapped to genes, each gene to
  * the first of its names that is a node of the graph, and the names that
  * cannot be used are reported or refused. The graph is represented by its
  * set of node names; loading it and the gene index from files is not
  * modelled. */
module Network {
  import opened Wrappers
  import opened Text
  import opened Indexing
  import opened NcbiGenes

  /** `WARNING_FMTS` with `%(field)s` and `%(suffix)s` filled in: within one
    * call every warning carries the same field and suffix. */
  function NetworkFormats(field: string, suffix: string): (fmts: seq<Template>)
    ensures |fmts| == |WarningFormats|
    ensures forall k :: 0 <= k < |fmts| ==> fmts[k] != [] && fmts[k][0].Literal?
  {
    [[Literal(field + ": Specified network does not contain entity \""), IdField, Literal("\"" + suffix + ".")],
     [Literal(field + ": Identifier "), IdField, Literal(" is also a synonym for "), AliasesField, Literal(".")],
     [Literal(field + ": "), IdField, Literal(" is an alias for entities"), AliasesField,
      Literal(" while not being a primary identifier for any" + suffix + ".")],
     [Literal(field + ": Entity "), IdField, Literal(" was previously specified as "), AliasesField,
      Literal(" (additional instance IGNORED).")]]
  }

  const IgnoredSuffix := " (IGNORED)"
  const BoundarySuffix := " All identifiers for boundary nodes (sources and sinks) must be valid."

  /** The first of `ps` that is a node of the graph. */
  function FirstIn(ps: seq<string>, nodes: set<string>): (r: Option<string>)
    ensures r.Some? ==> r.value in ps && r.value in nodes
  {
    if ps == [] then None
    else if ps[0] in nodes then Some(ps[0])
    else FirstIn(ps[1..], nodes)
  }

  /** Nothing is found exactly when no name tried is a node. */
  lemma {:induction false} FirstInNone(ps: seq<string>, nodes: set<string>)
    ensures FirstIn(ps, nodes).None? <==> forall k :: 0 <= k < |ps| ==> ps[k] !in nodes
  {
    if ps != [] && ps[0] !in nodes {
      FirstInNone(ps[1..], nodes);
      assert forall k :: 1 <= k < |ps| ==> ps[k] == ps[1..][k - 1];
    }
  }

  /** The name found is the first name tried that is a node: every name
    * before it is not. */
  lemma {:induction false} FirstInIsFirst(ps: seq<string>, nodes: set<string>)
    requires FirstIn(ps, nodes).Some?
    ensures exists k :: 0 <= k < |ps| && ps[k] == FirstIn(ps, nodes).value &&
                        forall j :: 0 <= j < k ==> ps[j] !in nodes
  {
    if ps[0] !in nodes {
      FirstInIsFirst(ps[1..], nodes);
      var k :| 0 <= k < |ps[1..]| && ps[1..][k] == FirstIn(ps, nodes).value &&
               forall j :: 0 <= j < k ==> ps[1..][j] !in nodes;
      assert ps[k + 1] == FirstIn(ps, nodes).value;
      assert forall j :: 0 <= j < k + 1 ==> ps[j] !in nodes;
    }
  }

  /** What `validate_symbols` gives: the nodes of the usable names, or the
    * BadIdentifier exception for a name of a form field; `Message` is the
    * text the exception carries. */
  datatype Validation = Accepted(ids: seq<string>) | BadIdentifier(field: string, symbol: string)
  {
    function Message(): string
      requires BadIdentifier?
    {
      NcbiGenes.Message(Warning(symbol, UnknownId, None), NetworkFormats(field, BoundarySuffix))
    }
  }

  class ProbeNetwork {
    const genes: Genes
    const nodes: set<string>
    var warningMessages: seq<string>

    ghost predicate Valid()
    {
      genes.Valid() && Ready()
    }

    /** The part of the gene table's invariant the lookups of this class
      * rest on. */
    predicate Ready()
    {
      genes.numObjects == |genes.geneIds| == |genes.symbols| && Complete(genes.symbols, genes.symbol2aliases)
    }

    constructor (g: Genes, graphNodes: set<string>)
      requires g.Valid()
      ensures Valid() && genes == g && nodes == graphNodes && warningMessages == []
    {
      genes, nodes := g, graphNodes;
      warningMessages := [];
    }

    /** The names tried for gene `i`, in order: its gene id, its symbol,
      * then its aliases. */
    function Tested(i: nat): (ps: seq<string>)
      requires Ready() && i < genes.numObjects
      ensures |ps| >= 2 && ps[0] == IntToString(genes.geneIds[i]) && ps[1] == genes.symbols[i]
    {
      [IntToString(genes.geneIds[i]), genes.symbols[i]] + genes.symbol2aliases[genes.symbols[i]]
    }

    /** The graph node of a mapped gene: the first tested name that is a
      * node; none for no gene. */
    function NodeOf(index: Option<nat>): (r: Option<string>)
      requires Ready() && (index.Some? ==> index.value < genes.numObjects)
      ensures index.None? ==> r.None?
      ensures r.Some? ==> r.value in nodes
    {
      if index.None? then None else FirstIn(Tested(index.value), nodes)
    }

    /** A node found is one of the names tried for the gene. */
    lemma NodeOfTested(index: Option<nat>)
      requires Ready() && (index.Some? ==> index.value < genes.numObjects)
      ensures NodeOf(index).Some? ==> index.Some? && NodeOf(index).value in Tested(index.value)
    {
    }

    /** `get_network_node` (web/ITMProbe/network.py:98-109). */
    method GetNetworkNode(index: Option<nat>) returns (node: Option<string>)
      requires Ready() && (index.Some? ==> index.value < genes.numObjects)
      ensures node == NodeOf(index)
    {
      if index.None? {
        return None;
      }
      var tested := Tested(index.value);
      node := None;
      var k := 0;
      while k < |tested|
        invariant 0 <= k <= |tested|
        invariant forall j :: 0 <= j < k ==> tested[j] !in nodes
        invariant FirstIn(tested, nodes) == FirstIn(tested[k..], nodes)
      {
        if tested[k] in nodes {
          node := Some(tested[k]);
          return;
        }
        assert tested[k..][1..] == tested[k + 1..];
        k := k + 1;
      }
    }

    /** Every mapped entry points at a gene of the table. */
    predicate InTable(es: seq<Entry>)
      requires Ready()
    {
      forall k :: 0 <= k < |es| ==> es[k].0.Some? ==> es[k].0.value < genes.numObjects
    }

    /** The node each name leads to, every one a graph node. */
    function Found(es: seq<Entry>): (f: seq<Option<string>>)
      requires Ready() && InTable(es)
      ensures |f| == |es|
      ensures forall k :: 0 <= k < |es| ==> f[k] == NodeOf(es[k].0)
      ensures forall k :: 0 <= k < |f| && f[k].Some? ==> f[k].value in nodes
    {
      seq(|es|, k requires 0 <= k < |es| => NodeOf(es[k].0))
    }

    /** Entries `map_symbols` can give: each within the table, each
      * warning of one of the four types. */
    predicate Mappable(es: seq<Entry>)
      requires Ready()
    {
      InTable(es) && KnownKinds(es)
    }

    /** What `validate_symbols` does with the names and their entries: the
      * first name without a node raises BadIdentifier when unknown names
      * are refused, and nothing is recorded; otherwise the nodes of the
      * usable names are returned and one message per warning is
      * appended. */
    method ValidateEntries(symbols: seq<string>, es: seq<Entry>, field: string, ignoreUnknown: bool)
      returns (r: Validation)
      requires Ready() && Mappable(es) && |es| == |symbols|
      modifies this
      ensures var found := Found(es);
              var missing := FirstMissing(found, |es|);
              if !ignoreUnknown && missing.Some? then
                r == BadIdentifier(field, symbols[missing.value]) &&
                warningMessages == old(warningMessages)
              else
                && r == Accepted(ValidIds(found, es, |es|))
                && |old(warningMessages)| <= |warningMessages|
                && warningMessages[..|old(warningMessages)|] == old(warningMessages)
                && WarningMsgs(Reports(symbols, found, es, |es|), {}, NetworkFormats(field, IgnoredSuffix)) ==
                   Ok(warningMessages[|old(warningMessages)|..])
    {
      var found := LookUp(es);
      var valid, warnings, stop := Scan(symbols, found, es, ignoreUnknown);
      if stop.Some? {
        r := BadIdentifier(field, symbols[stop.value]);
        return;
      }
      ReportsKinds(symbols, Found(es), es, |es|);
      RecordWarnings(warnings, field);
      r := Accepted(valid);
    }

    /** The graph node of every name, looked up one after the other with
      * `get_network_node`. */
    method LookUp(es: seq<Entry>) returns (found: seq<Option<string>>)
      requires Ready() && InTable(es)
      ensures found == Found(es)
    {
      found := [];
      for k := 0 to |es|
        invariant |found| == k
        invariant forall j :: 0 <= j < k ==> found[j] == NodeOf(es[j].0)
      {
        var node := GetNetworkNode(es[k].0);
        found := found + [node];
      }
    }

    /** Appends the message of every warning, worded for the form field. */
    method RecordWarnings(warnings: seq<Warning>, field: string)
      requires forall w :: w in warnings ==> w.kind < |WarningFormats|
      modifies this
      ensures |old(warningMessages)| <= |warningMessages|
      ensures warningMessages[..|old(warningMessages)|] == old(warningMessages)
      ensures WarningMsgs(warnings, {}, NetworkFormats(field, IgnoredSuffix)) ==
              Ok(warningMessages[|old(warningMessages)|..])
    {
      var fmts := NetworkFormats(field, IgnoredSuffix);
      WarningMsgsKept(warnings, {}, fmts);
      KeptNothing(warnings);
      var msgs := WarningMsgs(warnings, {}, fmts).value;
      warningMessages := warningMessages + msgs;
      assert warningMessages[|old(warningMessages)|..] == msgs;
    }

    /** `validate_symbols` (web/ITMProbe/network.py:111-141): the names
      * are mapped to genes, then validated as above. */
    method ValidateSymbols(symbols: seq<string>, field: string, ignoreUnknown: bool) returns (r: Validation)
      requires Valid()
      modifies this
      ensures Mappable(genes.Mapped(symbols).0)
      ensures var es := genes.Mapped(symbols).0;
              var found := Found(es);
              var missing := FirstMissing(found, |es|);
              if !ignoreUnknown && missing.Some? then
                r == BadIdentifier(field, symbols[missing.value]) &&
                warningMessages == old(warningMessages)
              else
                && r == Accepted(ValidIds(found, es, |es|))
                && |old(warningMessages)| <= |warningMessages|
                && warningMessages[..|old(warningMessages)|] == old(warningMessages)
                && WarningMsgs(Reports(symbols, found, es, |es|), {}, NetworkFormats(field, IgnoredSuffix)) ==
                   Ok(warningMessages[|old(warningMessages)|..])
    {
      var es, _ := genes.MapSymbols(symbols);
      forall k | 0 <= k < |es| && es[k].1.Some? ensures es[k].1.value.kind < |WarningFormats| {
        genes.MappedKinds(symbols, k);
      }
      r := ValidateEntries(symbols, es, field, ignoreUnknown);
    }

    /** The valid ids are graph nodes. */
    lemma ValidIdsAreNodes(es: seq<Entry>)
      requires Ready() && InTable(es)
      ensures forall x :: x in ValidIds(Found(es), es, |es|) ==> x in nodes
    {
      ValidIdsFound(Found(es), es, |es|);
    }

    /** A name repeating a gene named earlier adds no node: the valid ids
      * come from the names that are each the first to name their gene. */
    lemma {:induction false} RepeatsAddNothing(symbols: seq<string>, k: nat)
      requires Valid() && k < |symbols|
      requires var es := genes.Mapped(symbols).0;
               es[k].0.Some? && exists j :: 0 <= j < k && genes.Resolve(symbols[j]).0 == es[k].0
      ensures var es := genes.Mapped(symbols).0;
              InTable(es) && ValidIds(Found(es), es, k + 1) == ValidIds(Found(es), es, k)
    {
      genes.DuplicateWarning(symbols, k);
    }

    /** Every message `validate_symbols` records names the form field it
      * is about. */
    lemma MessagesNameField(ws: seq<Warning>, field: string, suffix: string)
      requires forall w :: w in ws ==> w.kind < |WarningFormats|
      ensures WarningMsgs(ws, {}, NetworkFormats(field, suffix)).Ok?
      ensures forall m :: m in WarningMsgs(ws, {}, NetworkFormats(field, suffix)).value ==>
                |field| + 1 <= |m| && m[..|field| + 1] == field + ":"
    {
      var fmts := NetworkFormats(field, suffix);
      KeptNothing(ws);
      WarningMsgsKept(ws, {}, fmts);
      var msgs := WarningMsgs(ws, {}, fmts).value;
      forall m | m in msgs ensures |field| + 1 <= |m| && m[..|field| + 1] == field + ":" {
        var k :| 0 <= k < |msgs| && msgs[k] == m;
        MessageNamesField(ws[k], field, suffix);
      }
    }
  }

  // ------------------------------------------------------------------
  // The validation loop, on the nodes the names lead to
  // ------------------------------------------------------------------

  /** Every warning of the entries has one of the four types. */
  predicate KnownKinds(es: seq<Entry>)
  {
    forall k :: 0 <= k < |es| && es[k].1.Some? ==> es[k].1.value.kind < |WarningFormats|
  }

  /** The node a name contributes: found, and not a repetition of a gene
    * named before. */
  function KeptNode(node: Option<string>, e: Entry): Option<string>
  {
    if node.Some? && (e.1.None? || e.1.value.kind != DuplicateId) then node else None
  }

  /** The warning a name contributes when unknown names are ignored:
    * the lookup's own warning for a found node, UNKNOWN_ID otherwise. */
  function Report(smb: string, node: Option<string>, e: Entry): Option<Warning>
  {
    if node.Some? then e.1 else Some(Warning(smb, UnknownId, None))
  }

  /** The valid nodes of the first `n` names, in order. */
  function ValidIds(found: seq<Option<string>>, es: seq<Entry>, n: nat): (ids: seq<string>)
    requires n <= |es| == |found|
    ensures |ids| <= n
  {
    if n == 0 then []
    else
      var node := KeptNode(found[n - 1], es[n - 1]);
      ValidIds(found, es, n - 1) + (if node.Some? then [node.value] else [])
  }

  /** Every valid id is the node some name leads to. */
  lemma {:induction false} ValidIdsFound(found: seq<Option<string>>, es: seq<Entry>, n: nat)
    requires n <= |es| == |found|
    ensures forall x :: x in ValidIds(found, es, n) ==> exists j :: 0 <= j < n && found[j] == Some(x)
  {
    if n > 0 {
      ValidIdsFound(found, es, n - 1);
    }
  }

  /** The warnings of the first `n` names, in order. */
  function Reports(symbols: seq<string>, found: seq<Option<string>>, es: seq<Entry>, n: nat): (ws: seq<Warning>)
    requires n <= |es| == |symbols| == |found|
    ensures |ws| <= n
  {
    if n == 0 then []
    else
      var w := Report(symbols[n - 1], found[n - 1], es[n - 1]);
      Reports(symbols, found, es, n - 1) + (if w.Some? then [w.value] else [])
  }

  /** The first of the first `n` names that has no node, if any. */
  function FirstMissing(found: seq<Option<string>>, n: nat): (r: Option<nat>)
    requires n <= |found|
    ensures r.Some? ==> r.value < n && found[r.value].None? && forall j :: 0 <= j < r.value ==> found[j].Some?
    ensures r.None? ==> forall j :: 0 <= j < n ==> found[j].Some?
  {
    if n == 0 then None
    else if FirstMissing(found, n - 1).Some? then FirstMissing(found, n - 1)
    else if found[n - 1].None? then Some(n - 1)
    else None
  }

  /** The loop of `validate_symbols` over the names and the nodes they
    * lead to: the valid nodes and the warnings in order, stopping at the
    * first name without a node when unknown names are refused. The
    * lookups have no effect, so they are made beforehand (`LookUp`). */
  method Scan(symbols: seq<string>, found: seq<Option<string>>, es: seq<Entry>, ignoreUnknown: bool)
    returns (valid: seq<string>, warnings: seq<Warning>, stop: Option<nat>)
    requires |es| == |symbols| == |found|
    ensures stop == (if ignoreUnknown then None else FirstMissing(found, |es|))
    ensures stop.None? ==> valid == ValidIds(found, es, |es|) && warnings == Reports(symbols, found, es, |es|)
  {
    valid, warnings, stop := [], [], None;
    for k := 0 to |symbols|
      invariant valid == ValidIds(found, es, k)
      invariant !ignoreUnknown ==> FirstMissing(found, k).None?
      invariant warnings == Reports(symbols, found, es, k)
    {
      var node := found[k];
      var warn := es[k].1;
      Step(symbols, found, es, k);
      if node.Some? {
        if warn.None? || warn.value.kind != DuplicateId {
          valid := valid + [node.value];
        }
      } else if !ignoreUnknown {
        FirstMissingStays(found, k + 1, |es|);
        stop := Some(k);
        return;
      } else {
        warn := Some(Warning(symbols[k], UnknownId, None));
      }
      if warn.Some? {
        warnings := warnings + [warn.value];
      }
    }
  }

  /** One more name: what it adds to the nodes, the warnings and the
    * search for a missing node. */
  lemma Step(symbols: seq<string>, found: seq<Option<string>>, es: seq<Entry>, k: nat)
    requires k < |es| == |symbols| == |found|
    ensures var node := KeptNode(found[k], es[k]);
            ValidIds(found, es, k + 1) == ValidIds(found, es, k) + (if node.Some? then [node.value] else [])
    ensures var w := Report(symbols[k], found[k], es[k]);
            Reports(symbols, found, es, k + 1) == Reports(symbols, found, es, k) + (if w.Some? then [w.value] else [])
    ensures FirstMissing(found, k).None? ==>
              FirstMissing(found, k + 1) == if found[k].None? then Some(k) else None
  {
  }

  /** Once found, the first name without a node stays the first. */
  lemma {:induction false} FirstMissingStays(found: seq<Option<string>>, n: nat, m: nat)
    requires n <= m <= |found| && FirstMissing(found, n).Some?
    ensures FirstMissing(found, m) == FirstMissing(found, n)
  {
    if m > n {
      FirstMissingStays(found, n, m - 1);
    }
  }

  /** Every warning reported has one of the four types. */
  lemma {:induction false} ReportsKinds(symbols: seq<string>, found: seq<Option<string>>, es: seq<Entry>, n: nat)
    requires KnownKinds(es) && n <= |es| == |symbols| == |found|
    ensures forall w :: w in Reports(symbols, found, es, n) ==> w.kind < |WarningFormats|
  {
    if n > 0 {
      ReportsKinds(symbols, found, es, n - 1);
    }
  }

  /** No name is dropped silently: each contributes a node, a warning, or
    * both, so there are at least as many of these as names. */
  lemma {:induction false} NothingSilentlyDropped(symbols: seq<string>, found: seq<Option<string>>,
                                                  es: seq<Entry>, n: nat)
    requires n <= |es| == |symbols| == |found|
    ensures |ValidIds(found, es, n)| + |Reports(symbols, found, es, n)| >= n
  {
    if n > 0 {
      NothingSilentlyDropped(symbols, found, es, n - 1);
      assert KeptNode(found[n - 1], es[n - 1]).Some? || Report(symbols[n - 1], found[n - 1], es[n - 1]).Some?;
    }
  }

  /** `(a + b)[..|a|]` is `a`. */
  lemma PrefixOfConcat(a: string, b: string)
    ensures |a| <= |a + b| && (a + b)[..|a|] == a
  {
  }

  /** Each network format opens with the field and a colon. */
  lemma FormatNamesField(field: string, suffix: string, kind: nat)
    requires kind < |WarningFormats|
    ensures var t := NetworkFormats(field, suffix)[kind];
            t[0].Literal? && |field| + 1 <= |t[0].text| && t[0].text[..|field| + 1] == field + ":"
  {
    var text := NetworkFormats(field, suffix)[kind][0].text;
    var lead := [": Specified network does not contain entity \"", ": Identifier ", ": ", ": Entity "][kind];
    assert text == field + lead;
    assert lead == ":" + lead[1..];
    assert text == (field + ":") + lead[1..];
    PrefixOfConcat(field + ":", lead[1..]);
  }

  /** The message of one warning opens with the field and a colon. */
  lemma MessageNamesField(w: Warning, field: string, suffix: string)
    requires w.kind < |WarningFormats|
    ensures var m := Message(w, NetworkFormats(field, suffix));
            |field| + 1 <= |m| && m[..|field| + 1] == field + ":"
  {
    var t := NetworkFormats(field, suffix)[w.kind];
    var a := if w.aliases.Some? then FormatIdList(w.aliases.value) else "";
    FormatNamesField(field, suffix, w.kind);
    assert Message(w, NetworkFormats(field, suffix)) == t[0].text + Render(t[1..], w.name, a);
    PrefixOfConcat(t[0].text, Render(t[1..], w.name, a));
  }

  /** The message of BadIdentifier names the form field. */
  lemma BadIdentifierNamesField(v: Validation)
    requires v.BadIdentifier?
    ensures |v.field| + 1 <= |v.Message()| && v.Message()[..|v.field| + 1] == v.field + ":"
  {
    MessageNamesField(Warning(v.symbol, UnknownId, None), v.field, BoundarySuffix);
  }

  /** Excluding no type keeps every warning. */
  lemma {:induction false} KeptNothing(ws: seq<Warning>)
    ensures Kept(ws, {}) == ws
  {
    if ws != [] {
      KeptNothing(ws[1..]);
      assert [ws[0]] + ws[1..] == ws;
    }
  }

  // ------------------------------------------------------------------
  // to_sif_file
  // ------------------------------------------------------------------

  /** A stored entry of the adjacency matrix: row, column, value, in the
    * order the CSR arrays hold them. */
  type Stored = (nat, nat, real)

  /** The unordered pair an entry belongs to, smaller index first. */
  function PairOf(e: Stored): (nat, nat)
  {
    if e.0 < e.1 then (e.0, e.1) else (e.1, e.0)
  }

  /** `counts` after the first `n` entries: one per positive entry, under
    * its unordered pair. */
  function PairCounts(es: seq<Stored>, n: nat): (m: map<(nat, nat), nat>)
    requires n <= |es|
    ensures forall p :: p in m ==> p.0 <= p.1 && m[p] > 0
  {
    if n == 0 then map[]
    else
      var m := PairCounts(es, n - 1);
      var e := es[n - 1];
      if e.2 > 0.0 then
        var p := PairOf(e);
        m[p := (if p in m then m[p] else 0) + 1]
      else m
  }

  /** The number of positive entries among the first `n` in pair `p`. */
  function Count(es: seq<Stored>, n: nat, p: (nat, nat)): nat
    requires n <= |es|
  {
    if n == 0 then 0
    else Count(es, n - 1, p) + (if es[n - 1].2 > 0.0 && PairOf(es[n - 1]) == p then 1 else 0)
  }

  /** The counter of a pair is the number of its positive entries; a pair
    * with none has no counter. */
  lemma {:induction false} PairCountsCount(es: seq<Stored>, n: nat, p: (nat, nat))
    requires n <= |es|
    ensures p in PairCounts(es, n) <==> Count(es, n, p) > 0
    ensures p in PairCounts(es, n) ==> PairCounts(es, n)[p] == Count(es, n, p)
  {
    if n > 0 {
      PairCountsCount(es, n - 1, p);
    }
  }

  /** `A[i, j] > 0` among the first `n` entries. */
  predicate Positive(es: seq<Stored>, n: nat, i: nat, j: nat)
    requires n <= |es|
  {
    exists k :: 0 <= k < n && es[k].0 == i && es[k].1 == j && es[k].2 > 0.0
  }

  /** No position is stored twice, as in a CSR matrix. */
  predicate UniquePositions(es: seq<Stored>)
  {
    forall k, l :: 0 <= k < l < |es| ==> (es[k].0, es[k].1) != (es[l].0, es[l].1)
  }

  /** For two distinct nodes the pair count is the number of directions in
    * which a positive link joins them, so a pair is written 'd' exactly
    * when one direction is positive and 'u' when both are. */
  lemma {:induction false} CountIsDirections(es: seq<Stored>, n: nat, a: nat, b: nat)
    requires n <= |es| && UniquePositions(es) && a < b
    ensures Count(es, n, (a, b)) == (if Positive(es, n, a, b) then 1 else 0) + (if Positive(es, n, b, a) then 1 else 0)
  {
    if n > 0 {
      CountIsDirections(es, n - 1, a, b);
      var e := es[n - 1];
      if e.2 > 0.0 && e.0 == a && e.1 == b {
        assert !Positive(es, n - 1, a, b);
      }
      if e.2 > 0.0 && e.0 == b && e.1 == a {
        assert !Positive(es, n - 1, b, a);
      }
      assert Positive(es, n, a, b) <==> Positive(es, n - 1, a, b) || (e.2 > 0.0 && e.0 == a && e.1 == b);
      assert Positive(es, n, b, a) <==> Positive(es, n - 1, b, a) || (e.2 > 0.0 && e.0 == b && e.1 == a);
    }
  }

  /** A positive self-loop is counted once, so it is written 'd'. */
  lemma {:induction false} SelfLoopOnce(es: seq<Stored>, n: nat, a: nat)
    requires n <= |es| && UniquePositions(es)
    ensures Count(es, n, (a, a)) == if Positive(es, n, a, a) then 1 else 0
  {
    if n > 0 {
      SelfLoopOnce(es, n - 1, a);
      var e := es[n - 1];
      if e.2 > 0.0 && e.0 == a && e.1 == a {
        assert !Positive(es, n - 1, a, a);
      }
      assert Positive(es, n, a, a) <==> Positive(es, n - 1, a, a) || (e.2 > 0.0 && e.0 == a && e.1 == a);
    }
  }

  /** The counting loop of `to_sif_file` (web/ITMProbe/network.py:167-176). */
  method CountPairs(es: seq<Stored>) returns (counts: map<(nat, nat), nat>)
    ensures counts == PairCounts(es, |es|)
  {
    counts := map[];
    for k := 0 to |es|
      invariant counts == PairCounts(es, k)
    {
      var (i, j, w) := es[k];
      if w > 0.0 {
        var p := if i < j then (i, j) else (j, i);
        counts := counts[p := (if p in counts then counts[p] else 0) + 1];
      }
    }
  }

  /** One line of the SIF file: two gene ids and the interaction type,
    * `d` for a pair counted once and `u` otherwise. */
  datatype SifLine = SifLine(geneId1: int, kind: char, geneId2: int)
  {
    /** The line as written, `'%d\t%s\t%d\n'`. */
    function Text(): string
    {
      IntToString(geneId1) + "\t" + [kind] + "\t" + IntToString(geneId2) + "\n"
    }
  }

  /** The line of a counted pair of nodes. */
  function LineOf(counts: map<(nat, nat), nat>, geneIds: seq<int>, p: (nat, nat)): SifLine
    requires p in counts && p.0 < |geneIds| && p.1 < |geneIds|
  {
    SifLine(geneIds[p.0], if counts[p] == 1 then 'd' else 'u', geneIds[p.1])
  }

  /** The lines of the SIF file for the pair counts, one per pair, in the
    * order the dictionary holds the pairs. `geneIds[i]` is the gene id of
    * node `i`. */
  method SifLines(counts: map<(nat, nat), nat>, geneIds: seq<int>) returns (lines: seq<SifLine>)
    requires forall p :: p in counts ==> p.0 < |geneIds| && p.1 < |geneIds|
    ensures |lines| == |counts|
    ensures forall p :: p in counts ==> LineOf(counts, geneIds, p) in lines
    ensures forall line :: line in lines ==> exists p :: p in counts && line == LineOf(counts, geneIds, p)
  {
    var pairs := Arrange(counts.Keys);
    assert |counts.Keys| == |counts|;
    lines := [];
    for k := 0 to |pairs|
      invariant |lines| == k
      invariant forall j :: 0 <= j < k ==> lines[j] == LineOf(counts, geneIds, pairs[j])
    {
      var p := pairs[k];
      lines := lines + [SifLine(geneIds[p.0], if counts[p] == 1 then 'd' else 'u', geneIds[p.1])];
    }
    forall p | p in counts
      ensures LineOf(counts, geneIds, p) in lines
    {
      var k :| 0 <= k < |pairs| && pairs[k] == p;
      assert lines[k] == LineOf(counts, geneIds, p);
    }
    forall line | line in lines
      ensures exists p :: p in counts && line == LineOf(counts, geneIds, p)
    {
      var k :| 0 <= k < |lines| && lines[k] == line;
      assert pairs[k] in counts;
    }
  }

  /** `to_sif_file` (web/ITMProbe/network.py:160-185): the pair counts of
    * the stored entries, and one line per counted pair. */
  method ToSif(es: seq<Stored>, geneIds: seq<int>) returns (counts: map<(nat, nat), nat>, lines: seq<SifLine>)
    requires forall k :: 0 <= k < |es| ==> es[k].0 < |geneIds| && es[k].1 < |geneIds|
    ensures counts == PairCounts(es, |es|)
    ensures forall p :: p in counts ==> p.0 < |geneIds| && p.1 < |geneIds|
    ensures |lines| == |counts|
    ensures forall p :: p in counts ==> LineOf(counts, geneIds, p) in lines
    ensures forall line :: line in lines ==> exists p :: p in counts && line == LineOf(counts, geneIds, p)
  {
    counts := CountPairs(es);
    BelowIds(es, |es|, |geneIds|);
    lines := SifLines(counts, geneIds);
  }

  /** Every counted pair is a pair of nodes. */
  lemma {:induction false} BelowIds(es: seq<Stored>, n: nat, size: nat)
    requires n <= |es| && forall k :: 0 <= k < |es| ==> es[k].0 < size && es[k].1 < size
    ensures forall p :: p in PairCounts(es, n) ==> p.0 < size && p.1 < size
  {
    if n > 0 {
      BelowIds(es, n - 1, size);
    }
  }
}
