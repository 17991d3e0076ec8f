/** The gene tables of one species once loaded
  * (common/db_parsers/ncbi_gene.py, class `NCBIGenes`): the dictionaries
  * from gene ids and names to positions, the conflict table, the mapping
  * of user-supplied names to genes with its warnings, the wording of the
  * warnings and the retrieval of one gene. Reading the `gene_info` file
  * itself (`open_gene_info`, the CRC32 check, the extra record fields) is
  * not part of this model. */
module NcbiGenes {
  import opened Wrappers
  import opened Indexing
  import opened Ordering
  import opened Text
  import NcbiGene

  // ------------------------------------------------------------------
  // Warnings
  // ------------------------------------------------------------------

  const UnknownId: nat := 0
  const Conflict1: nat := 1
  const Conflict2: nat := 2
  const DuplicateId: nat := 3

  /** A warning triple `(symbol, warning_type, {'aliases': data})`; the
    * data is `None` for a name nobody answers to. */
  datatype Warning = Warning(name: string, kind: nat, aliases: Option<seq<string>>)

  /** One result of `map_symbols`: the position found, if any, and the
    * warning, if any. */
  type Entry = (Option<nat>, Option<Warning>)

  // ------------------------------------------------------------------
  // The name dictionaries
  // ------------------------------------------------------------------

  /** Every symbol has an entry in `symbol2aliases` (otherwise building
    * `alias2index` is a KeyError). */
  predicate Complete(symbols: seq<string>, s2a: map<string, seq<string>>)
  {
    forall k :: 0 <= k < |symbols| ==> symbols[k] in s2a
  }

  /** `m.update((alias, i) for alias in aliases)`. */
  function WithAliases(m: map<string, nat>, aliases: seq<string>, i: nat): (r: map<string, nat>)
    ensures forall x :: x in r <==> x in m || x in aliases
    ensures forall x :: x in r ==> r[x] == if x in aliases then i else m[x]
    decreases |aliases|
  {
    if aliases == [] then m else WithAliases(m[aliases[0] := i], aliases[1..], i)
  }

  /** `alias2index` after the aliases of the first `n` symbols: every
    * symbol at its position, then the aliases of each symbol in turn at
    * that symbol's position, later entries overwriting earlier ones. */
  function AliasIndex(symbols: seq<string>, s2a: map<string, seq<string>>, n: nat): (r: map<string, nat>)
    requires Complete(symbols, s2a) && n <= |symbols|
    ensures forall x :: x in r ==> r[x] < |symbols|
  {
    if n == 0 then Enumerated(symbols)
    else WithAliases(AliasIndex(symbols, s2a, n - 1), s2a[symbols[n - 1]], n - 1)
  }

  /** The names of `alias2index` are the symbols and their aliases. */
  lemma {:induction false} AliasIndexKeys(symbols: seq<string>, s2a: map<string, seq<string>>, n: nat)
    requires Complete(symbols, s2a) && n <= |symbols|
    ensures forall x :: x in AliasIndex(symbols, s2a, n) <==> x in symbols || exists k :: 0 <= k < n && x in s2a[symbols[k]]
  {
    if n > 0 {
      AliasIndexKeys(symbols, s2a, n - 1);
    }
  }

  /** What the parser guarantees about the names: the symbols are
    * distinct, no alias is a symbol, and no alias belongs to two
    * symbols. */
  predicate Separated(symbols: seq<string>, s2a: map<string, seq<string>>)
  {
    && Complete(symbols, s2a)
    && Distinct(symbols)
    && (forall k, a :: 0 <= k < |symbols| && a in s2a[symbols[k]] ==> a !in symbols)
    && (forall j, k, a :: 0 <= j < |symbols| && 0 <= k < |symbols| && a in s2a[symbols[j]] && a in s2a[symbols[k]]
          ==> j == k)
  }

  /** With separated names nothing is overwritten: each symbol and each of
    * its aliases maps to the symbol's position. */
  lemma {:induction false} AliasIndexResolves(symbols: seq<string>, s2a: map<string, seq<string>>, n: nat)
    requires Separated(symbols, s2a) && n <= |symbols|
    ensures forall k :: 0 <= k < |symbols| ==>
              symbols[k] in AliasIndex(symbols, s2a, n) && AliasIndex(symbols, s2a, n)[symbols[k]] == k
    ensures forall k, a :: 0 <= k < n && a in s2a[symbols[k]] ==>
              a in AliasIndex(symbols, s2a, n) && AliasIndex(symbols, s2a, n)[a] == k
  {
    if n == 0 {
      forall k | 0 <= k < |symbols| ensures symbols[k] in Enumerated(symbols) && Enumerated(symbols)[symbols[k]] == k {
        EnumeratedInverts(symbols, k);
      }
    } else {
      AliasIndexResolves(symbols, s2a, n - 1);
      var aliases := s2a[symbols[n - 1]];
      forall k | 0 <= k < |symbols| ensures symbols[k] !in aliases {
        assert symbols[k] in symbols;
      }
      forall k, a | 0 <= k < n - 1 && a in s2a[symbols[k]] ensures a !in aliases {
      }
    }
  }

  /** The names `_parse_gene_info` returns are separated. */
  lemma ParsedSeparated(genes: seq<NcbiGene.Gene>, res: NcbiGene.Resolution)
    requires NcbiGene.ResolvesNames(genes, res) && Distinct(NcbiGene.Symbols(genes))
    ensures Separated(NcbiGene.Symbols(genes), res.symbol2aliases)
  {
    var symbols := NcbiGene.Symbols(genes);
    forall k, a | 0 <= k < |symbols| && a in res.symbol2aliases[symbols[k]] ensures a !in symbols {
      NcbiGene.AliasesAreNotSymbols(genes, res, symbols[k], a);
    }
    forall j, k, a | 0 <= j < |symbols| && 0 <= k < |symbols| && a in res.symbol2aliases[symbols[j]]
                     && a in res.symbol2aliases[symbols[k]]
      ensures j == k
    {
      NcbiGene.OneSymbolPerAlias(genes, res, a, symbols[j], symbols[k]);
    }
  }

  /** `conflicts`: each name of the first conflict map with its sorted
    * symbols and `CONFLICT_1`, then each name of the second with
    * `CONFLICT_2`, which wins for a name in both. */
  function ConflictTable(c1: map<string, set<string>>, c2: map<string, set<string>>): (r: map<string, (nat, seq<string>)>)
    ensures forall name :: name in r <==> name in c1 || name in c2
    ensures forall name :: name in r ==>
              && (r[name].0 == Conflict2 <==> name in c2)
              && (r[name].0 == Conflict1 || r[name].0 == Conflict2)
              && Ascending(r[name].1)
              && forall x :: x in r[name].1 <==> x in (if name in c2 then c2[name] else c1[name])
  {
    map name | name in c1.Keys + c2.Keys ::
      if name in c2 then (Conflict2, Sorted(c2[name])) else (Conflict1, Sorted(c1[name]))
  }

  // ------------------------------------------------------------------
  // Claiming genes in `map_symbols`
  // ------------------------------------------------------------------

  /** What looking up one name gives: the position found, if any, and the
    * name the lookup settled on. */
  type Lookup = (Option<nat>, string)

  /** Every position found is below `n`. */
  predicate Below(rs: seq<Lookup>, n: nat)
  {
    forall k :: 0 <= k < |rs| && rs[k].0.Some? ==> rs[k].0.value < n
  }

  /** The warning for a name of the conflict table, if it is one. */
  function ConflictOf(conflicts: map<string, (nat, seq<string>)>, name: string): Option<Warning>
  {
    if name in conflicts then Some(Warning(name, conflicts[name].0, Some(conflicts[name].1))) else None
  }

  /** One iteration of `map_symbols`, given the positions used so far
    * with the name that claimed each: a name not found is reported as a
    * conflict or as unknown; a position already used is a duplicate;
    * otherwise the name claims the position, with a warning when it is
    * also a conflict. */
  function StepOf(conflicts: map<string, (nat, seq<string>)>, r: Lookup, used: map<nat, string>): (Entry, map<nat, string>)
  {
    var (i, name) := r;
    if i.None? then
      ((None, if name in conflicts then ConflictOf(conflicts, name) else Some(Warning(name, UnknownId, None))), used)
    else if i.value in used then
      ((i, Some(Warning(name, DuplicateId, Some([used[i.value]])))), used)
    else
      ((i, ConflictOf(conflicts, name)), used[i.value := name])
  }

  /** The loop of `map_symbols` over the lookups of the names. */
  function Assign(conflicts: map<string, (nat, seq<string>)>, rs: seq<Lookup>): (r: (seq<Entry>, map<nat, string>))
    ensures |r.0| == |rs|
  {
    if rs == [] then ([], map[])
    else
      var prev := Assign(conflicts, rs[..|rs| - 1]);
      var step := StepOf(conflicts, rs[|rs| - 1], prev.1);
      (prev.0 + [step.0], step.1)
  }

  /** Each entry holds the position its lookup found. */
  lemma {:induction false} AssignIndices(conflicts: map<string, (nat, seq<string>)>, rs: seq<Lookup>)
    ensures forall k :: 0 <= k < |rs| ==> Assign(conflicts, rs).0[k].0 == rs[k].0
  {
    if rs != [] {
      AssignIndices(conflicts, rs[..|rs| - 1]);
    }
  }

  /** Lookup `j` is the first to find position `i`. */
  ghost predicate FirstClaim(rs: seq<Lookup>, i: nat, j: int)
  {
    && 0 <= j < |rs| && rs[j].0 == Some(i)
    && forall j' :: 0 <= j' < j ==> rs[j'].0 != Some(i)
  }

  /** The positions used are those some lookup found, each held by the
    * name of the first lookup that found it. */
  lemma {:induction false} UsedClaims(conflicts: map<string, (nat, seq<string>)>, rs: seq<Lookup>)
    ensures forall i :: i in Assign(conflicts, rs).1 <==> exists j :: 0 <= j < |rs| && rs[j].0 == Some(i)
    ensures forall i :: i in Assign(conflicts, rs).1 ==>
              exists j :: FirstClaim(rs, i, j) && Assign(conflicts, rs).1[i] == rs[j].1
  {
    if rs != [] {
      var n := |rs| - 1;
      var init := rs[..n];
      UsedClaims(conflicts, init);
      var used := Assign(conflicts, init).1;
      var now := Assign(conflicts, rs).1;
      assert now == StepOf(conflicts, rs[n], used).1;
      forall i | i in now
        ensures exists j :: FirstClaim(rs, i, j) && now[i] == rs[j].1
      {
        if i in used {
          var j :| FirstClaim(init, i, j) && used[i] == init[j].1;
          assert FirstClaim(rs, i, j);
        } else {
          assert FirstClaim(rs, i, n);
        }
      }
      forall i | exists j :: 0 <= j < |rs| && rs[j].0 == Some(i)
        ensures i in now
      {
        var j :| 0 <= j < |rs| && rs[j].0 == Some(i);
        if j < n {
          assert init[j] == rs[j];
        }
      }
    }
  }

  /** Entry `k` is the step of lookup `k` after the lookups before it. */
  lemma {:induction false} AssignEntry(conflicts: map<string, (nat, seq<string>)>, rs: seq<Lookup>, k: nat)
    requires k < |rs|
    ensures Assign(conflicts, rs).0[k] == StepOf(conflicts, rs[k], Assign(conflicts, rs[..k]).1).0
  {
    var n := |rs| - 1;
    if k < n {
      AssignEntry(conflicts, rs[..n], k);
      assert rs[..n][..k] == rs[..k];
    } else {
      assert rs[..k] == rs[..n];
    }
  }

  /** When no conflict has the duplicate type, entry `k` carries the
    * duplicate warning exactly when an earlier lookup found the same
    * position, and the warning names the first such lookup. */
  lemma AssignDuplicate(conflicts: map<string, (nat, seq<string>)>, rs: seq<Lookup>, k: nat)
    requires forall name :: name in conflicts ==> conflicts[name].0 != DuplicateId
    requires k < |rs|
    ensures Assign(conflicts, rs).0[k].0 == rs[k].0
    ensures var e := Assign(conflicts, rs).0[k];
            (e.1.Some? && e.1.value.kind == DuplicateId) <==>
            (e.0.Some? && exists j :: 0 <= j < k && rs[j].0 == e.0)
    ensures var e := Assign(conflicts, rs).0[k];
            e.1.Some? && e.1.value.kind == DuplicateId ==>
              exists j :: 0 <= j < k && FirstClaim(rs, e.0.value, j)
                          && e.1 == Some(Warning(rs[k].1, DuplicateId, Some([rs[j].1])))
  {
    AssignEntry(conflicts, rs, k);
    var init := rs[..k];
    var used := Assign(conflicts, init).1;
    UsedClaims(conflicts, init);
    AssignIndices(conflicts, rs);
    var r := rs[k];
    if r.0.Some? && r.0.value in used {
      var j1 :| FirstClaim(init, r.0.value, j1) && used[r.0.value] == init[j1].1;
      FirstClaimPrefix(rs, k, r.0.value, j1);
    }
    if r.0.Some? && exists j :: 0 <= j < k && rs[j].0 == r.0 {
      var j :| 0 <= j < k && rs[j].0 == r.0;
      assert init[j] == rs[j];
    }
  }

  /** The first claim among the first `k` lookups is the first claim. */
  lemma FirstClaimPrefix(rs: seq<Lookup>, k: nat, i: nat, j: int)
    requires k <= |rs| && FirstClaim(rs[..k], i, j)
    ensures FirstClaim(rs, i, j)
  {
    assert rs[..k][j] == rs[j];
    forall j' | 0 <= j' < j ensures rs[j'].0 != Some(i) {
      assert rs[..k][j'] == rs[j'];
    }
  }

  /** A record as `get_record` returns it when the file is not open. */
  datatype Record = Record(symbol: string, geneId: int, description: string)

  class Genes {
    const file: string
    const checksum: int
    const tax: int
    const numObjects: nat
    const geneIds: seq<int>
    const offsets: seq<nat>
    const symbols: seq<string>
    const symbol2aliases: map<string, seq<string>>
    const descriptions: seq<string>
    const geneId2Index: map<int, nat>
    const alias2Index: map<string, nat>
    const conflicts: map<string, (nat, seq<string>)>

    ghost predicate Valid()
    {
      && numObjects == |geneIds| == |symbols| == |descriptions|
      && Complete(symbols, symbol2aliases)
      && geneId2Index == Enumerated(geneIds)
      && alias2Index == AliasIndex(symbols, symbol2aliases, |symbols|)
      && forall name :: name in conflicts ==> conflicts[name].0 == Conflict1 || conflicts[name].0 == Conflict2
    }

    constructor (geneInfoFile: string, geneInfoChecksum: int, taxId: int, info: NcbiGene.GeneInfo)
      requires |info.geneIds| == |info.symbols| == |info.descriptions|
      requires Complete(info.symbols, info.symbol2aliases)
      ensures Valid()
      ensures file == geneInfoFile && checksum == geneInfoChecksum && tax == taxId
      ensures geneIds == info.geneIds && offsets == info.offsets && symbols == info.symbols
      ensures symbol2aliases == info.symbol2aliases && descriptions == info.descriptions
      ensures conflicts == ConflictTable(info.conflict1, info.conflict2)
    {
      file, checksum, tax := geneInfoFile, geneInfoChecksum, taxId;
      numObjects := |info.geneIds|;
      geneIds, offsets, symbols := info.geneIds, info.offsets, info.symbols;
      symbol2aliases, descriptions := info.symbol2aliases, info.descriptions;
      geneId2Index := Enumerated(info.geneIds);
      alias2Index := AliasIndex(info.symbols, info.symbol2aliases, |info.symbols|);
      conflicts := ConflictTable(info.conflict1, info.conflict2);
    }

    // ----------------------------------------------------------------
    // map_symbols
    // ----------------------------------------------------------------

    /** How one name is looked up: a decimal integer as a gene id only;
      * anything else as a symbol or alias, then upper-cased. The result is
      * the position found, if any, and the name the lookup settled on. */
    function Resolve(q: string): (r: Lookup)
      requires Valid()
      ensures r.0.Some? ==> r.0.value < numObjects
    {
      match ParseInt(q)
      case Some(id) => (if id in geneId2Index then Some(geneId2Index[id]) else None, q)
      case None =>
        if q in alias2Index then (Some(alias2Index[q]), q)
        else if Upper(q) in alias2Index then (Some(alias2Index[Upper(q)]), Upper(q))
        else (None, q)
    }

    /** The lookups of a list of names. */
    function Resolved(queries: seq<string>): (r: seq<Lookup>)
      requires Valid()
      ensures |r| == |queries| && forall k :: 0 <= k < |queries| ==> r[k] == Resolve(queries[k])
      ensures Below(r, numObjects)
    {
      seq(|queries|, k requires 0 <= k < |queries| => Resolve(queries[k]))
    }

    /** `map_symbols` before the used positions are sorted: each entry
      * holds the position its name resolves to, and every position used
      * is a gene's. */
    function Mapped(queries: seq<string>): (r: (seq<Entry>, map<nat, string>))
      requires Valid()
      ensures |r.0| == |queries| && forall k :: 0 <= k < |queries| ==> r.0[k].0 == Resolve(queries[k]).0
      ensures forall i :: i in r.1 ==> i < numObjects
    {
      var rs := Resolved(queries);
      AssignIndices(conflicts, rs);
      UsedClaims(conflicts, rs);
      Assign(conflicts, rs)
    }

    /** `map_symbols`: the entry of every name, and the positions used,
      * in increasing order. */
    method MapSymbols(queries: seq<string>) returns (res: seq<Entry>, used: seq<nat>)
      requires Valid()
      ensures res == Mapped(queries).0
      ensures Increasing(used) && forall i :: i in used <==> i in Mapped(queries).1
    {
      ghost var rs := Resolved(queries);
      res := [];
      var usedIndices: map<nat, string> := map[];
      for k := 0 to |queries|
        invariant (res, usedIndices) == Assign(conflicts, rs[..k])
      {
        assert rs[..k + 1][..k] == rs[..k];
        var q := queries[k];
        var i: Option<nat>;
        var name := q;
        var parsed := ParseInt(q);
        if parsed.Some? {
          i := if parsed.value in geneId2Index then Some(geneId2Index[parsed.value]) else None;
        } else {
          i := if q in alias2Index then Some(alias2Index[q]) else None;
          if i.None? {
            var upper := Upper(q);
            if upper in alias2Index {
              i := Some(alias2Index[upper]);
              name := upper;
            }
          }
        }
        assert (i, name) == rs[k];
        var warn: Option<Warning> := None;
        if i.None? {
          warn := if name in conflicts then ConflictOf(conflicts, name) else Some(Warning(name, UnknownId, None));
        } else if i.value in usedIndices {
          warn := Some(Warning(name, DuplicateId, Some([usedIndices[i.value]])));
        } else {
          warn := ConflictOf(conflicts, name);
          usedIndices := usedIndices[i.value := name];
        }
        res := res + [(i, warn)];
      }
      assert rs[..|queries|] == rs;
      UsedClaims(conflicts, rs);
      used := SortedBelow(usedIndices.Keys, numObjects);
    }

    /** `map_symbols_to_gene_ids`: as `map_symbols`, with gene ids in
      * place of positions. */
    method MapSymbolsToGeneIds(queries: seq<string>) returns (res: seq<(Option<int>, Option<Warning>)>, usedIds: seq<int>)
      requires Valid()
      ensures |res| == |queries|
      ensures forall k :: 0 <= k < |queries| ==>
                Resolve(queries[k]).0.Some? ==> res[k].0 == Some(geneIds[Resolve(queries[k]).0.value])
      ensures forall k :: 0 <= k < |queries| ==>
                (Resolve(queries[k]).0.None? ==> res[k].0.None?) && res[k].1 == Mapped(queries).0[k].1
      ensures var used := SortedBelow(Mapped(queries).1.Keys, numObjects);
              |usedIds| == |used| && forall k :: 0 <= k < |used| ==> usedIds[k] == geneIds[used[k]]
    {
      var res0, used := MapSymbols(queries);
      AscendingNatsUnique(used, SortedBelow(Mapped(queries).1.Keys, numObjects));
      assert forall k :: 0 <= k < |res0| && res0[k].0.Some? ==> res0[k].0.value < |geneIds|;
      forall k | 0 <= k < |used| ensures used[k] < |geneIds| {
        assert used[k] in used;
      }
      res := seq(|res0|, k requires 0 <= k < |res0| =>
                   (if res0[k].0.Some? then Some(geneIds[res0[k].0.value]) else None, res0[k].1));
      usedIds := seq(|used|, k requires 0 <= k < |used| => geneIds[used[k]]);
    }

    /** A name whose gene an earlier name of the list already took gets the
      * `DUPLICATE_ID` warning, naming the first name that took it; no
      * other entry gets that warning. Every entry's position is the one
      * its name resolves to. */
    lemma DuplicateWarning(queries: seq<string>, k: nat)
      requires Valid() && k < |queries|
      ensures Mapped(queries).0[k].0 == Resolve(queries[k]).0
      ensures var e := Mapped(queries).0[k];
              (e.1.Some? && e.1.value.kind == DuplicateId) <==>
              (e.0.Some? && exists j :: 0 <= j < k && Resolve(queries[j]).0 == e.0)
      ensures var e := Mapped(queries).0[k];
              e.1.Some? && e.1.value.kind == DuplicateId ==>
                exists j :: 0 <= j < k && FirstClaim(Resolved(queries), e.0.value, j)
                            && e.1 == Some(Warning(Resolve(queries[k]).1, DuplicateId, Some([Resolve(queries[j]).1])))
    {
      AssignDuplicate(conflicts, Resolved(queries), k);
    }

    /** Every warning `map_symbols` gives has one of the four types, so
      * the default wording covers it. */
    lemma MappedKinds(queries: seq<string>, k: nat)
      requires Valid() && k < |queries|
      ensures Mapped(queries).0[k].1.Some? ==> Mapped(queries).0[k].1.value.kind < |WarningFormats|
    {
      AssignEntry(conflicts, Resolved(queries), k);
    }

    /** A decimal integer is looked up as a gene id, and only as one. */
    lemma ResolveGeneId(q: string, id: int)
      requires Valid() && ParseInt(q) == Some(id)
      ensures Resolve(q).0.Some? <==> id in geneIds
      ensures Resolve(q).0.Some? ==> geneIds[Resolve(q).0.value] == id
    {
    }

    /** With separated names, a symbol or alias that is not a number finds
      * its gene, and so does a spelling that upper-cases to it and is no
      * name of its own. */
    lemma ResolveName(k: nat, q: string, low: string)
      requires Valid() && Separated(symbols, symbol2aliases) && k < numObjects
      requires ParseInt(q).None?
      requires q == symbols[k] || q in symbol2aliases[symbols[k]]
      ensures Resolve(q) == (Some(k), q)
      ensures ParseInt(low).None? && low !in alias2Index && Upper(low) == q ==> Resolve(low) == (Some(k), q)
    {
      AliasIndexResolves(symbols, symbol2aliases, |symbols|);
    }

    // ----------------------------------------------------------------
    // get_record
    // ----------------------------------------------------------------

    /** How many of the three selectors are left out. */
    static function Omitted(index: Option<int>, geneId: Option<string>, symbol: Option<string>): nat
    {
      (if index.None? then 1 else 0) + (if geneId.None? then 1 else 0) + (if symbol.None? then 1 else 0)
    }

    /** The position a selector names: a gene id is parsed with `int` and
      * looked up, a symbol is looked up among the names, an index is taken
      * as given. */
    function Selected(index: Option<int>, geneId: Option<string>, symbol: Option<string>): (r: Result<int>)
      requires Valid() && Omitted(index, geneId, symbol) == 2
      ensures r.Err? ==> r.error == "ValueError" || r.error == "KeyError"
    {
      if geneId.Some? then
        match ParseInt(geneId.value)
        case None => Err("ValueError")
        case Some(id) => if id in geneId2Index then Ok(geneId2Index[id] as int) else Err("KeyError")
      else if symbol.Some? then
        if symbol.value in alias2Index then Ok(alias2Index[symbol.value] as int) else Err("KeyError")
      else Ok(index.value)
    }

    /** `get_record` with the file closed: exactly one selector, then the
      * gene's symbol, id and description, a negative index counting from
      * the end as Python's list indexing does. */
    function GetRecord(index: Option<int>, geneId: Option<string>, symbol: Option<string>): (r: Result<Record>)
      requires Valid()
      ensures r == Err("AssertionError") <==> Omitted(index, geneId, symbol) != 2
      ensures r.Ok? ==> exists k :: 0 <= k < numObjects && r.value == Record(symbols[k], geneIds[k], descriptions[k])
    {
      if Omitted(index, geneId, symbol) != 2 then Err("AssertionError")
      else
        var i :- Selected(index, geneId, symbol);
        match PyIndex(i, numObjects)
        case None => Err("IndexError")
        case Some(k) => Ok(Record(symbols[k], geneIds[k], descriptions[k]))
    }

    /** A gene id in the table selects its gene; another is a KeyError. */
    lemma RecordByGeneId(g: string, id: int)
      requires Valid() && ParseInt(g) == Some(id)
      ensures GetRecord(None, Some(g), None).Ok? <==> id in geneIds
      ensures GetRecord(None, Some(g), None).Ok? ==> GetRecord(None, Some(g), None).value.geneId == id
      ensures id !in geneIds ==> GetRecord(None, Some(g), None) == Err("KeyError")
    {
      if id in geneId2Index {
        var i := geneId2Index[id];
        assert Selected(None, Some(g), None) == Ok(i as int);
      }
    }

    /** With separated names, a symbol or any of its aliases selects the
      * symbol's gene. */
    lemma RecordByName(k: nat, name: string)
      requires Valid() && Separated(symbols, symbol2aliases) && k < numObjects
      requires name == symbols[k] || name in symbol2aliases[symbols[k]]
      ensures GetRecord(None, None, Some(name)) == Ok(Record(symbols[k], geneIds[k], descriptions[k]))
    {
      AliasIndexResolves(symbols, symbol2aliases, |symbols|);
    }
  }

  lemma SharedNonEmpty(a: seq<nat>, b: seq<nat>)
    requires forall x :: x in a <==> x in b
    ensures a != [] ==> b != []
  {
    if a != [] {
      assert a[0] in b;
    }
  }

  /** Building the tables: a symbol without an entry in `symbol2aliases`
    * is a KeyError. */
  method NewGenes(geneInfoFile: string, geneInfoChecksum: int, taxId: int, info: NcbiGene.GeneInfo)
      returns (r: Result<Genes>)
    requires |info.geneIds| == |info.symbols| == |info.descriptions|
    ensures r.Err? <==> !Complete(info.symbols, info.symbol2aliases)
    ensures r.Err? ==> r.error == "KeyError"
    ensures r.Ok? ==> fresh(r.value) && r.value.Valid() && r.value.geneIds == info.geneIds
                      && r.value.symbols == info.symbols && r.value.descriptions == info.descriptions
                      && r.value.conflicts == ConflictTable(info.conflict1, info.conflict2)
  {
    if !Complete(info.symbols, info.symbol2aliases) {
      return Err("KeyError");
    }
    var g := new Genes(geneInfoFile, geneInfoChecksum, taxId, info);
    return Ok(g);
  }

  /** Two increasing sequences with the same elements are equal. */
  lemma {:induction false} AscendingNatsUnique(a: seq<nat>, b: seq<nat>)
    requires Increasing(a) && Increasing(b) && forall x :: x in a <==> x in b
    ensures a == b
    decreases |a|
  {
    SharedNonEmpty(a, b);
    SharedNonEmpty(b, a);
    if a != [] {
      assert a[0] == b[0] by {
        assert a[0] in b && b[0] in a;
      }
      forall x ensures x in a[1..] <==> x in b[1..] {
        if x in a[1..] {
          assert x in b && x != b[0];
        }
        if x in b[1..] {
          assert x in a && x != a[0];
        }
      }
      AscendingNatsUnique(a[1..], b[1..]);
    }
  }

  // ------------------------------------------------------------------
  // Wording of the warnings
  // ------------------------------------------------------------------

  /** The separators of `format_id_list` for `n` names: a list of ", "
    * whose last entry is cleared and whose last but one is replaced. */
  function Seps(n: nat): (r: seq<string>)
    requires n >= 2
    ensures |r| == n && r[n - 1] == "" && r[n - 2] == " and "
    ensures forall k :: 0 <= k < n - 2 ==> r[k] == ", "
  {
    seq(n, _ => ", ")[n - 1 := ""][n - 2 := " and "]
  }

  /** `format_id_list`: nothing, the one name, or each name followed by
    * its separator. */
  function FormatIdList(ids: seq<string>): string
  {
    if ids == [] then ""
    else if |ids| == 1 then ids[0]
    else
      var seps := Seps(|ids|);
      Concat(seq(|ids|, k requires 0 <= k < |ids| => ids[k] + seps[k]))
  }

  /** The phrase "a, b and c" as a reader would write it. */
  function Enumeration(ids: seq<string>): string
  {
    if |ids| <= 1 then Joined(ids, "")
    else Joined(ids[..|ids| - 1], ", ") + " and " + ids[|ids| - 1]
  }

  /** `format_id_list` writes the phrase. */
  lemma FormatIdListIsEnumeration(ids: seq<string>)
    ensures FormatIdList(ids) == Enumeration(ids)
  {
    var n := |ids|;
    if n >= 2 {
      var front := ids[..n - 1];
      FormatPieces(ids);
      JoinedAsConcat(front, ", ");
      assert seq(n - 2, k requires 0 <= k < n - 2 => front[k] + ", ")
          == seq(n - 2, k requires 0 <= k < n - 2 => ids[k] + ", ");
    }
  }

  /** The pieces of two or more names: each but the last two with ", ",
    * the last but one with " and ", the last alone. */
  lemma FormatPieces(ids: seq<string>)
    requires |ids| >= 2
    ensures FormatIdList(ids) ==
              Concat(seq(|ids| - 2, k requires 0 <= k < |ids| - 2 => ids[k] + ", "))
              + (ids[|ids| - 2] + " and ") + ids[|ids| - 1]
  {
    var n := |ids|;
    var seps := Seps(n);
    var ps := seq(n, k requires 0 <= k < n => ids[k] + seps[k]);
    var qs := seq(n - 2, k requires 0 <= k < n - 2 => ids[k] + ", ");
    assert ps[..n - 1] == qs + [ids[n - 2] + " and "];
    assert Concat(ps) == Concat(ps[..n - 1]) + ids[n - 1];
    assert (qs + [ids[n - 2] + " and "])[..n - 2] == qs;
  }

  /** A part of a warning format: text, `%(id)s` or `%(aliases)s`. */
  datatype Piece = Literal(text: string) | IdField | AliasesField

  type Template = seq<Piece>

  /** `fmt % data` with `data['id']` and `data['aliases']` filled in. */
  function Render(t: Template, id: string, aliases: string): string
  {
    if t == [] then ""
    else
      var head := match t[0]
        case Literal(s) => s
        case IdField => id
        case AliasesField => aliases;
      head + Render(t[1..], id, aliases)
  }

  /** `WARNING_FMTS`, by warning type. */
  const WarningFormats: seq<Template> := [
    [Literal("Term database does not contain identifier "), IdField, Literal(" - IGNORED.")],
    [Literal("Identifier "), IdField, Literal(" is also used for "), AliasesField, Literal(".")],
    [Literal("Identifier "), IdField, Literal(" is an alias for "), AliasesField, Literal(" - IGNORED.")],
    [Literal("Duplicate weight for "), IdField, Literal(" (original id "), AliasesField,
     Literal(") - additional instance IGNORED.")]
  ]

  /** The message for one warning; missing aliases read as empty. */
  function Message(w: Warning, fmts: seq<Template>): string
    requires w.kind < |fmts|
  {
    Render(fmts[w.kind], w.name, if w.aliases.Some? then FormatIdList(w.aliases.value) else "")
  }

  /** `warning_msgs`: the message of every warning whose type is not
    * excluded, in order; a type with no format is an IndexError. */
  function WarningMsgs(ws: seq<Warning>, exclude: set<nat>, fmts: seq<Template>): Result<seq<string>>
  {
    if ws == [] then Ok([])
    else if ws[0].kind in exclude then WarningMsgs(ws[1..], exclude, fmts)
    else if ws[0].kind >= |fmts| then Err("IndexError")
    else
      var rest :- WarningMsgs(ws[1..], exclude, fmts);
      Ok([Message(ws[0], fmts)] + rest)
  }

  /** `warning_msgs` with its defaults: unknown names are not reported,
    * and the wording is `WARNING_FMTS`. */
  function DefaultWarningMsgs(ws: seq<Warning>): Result<seq<string>>
  {
    WarningMsgs(ws, {UnknownId}, WarningFormats)
  }

  /** The warnings that are not excluded. */
  function Kept(ws: seq<Warning>, exclude: set<nat>): (r: seq<Warning>)
    ensures forall w :: w in r <==> w in ws && w.kind !in exclude
  {
    if ws == [] then []
    else (if ws[0].kind in exclude then [] else [ws[0]]) + Kept(ws[1..], exclude)
  }

  /** There is one message per warning kept, in order, and the call fails
    * exactly when a kept warning has a type without a format. */
  lemma {:induction false} WarningMsgsKept(ws: seq<Warning>, exclude: set<nat>, fmts: seq<Template>)
    ensures WarningMsgs(ws, exclude, fmts).Ok? <==> forall w :: w in Kept(ws, exclude) ==> w.kind < |fmts|
    ensures WarningMsgs(ws, exclude, fmts).Ok? ==>
              var msgs := WarningMsgs(ws, exclude, fmts).value;
              var kept := Kept(ws, exclude);
              |msgs| == |kept| && forall k :: 0 <= k < |kept| ==> msgs[k] == Message(kept[k], fmts)
  {
    if ws != [] {
      WarningMsgsKept(ws[1..], exclude, fmts);
    }
  }

  /** The fixed text each default format opens with. */
  function Lead(kind: nat): string
    requires kind < |WarningFormats|
  {
    ["Term database does not contain identifier ", "Identifier ", "Identifier ", "Duplicate weight for "][kind]
  }

  lemma RenderOpening(t: Template, id: string, aliases: string)
    requires |t| >= 2 && t[0].Literal? && t[1] == IdField
    ensures Render(t, id, aliases) == t[0].text + (id + Render(t[2..], id, aliases))
  {
    assert t[1..][1..] == t[2..];
  }

  /** The message of each of the four types opens with its fixed text and
    * the identifier. */
  lemma MessageNamesId(w: Warning)
    requires w.kind < |WarningFormats|
    ensures |Lead(w.kind)| + |w.name| <= |Message(w, WarningFormats)|
    ensures Message(w, WarningFormats)[..|Lead(w.kind)| + |w.name|] == Lead(w.kind) + w.name
  {
    var t := WarningFormats[w.kind];
    var a := if w.aliases.Some? then FormatIdList(w.aliases.value) else "";
    RenderOpening(t, w.name, a);
    assert t[0].text == Lead(w.kind);
    var m := Message(w, WarningFormats);
    assert m == Lead(w.kind) + w.name + Render(t[2..], w.name, a);
  }

  /** Warnings of the four types, as `map_symbols` gives them, always
    * have a default wording. */
  lemma DefaultWordingCovers(ws: seq<Warning>)
    requires forall w :: w in ws ==> w.kind < |WarningFormats|
    ensures DefaultWarningMsgs(ws).Ok?
  {
    WarningMsgsKept(ws, {UnknownId}, WarningFormats);
  }
}
