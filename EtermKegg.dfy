/** The KEGG namespace of an extended term database: the terms the
  * pathways with hits reach on their way to the root, each with its flag,
  * sorted hits, display id, name and link to its parent, led by the root
  * entry for the whole database. */
module EtermKegg {
  import opened Wrappers
  import opened Indexing
  import opened Ordering
  import opened EtermLayout
  import opened EtermHits
  import Bri

  /** What the first pass records for one term. */
  datatype Entry = Entry(flag: nat, hits: seq<nat>, id: string, name: string, parent: Option<string>)

  /** The root of the whole database, entry 0, flagged 2. */
  const RootEntry := Entry(2, [], "KEGG:Pathway", "KEGG Pathway Database", None)

  /** The first pass for term `t`: 0 for a pathway and 1 for a higher
    * level, its hits sorted, its display id, its name and its parent. A
    * term the ontology does not name, a pathway without an organism
    * prefix and a term without a parent entry raise. */
  function EntryOf(o: Bri.KeggOntology, t: string, term2hits: Term2Hits): (r: Result<Entry>)
    reads o
    ensures r.Ok? ==> && r.value.hits == SortedNats(Lookup(term2hits, t))
                      && t in o.terms && r.value.name == o.terms[t]
                      && t in o.term2parent && r.value.parent == o.term2parent[t]
                      && t in o.term2type && r.value.flag == (if o.term2type[t] == "C" then 0 else 1)
  {
    var term :- o.GetTerm(Some(t), None);
    var id :- Bri.FormatId(term);
    if t !in o.term2parent then Err("KeyError")
    else Ok(Entry(if term.termType == "C" then 0 else 1, SortedNats(Lookup(term2hits, t)), id, term.name,
                  o.term2parent[t]))
  }

  /** The first pass's entry for each term, in order. */
  function EntryResults(o: Bri.KeggOntology, ts: seq<string>, term2hits: Term2Hits): (rs: seq<Result<Entry>>)
    reads o
    ensures |rs| == |ts| && forall k :: 0 <= k < |ts| ==> rs[k] == EntryOf(o, ts[k], term2hits)
  {
    seq(|ts|, k reads o requires 0 <= k < |ts| => EntryOf(o, ts[k], term2hits))
  }

  /** The second pass for one term: no relationship for the root, or one
    * `is_a` link to the position of the parent. */
  function LinkOf(parent: Option<string>, index: map<string, nat>): (r: Result<seq<(nat, nat)>>)
    ensures parent.None? ==> r == Ok([])
    ensures parent.Some? ==> (r.Ok? <==> parent.value in index)
    ensures parent.Some? && r.Ok? ==> r.value == [(index[parent.value], 0)]
  {
    match parent
    case None => Ok([])
    case Some(p) => if p in index then Ok([(index[p], 0)]) else Err("KeyError")
  }

  /** The second pass's relationships for each entry, in order. */
  function LinkResults(es: seq<Entry>, index: map<string, nat>): (rs: seq<Result<seq<(nat, nat)>>>)
    ensures |rs| == |es| && forall k :: 0 <= k < |es| ==> rs[k] == LinkOf(es[k].parent, index)
  {
    seq(|es|, k requires 0 <= k < |es| => LinkOf(es[k].parent, index))
  }

  /** The section made of the entries and their links. */
  function SectionOf(es: seq<Entry>, links: seq<seq<(nat, nat)>>): Section
  {
    Section(["is_a"], seq(|es|, k requires 0 <= k < |es| => es[k].flag),
            seq(|es|, k requires 0 <= k < |es| => es[k].hits),
            seq(|es|, k requires 0 <= k < |es| => es[k].id),
            seq(|es|, k requires 0 <= k < |es| => es[k].name), links, [])
  }

  /** `_kegg_process_namespace` once the terms are ordered: the root entry
    * and the entries of `allTerms`, with links into the positions of the
    * root and those terms. */
  function KeggSection(o: Bri.KeggOntology, allTerms: seq<string>, term2hits: Term2Hits): Result<Section>
    reads o
  {
    var es :- Collect(EntryResults(o, allTerms, term2hits));
    var links :- Collect(LinkResults([RootEntry] + es, Enumerated([Bri.Root] + allTerms)));
    Ok(SectionOf([RootEntry] + es, links))
  }

  /** What the section holds: entry 0 is the root, flagged 2, without hits
    * or parent; entry k + 1 is term `allTerms[k]`, flagged 0 for a
    * pathway and 1 above, with its hits in increasing order, its name, and
    * a link to the position of its parent when it has one. The only edge
    * type is `is_a`, and there is no metadata yet. */
  lemma KeggSectionMeaning(o: Bri.KeggOntology, allTerms: seq<string>, term2hits: Term2Hits, k: nat)
    requires KeggSection(o, allTerms, term2hits).Ok? && k < |allTerms|
    ensures var s := KeggSection(o, allTerms, term2hits).value;
            var t := allTerms[k];
            && s.edgetypeNames == ["is_a"] && s.metadata == []
            && |s.slimFlags| == |s.termHits| == |s.termIds| == |s.descriptions| == |s.relationships| == |allTerms| + 1
            && s.slimFlags[0] == 2 && s.termHits[0] == [] && s.termIds[0] == "KEGG:Pathway"
            && s.descriptions[0] == "KEGG Pathway Database" && s.relationships[0] == []
            && t in o.term2type && s.slimFlags[k + 1] == (if o.term2type[t] == "C" then 0 else 1)
            && Increasing(s.termHits[k + 1]) && (forall i :: i in s.termHits[k + 1] <==> i in Lookup(term2hits, t))
            && t in o.terms && s.descriptions[k + 1] == o.terms[t]
            && t in o.term2parent
            && (o.term2parent[t].None? ==> s.relationships[k + 1] == [])
            && (o.term2parent[t].Some? ==>
                  exists j :: 0 <= j < |allTerms| + 1 && s.relationships[k + 1] == [(j, 0)]
                              && ([Bri.Root] + allTerms)[j] == o.term2parent[t].value)
  {
    var es := Collect(EntryResults(o, allTerms, term2hits)).value;
    var all := [RootEntry] + es;
    var index := Enumerated([Bri.Root] + allTerms);
    var links := Collect(LinkResults(all, index)).value;
    assert all[k + 1] == es[k];
    assert LinkResults(all, index)[k + 1] == Ok(links[k + 1]);
    assert LinkResults(all, index)[0] == Ok(links[0]);
  }

  /** When the terms are the closure of keys other than the root and every
    * entry is built, the second pass cannot fail: the closure holds the
    * parent of each of its terms, or that parent is the root. */
  lemma KeggLinksResolve(o: Bri.KeggOntology, keys: seq<string>, allTerms: seq<string>, term2hits: Term2Hits)
    requires Bri.Closure(o.term2parent, keys).Ok? && Bri.Root !in keys
    requires forall t :: t in allTerms <==> t in Bri.Closure(o.term2parent, keys).value.0
    requires Collect(EntryResults(o, allTerms, term2hits)).Ok?
    ensures KeggSection(o, allTerms, term2hits).Ok?
  {
    var es := Collect(EntryResults(o, allTerms, term2hits)).value;
    var index := Enumerated([Bri.Root] + allTerms);
    forall k | 0 <= k < |es| ensures es[k].parent.Some? && es[k].parent.value in index {
      ParentIndexed(o, keys, allTerms, term2hits, k);
    }
    LinksResolve(es, index);
  }

  /** The second pass succeeds when every entry after the root has a
    * parent with a position. */
  lemma LinksResolve(es: seq<Entry>, index: map<string, nat>)
    requires forall k :: 0 <= k < |es| ==> es[k].parent.Some? && es[k].parent.value in index
    ensures Collect(LinkResults([RootEntry] + es, index)).Ok?
  {
    var all := [RootEntry] + es;
    var rs := LinkResults(all, index);
    forall k | 0 <= k < |rs| ensures rs[k].Ok? {
      if k > 0 {
        assert all[k] == es[k - 1];
      }
    }
    CollectOk(rs);
  }

  /** The parent recorded for term k of the closure is a term of the
    * closure or the root. */
  lemma ParentIndexed(o: Bri.KeggOntology, keys: seq<string>, allTerms: seq<string>, term2hits: Term2Hits, k: nat)
    requires Bri.Closure(o.term2parent, keys).Ok? && Bri.Root !in keys
    requires forall t :: t in allTerms <==> t in Bri.Closure(o.term2parent, keys).value.0
    requires Collect(EntryResults(o, allTerms, term2hits)).Ok? && k < |allTerms|
    ensures var e := Collect(EntryResults(o, allTerms, term2hits)).value[k];
            e.parent.Some? && e.parent.value in Enumerated([Bri.Root] + allTerms)
  {
    Bri.ClosureShape(o.term2parent, keys);
    var es := Collect(EntryResults(o, allTerms, term2hits)).value;
    assert EntryResults(o, allTerms, term2hits)[k] == Ok(es[k]);
    assert allTerms[k] != Bri.Root;
  }

  /** `_kegg_process_namespace`: orders the closure of the pathways with
    * hits, builds every entry after the root in a first pass and the
    * links in a second; fails as the closure or a pass does. */
  method KeggProcessNamespace(o: Bri.KeggOntology, keys: seq<string>, term2hits: Term2Hits)
    returns (r: Result<Section>, allTerms: seq<string>)
    requires forall t :: t in keys <==> t in term2hits
    ensures Bri.Closure(o.term2parent, keys).Err? ==> r == Err(Bri.Closure(o.term2parent, keys).error)
    ensures Bri.Closure(o.term2parent, keys).Ok? ==>
              && Distinct(allTerms)
              && (forall t :: t in allTerms <==> t in Bri.Closure(o.term2parent, keys).value.0)
              && r == KeggSection(o, allTerms, term2hits)
  {
    var closure := o.TransitiveClosure(keys);
    if closure.Err? {
      return Err(closure.error), [];
    }
    allTerms := Arrange(closure.value.0);
    var entries, termid2index := FirstPass(o, allTerms, term2hits);
    if entries.Err? {
      return Err(entries.error), allTerms;
    }
    var links := SecondPass(entries.value, termid2index);
    if links.Err? {
      return Err(links.error), allTerms;
    }
    r := Ok(SectionOf(entries.value, links.value));
  }

  /** The state of the first pass after `i` terms: their entries after
    * the root's, and the positions of the root and those terms. */
  ghost predicate Entered(o: Bri.KeggOntology, allTerms: seq<string>, term2hits: Term2Hits, i: nat,
                          entries: seq<Entry>, index: map<string, nat>)
    reads o
  {
    && i <= |allTerms|
    && Collect(EntryResults(o, allTerms, term2hits)[..i]).Ok?
    && entries == [RootEntry] + Collect(EntryResults(o, allTerms, term2hits)[..i]).value
    && index == Enumerated([Bri.Root] + allTerms[..i])
  }

  /** One more term entered. */
  lemma EnteredNext(o: Bri.KeggOntology, allTerms: seq<string>, term2hits: Term2Hits, i: nat,
                    entries: seq<Entry>, index: map<string, nat>, e: Entry)
    requires Entered(o, allTerms, term2hits, i, entries, index) && i < |allTerms|
    requires EntryOf(o, allTerms[i], term2hits) == Ok(e)
    ensures Entered(o, allTerms, term2hits, i + 1, entries + [e], index[allTerms[i] := i + 1])
  {
    var rs := EntryResults(o, allTerms, term2hits);
    assert rs[i] == Ok(e);
    CollectSnoc(rs, i, e);
    PositionsNext(allTerms, i);
    assert entries + [e] == [RootEntry] + (Collect(rs[..i]).value + [e]);
  }

  /** Recording the next term's position. */
  lemma PositionsNext(allTerms: seq<string>, i: nat)
    requires i < |allTerms|
    ensures Enumerated([Bri.Root] + allTerms[..i])[allTerms[i] := i + 1] == Enumerated([Bri.Root] + allTerms[..i + 1])
  {
    EnumeratedSnoc([Bri.Root] + allTerms[..i], allTerms[i]);
    assert [Bri.Root] + allTerms[..i + 1] == [Bri.Root] + allTerms[..i] + [allTerms[i]];
  }

  /** The first pass: the root entry, then one entry per term in order,
    * stopping at the first term that raises; each term's position is
    * recorded as it is entered. */
  method FirstPass(o: Bri.KeggOntology, allTerms: seq<string>, term2hits: Term2Hits)
    returns (r: Result<seq<Entry>>, termid2index: map<string, nat>)
    ensures r.Err? ==> Collect(EntryResults(o, allTerms, term2hits)) == Err(r.error)
    ensures r.Ok? ==> Collect(EntryResults(o, allTerms, term2hits)).Ok?
                      && r.value == [RootEntry] + Collect(EntryResults(o, allTerms, term2hits)).value
    ensures r.Ok? ==> termid2index == Enumerated([Bri.Root] + allTerms)
  {
    var entries := [RootEntry];
    termid2index := map[Bri.Root := 0];
    EnumeratedSnoc([], Bri.Root);
    for i := 0 to |allTerms|
      invariant Entered(o, allTerms, term2hits, i, entries, termid2index)
    {
      var t := allTerms[i];
      var e := EnterTerm(o, t, term2hits);
      if e.Err? {
        CollectStops(EntryResults(o, allTerms, term2hits), i);
        return Err(e.error), termid2index[t := i + 1];
      }
      EnteredNext(o, allTerms, term2hits, i, entries, termid2index, e.value);
      termid2index := termid2index[t := i + 1];
      entries := entries + [e.value];
    }
    assert EntryResults(o, allTerms, term2hits)[..|allTerms|] == EntryResults(o, allTerms, term2hits);
    assert allTerms[..|allTerms|] == allTerms;
    return Ok(entries), termid2index;
  }

  /** The body of the first pass for one term. */
  method EnterTerm(o: Bri.KeggOntology, t: string, term2hits: Term2Hits) returns (r: Result<Entry>)
    ensures r == EntryOf(o, t, term2hits)
  {
    var term := o.GetTerm(Some(t), None);
    if term.Err? {
      return Err(term.error);
    }
    var hits := SortedNats(Lookup(term2hits, t));
    var flag := if term.value.termType == "C" then 0 else 1;
    var id := Bri.FormatId(term.value);
    if id.Err? {
      return Err(id.error);
    }
    if t !in o.term2parent {
      return Err("KeyError");
    }
    return Ok(Entry(flag, hits, id.value, term.value.name, o.term2parent[t]));
  }

  /** The second pass: the links of every entry in order, stopping at the
    * first parent without a position. */
  method SecondPass(entries: seq<Entry>, termid2index: map<string, nat>) returns (r: Result<seq<seq<(nat, nat)>>>)
    ensures r == Collect(LinkResults(entries, termid2index))
  {
    ghost var rs := LinkResults(entries, termid2index);
    var relationships := [];
    for k := 0 to |entries|
      invariant Collect(rs[..k]) == Ok(relationships)
    {
      assert rs[..k + 1][..k] == rs[..k];
      var parent := entries[k].parent;
      if parent.Some? {
        if parent.value !in termid2index {
          CollectPersists(rs, k + 1);
          return Err("KeyError");
        }
        relationships := relationships + [[(termid2index[parent.value], 0)]];
      } else {
        relationships := relationships + [[]];
      }
    }
    assert rs[..|entries|] == rs;
    return Ok(relationships);
  }
}
