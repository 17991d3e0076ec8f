/** A Gene Ontology namespace of an extended term database: the terms the
  * namespace's terms with hits reach through the ontology's closure, each
  * with its sorted hits, id, name and relationships, the relationships
  * given as positions of the parent and of the edge type. */
module EtermGo {
  import opened Wrappers
  import opened Indexing
  import opened Ordering
  import opened EtermLayout
  import opened EtermHits
  import Obo
  import OboOntology

  /** The terms of `keys`, in order, whose namespace is `namespace`; the
    * first key without a term raises. */
  function NsTerms(o: OboOntology.Ontology, keys: seq<string>, namespace: string): (r: Result<seq<string>>)
    reads o
    ensures r.Ok? ==> forall t :: t in r.value <==> (t in keys && o.GetTerm(Some(t), None).Ok?
                                                     && o.GetTerm(Some(t), None).value.namespace == namespace)
    ensures r.Ok? <==> forall k :: 0 <= k < |keys| ==> o.GetTerm(Some(keys[k]), None).Ok?
  {
    if keys == [] then Ok([])
    else
      var init := keys[..|keys| - 1];
      var last := keys[|keys| - 1];
      assert keys == init + [last];
      var done :- NsTerms(o, init, namespace);
      var term :- o.GetTerm(Some(last), None);
      Ok(done + if term.namespace == namespace then [last] else [])
  }

  /** What the first pass records for one term: its sorted hits, its id,
    * its name and its relationships as (parent, edge type). */
  datatype Entry = Entry(hits: seq<nat>, id: string, name: string, rels: seq<(string, string)>)

  /** The relationships of a term, each turned round to (parent, edge type). */
  function Turned(rels: seq<(string, string)>): (r: seq<(string, string)>)
    ensures |r| == |rels| && forall n :: 0 <= n < |rels| ==> r[n] == (rels[n].1, rels[n].0)
  {
    seq(|rels|, n requires 0 <= n < |rels| => (rels[n].1, rels[n].0))
  }

  /** The first pass for term `t`; a term without a record raises. */
  function EntryOf(o: OboOntology.Ontology, t: string, term2hits: Term2Hits): (r: Result<Entry>)
    reads o
    ensures r.Ok? <==> o.GetTerm(Some(t), None).Ok?
    ensures r.Ok? ==> && r.value.hits == SortedNats(Lookup(term2hits, t)) && r.value.id == t
                      && r.value.name == o.GetTerm(Some(t), None).value.name
                      && r.value.rels == Turned(o.GetTerm(Some(t), None).value.relationships)
  {
    var term :- o.GetTerm(Some(t), None);
    Ok(Entry(SortedNats(Lookup(term2hits, t)), term.termId, term.name, Turned(term.relationships)))
  }

  /** The first pass's entry for each term, in order. */
  function EntryResults(o: OboOntology.Ontology, ts: seq<string>, term2hits: Term2Hits): (rs: seq<Result<Entry>>)
    reads o
    ensures |rs| == |ts| && forall k :: 0 <= k < |ts| ==> rs[k] == EntryOf(o, ts[k], term2hits)
  {
    seq(|ts|, k reads o requires 0 <= k < |ts| => EntryOf(o, ts[k], term2hits))
  }

  /** Every edge type of every entry. */
  function EdgeTypes(es: seq<Entry>): (r: set<string>)
    ensures forall x :: x in r <==> exists k, n :: 0 <= k < |es| && 0 <= n < |es[k].rels| && es[k].rels[n].1 == x
  {
    if es == [] then {}
    else
      var init := es[..|es| - 1];
      var last := es[|es| - 1];
      assert forall k :: 0 <= k < |init| ==> init[k] == es[k];
      EdgeTypes(init) + set n | 0 <= n < |last.rels| :: last.rels[n].1
  }

  /** The positions of the relationships of one term: a parent or an edge
    * type without a position raises. */
  function IndexRels(rels: seq<(string, string)>, index: map<string, nat>, typeIndex: map<string, nat>)
    : (r: Result<seq<(nat, nat)>>)
    ensures r.Ok? <==> forall n :: 0 <= n < |rels| ==> rels[n].0 in index && rels[n].1 in typeIndex
    ensures r.Ok? ==> |r.value| == |rels| &&
                      forall n :: 0 <= n < |rels| ==> r.value[n] == (index[rels[n].0], typeIndex[rels[n].1])
  {
    if rels == [] then Ok([])
    else
      var init := rels[..|rels| - 1];
      var (p, e) := rels[|rels| - 1];
      var done :- IndexRels(init, index, typeIndex);
      if p !in index || e !in typeIndex then Err("KeyError")
      else
        assert forall n :: 0 <= n < |init| ==> init[n] == rels[n];
        Ok(done + [(index[p], typeIndex[e])])
  }

  /** The second pass's relationship positions for each entry, in order. */
  function LinkResults(es: seq<Entry>, index: map<string, nat>, typeIndex: map<string, nat>)
    : (rs: seq<Result<seq<(nat, nat)>>>)
    ensures |rs| == |es| && forall k :: 0 <= k < |es| ==> rs[k] == IndexRels(es[k].rels, index, typeIndex)
  {
    seq(|es|, k requires 0 <= k < |es| => IndexRels(es[k].rels, index, typeIndex))
  }

  /** The section made of the entries, their edge types and their links. */
  function SectionOf(es: seq<Entry>, types: seq<string>, links: seq<seq<(nat, nat)>>): Section
  {
    Section(types, seq(|es|, k => 0),
            seq(|es|, k requires 0 <= k < |es| => es[k].hits),
            seq(|es|, k requires 0 <= k < |es| => es[k].id),
            seq(|es|, k requires 0 <= k < |es| => es[k].name), links, [])
  }

  /** `_go_process_namespace` once the terms are ordered: the entries of
    * `allTerms`, the sorted edge types, and the relationships as
    * positions into both. */
  function GoSection(o: OboOntology.Ontology, allTerms: seq<string>, term2hits: Term2Hits): Result<Section>
    reads o
  {
    var es :- Collect(EntryResults(o, allTerms, term2hits));
    var types := Sorted(EdgeTypes(es));
    var links :- Collect(LinkResults(es, Enumerated(allTerms), Enumerated(types)));
    Ok(SectionOf(es, types, links))
  }

  /** What the section holds: one entry per term, flagged 0, with its hits
    * in increasing order, its id and its name; the edge types are sorted
    * and are exactly those of the terms' relationships; relationship n of
    * term k is stored as the positions of its parent and its edge type. */
  lemma GoSectionMeaning(o: OboOntology.Ontology, allTerms: seq<string>, term2hits: Term2Hits, k: nat)
    requires GoSection(o, allTerms, term2hits).Ok? && k < |allTerms|
    ensures var s := GoSection(o, allTerms, term2hits).value;
            var t := allTerms[k];
            var term := o.GetTerm(Some(t), None);
            && |s.slimFlags| == |s.termHits| == |s.termIds| == |s.descriptions| == |s.relationships| == |allTerms|
            && Ascending(s.edgetypeNames) && s.metadata == []
            && s.slimFlags[k] == 0 && s.termIds[k] == t
            && Increasing(s.termHits[k]) && (forall i :: i in s.termHits[k] <==> i in Lookup(term2hits, t))
            && term.Ok? && s.descriptions[k] == term.value.name
            && (forall n :: 0 <= n < |term.value.relationships| ==> term.value.relationships[n].0 in s.edgetypeNames)
            && |s.relationships[k]| == |term.value.relationships|
            && (forall n :: 0 <= n < |s.relationships[k]| ==>
                  && s.relationships[k][n].0 < |allTerms| && allTerms[s.relationships[k][n].0] == term.value.relationships[n].1
                  && s.relationships[k][n].1 < |s.edgetypeNames|
                  && s.edgetypeNames[s.relationships[k][n].1] == term.value.relationships[n].0)
  {
    var es, types, links := GoSectionParts(o, allTerms, term2hits, k);
    var term := o.GetTerm(Some(allTerms[k]), None).value;
    SectionEntry(es, types, links, k);
    PositionsMeaning(es[k].rels, allTerms, types, Enumerated(allTerms), Enumerated(types), links[k]);
    TurnedPositions(term.relationships, es[k].rels, allTerms, types, links[k]);
  }

  /** The parts the section is made of, and what position k of each holds. */
  lemma GoSectionParts(o: OboOntology.Ontology, allTerms: seq<string>, term2hits: Term2Hits, k: nat)
    returns (es: seq<Entry>, types: seq<string>, links: seq<seq<(nat, nat)>>)
    requires GoSection(o, allTerms, term2hits).Ok? && k < |allTerms|
    ensures GoSection(o, allTerms, term2hits) == Ok(SectionOf(es, types, links))
    ensures |es| == |links| == |allTerms| && Ascending(types)
    ensures EntryOf(o, allTerms[k], term2hits) == Ok(es[k])
    ensures IndexRels(es[k].rels, Enumerated(allTerms), Enumerated(types)) == Ok(links[k])
    ensures forall n :: 0 <= n < |es[k].rels| ==> es[k].rels[n].1 in types
  {
    es := Collect(EntryResults(o, allTerms, term2hits)).value;
    types := Sorted(EdgeTypes(es));
    links := Collect(LinkResults(es, Enumerated(allTerms), Enumerated(types))).value;
    assert EntryResults(o, allTerms, term2hits)[k] == Ok(es[k]);
    assert LinkResults(es, Enumerated(allTerms), Enumerated(types))[k] == Ok(links[k]);
  }

  /** The positions of a term's turned relationships, read back against
    * the term's own (edge type, parent) pairs. */
  lemma TurnedPositions(rels: seq<(string, string)>, turned: seq<(string, string)>, allTerms: seq<string>,
                        types: seq<string>, ix: seq<(nat, nat)>)
    requires turned == Turned(rels) && |ix| == |turned|
    requires forall n :: 0 <= n < |turned| ==> turned[n].1 in types
    requires forall n :: 0 <= n < |ix| ==>
               && ix[n].0 < |allTerms| && allTerms[ix[n].0] == turned[n].0
               && ix[n].1 < |types| && types[ix[n].1] == turned[n].1
    ensures |ix| == |rels|
    ensures forall n :: 0 <= n < |rels| ==> rels[n].0 in types
    ensures forall n :: 0 <= n < |ix| ==>
              && ix[n].0 < |allTerms| && allTerms[ix[n].0] == rels[n].1
              && ix[n].1 < |types| && types[ix[n].1] == rels[n].0
  {
  }

  /** Position k of the section holds entry k and its links. */
  lemma SectionEntry(es: seq<Entry>, types: seq<string>, links: seq<seq<(nat, nat)>>, k: nat)
    requires |links| == |es| && k < |es|
    ensures var s := SectionOf(es, types, links);
            && |s.slimFlags| == |s.termHits| == |s.termIds| == |s.descriptions| == |s.relationships| == |es|
            && s.edgetypeNames == types && s.metadata == []
            && s.slimFlags[k] == 0 && s.termHits[k] == es[k].hits && s.termIds[k] == es[k].id
            && s.descriptions[k] == es[k].name && s.relationships[k] == links[k]
  {
  }

  /** The positions resolved for one term name its parents among the terms
    * and its edge types among the types. */
  lemma PositionsMeaning(rels: seq<(string, string)>, allTerms: seq<string>, types: seq<string>,
                          index: map<string, nat>, typeIndex: map<string, nat>, ix: seq<(nat, nat)>)
    requires forall x :: x in index ==> index[x] < |allTerms| && allTerms[index[x]] == x
    requires forall x :: x in typeIndex ==> typeIndex[x] < |types| && types[typeIndex[x]] == x
    requires IndexRels(rels, index, typeIndex) == Ok(ix)
    ensures |ix| == |rels|
    ensures forall n :: 0 <= n < |ix| ==>
              && ix[n].0 < |allTerms| && allTerms[ix[n].0] == rels[n].0
              && ix[n].1 < |types| && types[ix[n].1] == rels[n].1
  {
    forall n | 0 <= n < |ix|
      ensures ix[n].0 < |allTerms| && allTerms[ix[n].0] == rels[n].0
      ensures ix[n].1 < |types| && types[ix[n].1] == rels[n].1
    {
      assert ix[n] == (index[rels[n].0], typeIndex[rels[n].1]);
    }
  }

  /** Every parent named by the entries' relationships is among the terms. */
  ghost predicate ParentsInside(es: seq<Entry>, allTerms: seq<string>)
  {
    forall k, n :: 0 <= k < |es| && 0 <= n < |es[k].rels| ==> es[k].rels[n].0 in allTerms
  }

  /** Once the entries are built, the second pass succeeds exactly when
    * every parent of every term is among the terms; otherwise it raises a
    * KeyError. */
  lemma GoLinksResolve(o: OboOntology.Ontology, allTerms: seq<string>, term2hits: Term2Hits)
    requires Collect(EntryResults(o, allTerms, term2hits)).Ok?
    ensures GoSection(o, allTerms, term2hits).Ok? <==>
              ParentsInside(Collect(EntryResults(o, allTerms, term2hits)).value, allTerms)
    ensures GoSection(o, allTerms, term2hits).Err? ==> GoSection(o, allTerms, term2hits).error == "KeyError"
  {
    var es := Collect(EntryResults(o, allTerms, term2hits)).value;
    LinksResolve(es, allTerms);
  }

  /** The second pass over entries `es` succeeds exactly when their
    * parents are among the terms, and otherwise raises a KeyError. */
  lemma LinksResolve(es: seq<Entry>, allTerms: seq<string>)
    ensures var rs := LinkResults(es, Enumerated(allTerms), Enumerated(Sorted(EdgeTypes(es))));
            && (Collect(rs).Ok? <==> ParentsInside(es, allTerms))
            && (Collect(rs).Err? ==> Collect(rs).error == "KeyError")
  {
    var index, typeIndex := Enumerated(allTerms), Enumerated(Sorted(EdgeTypes(es)));
    forall k, n | 0 <= k < |es| && 0 <= n < |es[k].rels| ensures es[k].rels[n].1 in typeIndex {
      assert es[k].rels[n].1 in EdgeTypes(es);
    }
    if ParentsInside(es, allTerms) {
      LinksSucceed(es, index, typeIndex);
    } else {
      var k, n :| 0 <= k < |es| && 0 <= n < |es[k].rels| && es[k].rels[n].0 !in allTerms;
      LinksFail(es, index, typeIndex, k, n);
    }
    LinksKeyError(es, index, typeIndex);
  }

  /** Every parent and edge type has a position: every entry resolves. */
  lemma LinksSucceed(es: seq<Entry>, index: map<string, nat>, typeIndex: map<string, nat>)
    requires forall k, n :: 0 <= k < |es| && 0 <= n < |es[k].rels| ==> es[k].rels[n].0 in index && es[k].rels[n].1 in typeIndex
    ensures Collect(LinkResults(es, index, typeIndex)).Ok?
  {
    CollectOk(LinkResults(es, index, typeIndex));
  }

  /** A parent without a position makes the second pass fail. */
  lemma LinksFail(es: seq<Entry>, index: map<string, nat>, typeIndex: map<string, nat>, k: nat, n: nat)
    requires k < |es| && n < |es[k].rels| && es[k].rels[n].0 !in index
    ensures Collect(LinkResults(es, index, typeIndex)).Err?
  {
    assert LinkResults(es, index, typeIndex)[k].Err?;
  }

  /** The second pass fails only with KeyError. */
  lemma LinksKeyError(es: seq<Entry>, index: map<string, nat>, typeIndex: map<string, nat>)
    ensures Collect(LinkResults(es, index, typeIndex)).Err? ==> Collect(LinkResults(es, index, typeIndex)).error == "KeyError"
  {
    var rs := LinkResults(es, index, typeIndex);
    forall k | 0 <= k < |rs| ensures rs[k].Err? ==> rs[k].error == "KeyError" {
      KeyErrorOnly(es[k].rels, index, typeIndex);
    }
  }

  /** Resolving relationships raises nothing but KeyError. */
  lemma {:induction false} KeyErrorOnly(rels: seq<(string, string)>, index: map<string, nat>, typeIndex: map<string, nat>)
    ensures IndexRels(rels, index, typeIndex).Err? ==> IndexRels(rels, index, typeIndex).error == "KeyError"
  {
    if rels != [] {
      KeyErrorOnly(rels[..|rels| - 1], index, typeIndex);
    }
  }

  /** The edge types of one more entry join those of the entries before. */
  lemma EdgeTypesSnoc(es: seq<Entry>, e: Entry)
    ensures EdgeTypes(es + [e]) == EdgeTypes(es) + set n | 0 <= n < |e.rels| :: e.rels[n].1
  {
    assert (es + [e])[..|es|] == es;
  }

  /** `_go_process_namespace`: the namespace's terms among the keys, their
    * closure in some order, a first pass building every entry and
    * gathering the edge types, and a second pass turning the
    * relationships into positions; fails as any of them does. */
  method GoProcessNamespace(o: OboOntology.Ontology, namespace: string, keys: seq<string>, term2hits: Term2Hits)
    returns (r: Result<Section>, allTerms: seq<string>)
    requires forall t :: t in keys <==> t in term2hits
    ensures NsTerms(o, keys, namespace).Err? ==> r == Err(NsTerms(o, keys, namespace).error)
    ensures NsTerms(o, keys, namespace).Ok? && o.ClosureFails(NsTerms(o, keys, namespace).value) ==> r.Err?
    ensures NsTerms(o, keys, namespace).Ok? && !o.ClosureFails(NsTerms(o, keys, namespace).value) ==>
              && Distinct(allTerms)
              && (forall t :: t in allTerms <==> t in o.ClosureIds(NsTerms(o, keys, namespace).value))
              && r == GoSection(o, allTerms, term2hits)
  {
    var nsTerms := NsTerms(o, keys, namespace);
    if nsTerms.Err? {
      return Err(nsTerms.error), [];
    }
    var closure := o.TransitiveClosure(nsTerms.value);
    if closure.Err? {
      return Err(closure.error), [];
    }
    allTerms := Arrange(closure.value.0);
    var entries, termid2index, edgetypes := GoFirstPass(o, allTerms, term2hits);
    if entries.Err? {
      return Err(entries.error), allTerms;
    }
    var types := Sorted(edgetypes);
    var edgetypes2index := Enumerated(types);
    var links := GoSecondPass(entries.value, termid2index, edgetypes2index);
    if links.Err? {
      return Err(links.error), allTerms;
    }
    r := Ok(SectionOf(entries.value, types, links.value));
  }

  /** The state of the first pass after `i` terms: their entries, their
    * positions and their edge types. */
  ghost predicate GoEntered(o: OboOntology.Ontology, allTerms: seq<string>, term2hits: Term2Hits, i: nat,
                            entries: seq<Entry>, index: map<string, nat>, edgetypes: set<string>)
    reads o
  {
    && i <= |allTerms|
    && Collect(EntryResults(o, allTerms, term2hits)[..i]) == Ok(entries)
    && index == Enumerated(allTerms[..i])
    && edgetypes == EdgeTypes(entries)
  }

  /** One more term entered. */
  lemma GoEnteredNext(o: OboOntology.Ontology, allTerms: seq<string>, term2hits: Term2Hits, i: nat,
                      entries: seq<Entry>, index: map<string, nat>, edgetypes: set<string>, e: Entry)
    requires GoEntered(o, allTerms, term2hits, i, entries, index, edgetypes) && i < |allTerms|
    requires EntryOf(o, allTerms[i], term2hits) == Ok(e)
    ensures GoEntered(o, allTerms, term2hits, i + 1, entries + [e], index[allTerms[i] := i],
                      edgetypes + set n | 0 <= n < |e.rels| :: e.rels[n].1)
  {
    CollectSnoc(EntryResults(o, allTerms, term2hits), i, e);
    EnumeratedNext(allTerms, i);
    EdgeTypesSnoc(entries, e);
  }

  /** The first pass: one entry per term in order, each term's position
    * recorded as it is entered and its edge types gathered, stopping at
    * the first term without a record. */
  method GoFirstPass(o: OboOntology.Ontology, allTerms: seq<string>, term2hits: Term2Hits)
    returns (r: Result<seq<Entry>>, termid2index: map<string, nat>, edgetypes: set<string>)
    ensures r == Collect(EntryResults(o, allTerms, term2hits))
    ensures r.Ok? ==> termid2index == Enumerated(allTerms) && edgetypes == EdgeTypes(r.value)
  {
    var entries := [];
    termid2index, edgetypes := map[], {};
    for i := 0 to |allTerms|
      invariant GoEntered(o, allTerms, term2hits, i, entries, termid2index, edgetypes)
    {
      var t := allTerms[i];
      var e, edgetypes' := EnterGoTerm(o, t, term2hits, edgetypes);
      if e.Err? {
        CollectStops(EntryResults(o, allTerms, term2hits), i);
        return Err(e.error), termid2index[t := i], edgetypes';
      }
      GoEnteredNext(o, allTerms, term2hits, i, entries, termid2index, edgetypes, e.value);
      termid2index := termid2index[t := i];
      edgetypes := edgetypes';
      entries := entries + [e.value];
    }
    assert EntryResults(o, allTerms, term2hits)[..|allTerms|] == EntryResults(o, allTerms, term2hits);
    assert allTerms[..|allTerms|] == allTerms;
    return Ok(entries), termid2index, edgetypes;
  }

  /** The body of the first pass for one term: the inner loop turns each
    * relationship round and adds its edge type. */
  method EnterGoTerm(o: OboOntology.Ontology, t: string, term2hits: Term2Hits, edgetypes: set<string>)
    returns (r: Result<Entry>, edgetypes': set<string>)
    ensures r == EntryOf(o, t, term2hits)
    ensures r.Ok? ==> edgetypes' == edgetypes + set n | 0 <= n < |r.value.rels| :: r.value.rels[n].1
  {
    var term := o.GetTerm(Some(t), None);
    if term.Err? {
      return Err(term.error), edgetypes;
    }
    var hits := SortedNats(Lookup(term2hits, t));
    var rels := term.value.relationships;
    var relLst := [];
    edgetypes' := edgetypes;
    for n := 0 to |rels|
      invariant relLst == Turned(rels[..n])
      invariant edgetypes' == edgetypes + set m | 0 <= m < n :: rels[m].0
    {
      var (edgeType, parent) := rels[n];
      relLst := relLst + [(parent, edgeType)];
      edgetypes' := edgetypes' + {edgeType};
      assert (set m | 0 <= m < n + 1 :: rels[m].0) == (set m | 0 <= m < n :: rels[m].0) + {rels[n].0};
    }
    assert rels[..|rels|] == rels;
    r := Ok(Entry(hits, term.value.termId, term.value.name, relLst));
    assert (set m | 0 <= m < |rels| :: rels[m].0) == set m | 0 <= m < |relLst| :: relLst[m].1;
  }

  /** The second pass: the positions of every entry's relationships, in
    * order, stopping at the first that cannot be resolved. */
  method GoSecondPass(entries: seq<Entry>, termid2index: map<string, nat>, edgetypes2index: map<string, nat>)
    returns (r: Result<seq<seq<(nat, nat)>>>)
    ensures r == Collect(LinkResults(entries, termid2index, edgetypes2index))
  {
    ghost var rs := LinkResults(entries, termid2index, edgetypes2index);
    var relationships := [];
    for k := 0 to |entries|
      invariant Collect(rs[..k]) == Ok(relationships)
    {
      var ixLst := IndexRels(entries[k].rels, termid2index, edgetypes2index);
      if ixLst.Err? {
        CollectStops(rs, k);
        return Err(ixLst.error);
      }
      CollectSnoc(rs, k, ixLst.value);
      relationships := relationships + [ixLst.value];
    }
    assert rs[..|entries|] == rs;
    return Ok(relationships);
  }

  // ------------------------------------------------------------------
  // Keeping only the relationships inside the namespace
  // ------------------------------------------------------------------

  /** The relationships whose parent has a position, in order. */
  function Kept(rels: seq<(string, string)>, index: map<string, nat>): (r: seq<(string, string)>)
    ensures |r| <= |rels|
    ensures forall q :: q in r <==> q in rels && q.0 in index
  {
    if rels == [] then []
    else
      var last := rels[|rels| - 1];
      assert rels == rels[..|rels| - 1] + [last];
      Kept(rels[..|rels| - 1], index) + if last.0 in index then [last] else []
  }

  /** With every parent placed, nothing is dropped. */
  lemma {:induction false} KeptAll(rels: seq<(string, string)>, index: map<string, nat>)
    requires forall n :: 0 <= n < |rels| ==> rels[n].0 in index
    ensures Kept(rels, index) == rels
  {
    if rels != [] {
      KeptAll(rels[..|rels| - 1], index);
      assert rels == rels[..|rels| - 1] + [rels[|rels| - 1]];
    }
  }

  /** Each entry with only the relationships kept. */
  function KeptEntries(es: seq<Entry>, index: map<string, nat>): (r: seq<Entry>)
    ensures |r| == |es| && forall k :: 0 <= k < |es| ==> r[k] == es[k].(rels := Kept(es[k].rels, index))
  {
    seq(|es|, k requires 0 <= k < |es| => es[k].(rels := Kept(es[k].rels, index)))
  }

  /** The namespace as evidently intended: a relationship whose parent the
    * closure did not reach is left out rather than looked up. */
  function GoSectionKept(o: OboOntology.Ontology, allTerms: seq<string>, term2hits: Term2Hits): Result<Section>
    reads o
  {
    var built :- Collect(EntryResults(o, allTerms, term2hits));
    var es := KeptEntries(built, Enumerated(allTerms));
    var types := Sorted(EdgeTypes(es));
    var links :- Collect(LinkResults(es, Enumerated(allTerms), Enumerated(types)));
    Ok(SectionOf(es, types, links))
  }

  /** Once every term has a record, the intended section is always built:
    * every relationship it keeps points inside the section. */
  lemma GoSectionKeptResolves(o: OboOntology.Ontology, allTerms: seq<string>, term2hits: Term2Hits)
    requires Collect(EntryResults(o, allTerms, term2hits)).Ok?
    ensures GoSectionKept(o, allTerms, term2hits).Ok?
  {
    var built := Collect(EntryResults(o, allTerms, term2hits)).value;
    KeptInside(built, allTerms);
    LinksResolve(KeptEntries(built, Enumerated(allTerms)), allTerms);
  }

  /** The relationships kept point inside the terms. */
  lemma KeptInside(built: seq<Entry>, allTerms: seq<string>)
    ensures ParentsInside(KeptEntries(built, Enumerated(allTerms)), allTerms)
  {
    var index := Enumerated(allTerms);
    var es := KeptEntries(built, index);
    forall k, n | 0 <= k < |es| && 0 <= n < |es[k].rels| ensures es[k].rels[n].0 in allTerms {
      assert es[k].rels[n] in Kept(built[k].rels, index);
    }
  }

  /** The intended section agrees with the section as written whenever
    * that one is built. */
  lemma GoSectionKeptAgrees(o: OboOntology.Ontology, allTerms: seq<string>, term2hits: Term2Hits)
    requires GoSection(o, allTerms, term2hits).Ok?
    ensures GoSectionKept(o, allTerms, term2hits) == GoSection(o, allTerms, term2hits)
  {
    var built := Collect(EntryResults(o, allTerms, term2hits)).value;
    LinksResolve(built, allTerms);
    NothingDropped(built, allTerms);
    assert KeptEntries(built, Enumerated(allTerms)) == built;
  }

  /** With every parent inside, keeping drops nothing. */
  lemma NothingDropped(built: seq<Entry>, allTerms: seq<string>)
    requires ParentsInside(built, allTerms)
    ensures KeptEntries(built, Enumerated(allTerms)) == built
  {
    var index := Enumerated(allTerms);
    var es := KeptEntries(built, index);
    forall k | 0 <= k < |built| ensures es[k] == built[k] {
      KeptAll(built[k].rels, index);
    }
  }

  // ------------------------------------------------------------------
  // A relationship the closure does not follow
  // ------------------------------------------------------------------

  /** Term A is `part_of` B, and B `regulates` C, with `part_of`
    * transitive over itself only. */
  ghost predicate UnfollowedExample(o: OboOntology.Ontology)
    reads o
  {
    && o.terms == map["A" := Obo.Stanza("Term", [], map["namespace" := "biological_process", "name" := "a"],
                                         [("part_of", "B")], {}, false),
                      "B" := Obo.Stanza("Term", [], map["namespace" := "biological_process", "name" := "b"],
                                         [("regulates", "C")], {}, false)]
    && o.typedefs == map["part_of" := Obo.Stanza("Typedef", [], map["id" := "part_of"], [], {"part_of"}, false)]
    && o.term2index == map["A" := 0, "B" := 1]
  }

  /** On that ontology the closure of A is A and B, and succeeds: B is
    * reached through `part_of`, which is not transitive over `regulates`,
    * so C is never visited. Yet B's relationship to C is still written,
    * and the second pass raises KeyError for every order of the terms. */
  lemma UnfollowedParentRaises(o: OboOntology.Ontology, allTerms: seq<string>, term2hits: Term2Hits)
    requires UnfollowedExample(o)
    requires forall t :: t in allTerms <==> t == "A" || t == "B"
    ensures NsTerms(o, ["A"], "biological_process") == Ok(["A"])
    ensures !o.ClosureFails(["A"]) && o.ClosureIds(["A"]) == {"A", "B"}
    ensures GoSection(o, allTerms, term2hits) == Err("KeyError")
    ensures GoSectionKept(o, allTerms, term2hits).Ok?
  {
    o.GetTermById("A");
    assert NsTerms(o, ["A"], "biological_process") == Ok(["A"]) by {
      assert ["A"][..0] == [];
      assert NsTerms(o, [], "biological_process") == Ok([]);
      assert o.terms["A"].fields["namespace"] == "biological_process";
      assert o.GetTerm(Some("A"), None).Ok? && o.GetTerm(Some("A"), None).value.namespace == "biological_process";
      var keys := ["A"];
      assert keys[..|keys| - 1] == [] && keys[|keys| - 1] == "A";
      assert NsTerms(o, keys, "biological_process") == Ok([] + ["A"]);
      assert [] + ["A"] == ["A"];
    }
    ExampleClosure(o);
    ExampleSection(o, allTerms, term2hits);
  }

  /** From A the closure derives only the pair (part_of, B). */
  lemma ExampleDerived(o: OboOntology.Ontology)
    requires UnfollowedExample(o)
    ensures o.DerivedPairs(["A"]) == {("part_of", "B")}
    ensures forall p :: o.Derived(["A"], p) ==> p == ("part_of", "B")
  {
    var ids := ["A"];
    var pb, qc := ("part_of", "B"), ("regulates", "C");
    assert o.terms["A"].relationships == [pb] && o.terms["B"].relationships == [qc];
    assert o.StartPairs(ids) == {pb} by {
      forall q | q in o.StartPairs(ids) ensures q == pb {
        var id :| id in ids && id in o.terms && q in o.terms[id].relationships;
      }
      assert "A" in ids && pb in o.terms["A"].relationships;
    }
    assert o.AllPairs() == {pb, qc} by {
      forall q | q in o.AllPairs() ensures q == pb || q == qc {
        var x :| x in o.terms && q in o.terms[x].relationships;
      }
      assert pb in o.terms["A"].relationships && qc in o.terms["B"].relationships;
    }
    assert o.Relations("B") == [qc];
    assert !o.Follows("part_of", "regulates");
    assert o.PairsClosed(ids, {pb});
    assert o.Derived(ids, pb);
  }

  /** The closure of A reaches B but not C. */
  lemma ExampleClosure(o: OboOntology.Ontology)
    requires UnfollowedExample(o)
    ensures !o.ClosureFails(["A"]) && o.ClosureIds(["A"]) == {"A", "B"}
  {
    var ids := ["A"];
    ExampleDerived(o);
    o.GetTermById("A");
    o.GetTermById("B");
    assert o.TermOf("A").Ok? && o.TermOf("B").Ok?;
    assert o.ClosureIds(ids) == {"A", "B"} by {
      assert (set id | id in ids) == {"A"};
      assert (set p | p in o.DerivedPairs(ids) :: p.1) == {"B"};
    }
  }

  /** Over A and B in any order, the second pass cannot place C, while the intended section is built. */
  lemma ExampleSection(o: OboOntology.Ontology, allTerms: seq<string>, term2hits: Term2Hits)
    requires UnfollowedExample(o)
    requires forall t :: t in allTerms <==> t == "A" || t == "B"
    ensures GoSection(o, allTerms, term2hits) == Err("KeyError")
    ensures GoSectionKept(o, allTerms, term2hits).Ok?
  {
    assert "B" in allTerms;
    var k :| 0 <= k < |allTerms| && allTerms[k] == "B";
    var rs := EntryResults(o, allTerms, term2hits);
    forall j | 0 <= j < |allTerms| ensures rs[j].Ok? {
      var t := allTerms[j];
      o.GetTermById(t);
      assert t in allTerms;
      assert t in o.terms && "namespace" in o.terms[t].fields && "name" in o.terms[t].fields && t in o.term2index;
    }
    CollectOk(rs);
    var es := Collect(rs).value;
    o.GetTermById("B");
    assert rs[k] == Ok(es[k]);
    assert es[k].rels[0] == ("C", "regulates");
    assert !ParentsInside(es, allTerms);
    GoLinksResolve(o, allTerms, term2hits);
    GoSectionKeptResolves(o, allTerms, term2hits);
  }
}
