/** The genes annotated to each term (common/db_parsers/etermdb.py,
  * `_filter_term2hits`, `_go_term2hits` and `_kegg_term2hits`). Each line
  * of an annotation file contributes (term, gene position) pairs; the
  * pairs are grouped by term as a `defaultdict(set)` would, and only terms
  * with more than one gene are kept. The first line that cannot be read
  * raises, as the loop over the file does. */
module EtermHits {
  import opened Wrappers
  import opened Indexing
  import opened Filesys
  import opened Text
  import NcbiGenes

  /** `term2hits`: each term and the positions of its genes. */
  type Term2Hits = map<string, set<nat>>

  /** `_filter_term2hits`: the terms with more than one hit, each with its
    * hits. */
  function FilterTerm2Hits(m: Term2Hits): (r: Term2Hits)
    ensures forall t :: t in r <==> t in m && |m[t]| > 1
    ensures forall t :: t in r ==> r[t] == m[t]
  {
    map t | t in m && |m[t]| > 1 :: m[t]
  }

  /** Filtering twice keeps what filtering once kept. */
  lemma FilterIdempotent(m: Term2Hits)
    ensures FilterTerm2Hits(FilterTerm2Hits(m)) == FilterTerm2Hits(m)
  {
    var f := FilterTerm2Hits(m);
    assert FilterTerm2Hits(f).Keys == f.Keys;
  }

  // ------------------------------------------------------------------
  // Grouping pairs by term
  // ------------------------------------------------------------------

  /** The terms of a set of (term, hit) pairs. */
  function TermsOf(pairs: set<(string, nat)>): set<string>
  {
    set p | p in pairs :: p.0
  }

  /** The hits paired with `t`. */
  function HitsOf(pairs: set<(string, nat)>, t: string): set<nat>
  {
    set p | p in pairs && p.0 == t :: p.1
  }

  /** The dictionary of a set of (term, hit) pairs: a term is a key when
    * it has a hit, and its value is the set of its hits. */
  function Grouped(pairs: set<(string, nat)>): (m: Term2Hits)
  {
    map t | t in TermsOf(pairs) :: HitsOf(pairs, t)
  }

  lemma GroupedMeaning(pairs: set<(string, nat)>, t: string, i: nat)
    ensures t in Grouped(pairs) <==> exists j :: (t, j) in pairs
    ensures t in Grouped(pairs) ==> (i in Grouped(pairs)[t] <==> (t, i) in pairs)
  {
    if exists j :: (t, j) in pairs {
      var j :| (t, j) in pairs;
      assert t in TermsOf(pairs);
    }
  }

  /** `term2hits[t].add(i)` on a `defaultdict(set)`. */
  function AddHit(m: Term2Hits, t: string, i: nat): Term2Hits
  {
    m[t := Lookup(m, t) + {i}]
  }

  /** Adding a pair to the set adds the hit to the dictionary. */
  lemma GroupedAdd(pairs: set<(string, nat)>, t: string, i: nat)
    ensures Grouped(pairs + {(t, i)}) == AddHit(Grouped(pairs), t, i)
  {
    var ps := pairs + {(t, i)};
    var a, b := Grouped(ps), AddHit(Grouped(pairs), t, i);
    assert TermsOf(ps) == TermsOf(pairs) + {t};
    assert a.Keys == b.Keys;
    forall u | u in a ensures a[u] == b[u] {
      if u == t {
        assert HitsOf(ps, t) == HitsOf(pairs, t) + {i};
        if t !in TermsOf(pairs) {
          assert HitsOf(pairs, t) == {};
        }
      } else {
        assert HitsOf(ps, u) == HitsOf(pairs, u);
      }
    }
  }

  // ------------------------------------------------------------------
  // Reading a file line by line
  // ------------------------------------------------------------------

  /** What a file of lines contributes: the pairs of every line, or the
    * error of the first line that has one. */
  function Gather(rs: seq<Result<set<(string, nat)>>>): Result<set<(string, nat)>>
  {
    if rs == [] then Ok({})
    else
      var before :- Gather(rs[..|rs| - 1]);
      var last :- rs[|rs| - 1];
      Ok(before + last)
  }

  /** Once a prefix of the lines fails, the file fails the same way. */
  lemma {:induction false} GatherPersists(rs: seq<Result<set<(string, nat)>>>, k: nat)
    requires k <= |rs| && Gather(rs[..k]).Err?
    ensures Gather(rs) == Gather(rs[..k])
    decreases |rs| - k
  {
    if k < |rs| {
      assert rs[..k + 1][..k] == rs[..k];
      GatherPersists(rs, k + 1);
    } else {
      assert rs[..k] == rs;
    }
  }

  /** One more line: a failing line fails the file with its error, a
    * successful one adds its pairs. */
  lemma GatherStep(rs: seq<Result<set<(string, nat)>>>, k: nat, pairs: set<(string, nat)>)
    requires k < |rs| && Gather(rs[..k]) == Ok(pairs)
    ensures rs[k].Err? ==> Gather(rs) == Err(rs[k].error)
    ensures rs[k].Ok? ==> Gather(rs[..k + 1]) == Ok(pairs + rs[k].value)
  {
    assert rs[..k + 1][..k] == rs[..k];
    if rs[k].Err? {
      GatherPersists(rs, k + 1);
    }
  }

  /** A file is read when every line is, and then its pairs are those of
    * its lines; otherwise the error is that of the first line that
    * fails. */
  lemma {:induction false} GatherMeaning(rs: seq<Result<set<(string, nat)>>>)
    ensures Gather(rs).Ok? <==> forall k :: 0 <= k < |rs| ==> rs[k].Ok?
    ensures Gather(rs).Ok? ==> forall p :: p in Gather(rs).value <==> exists k :: 0 <= k < |rs| && rs[k].Ok? && p in rs[k].value
    ensures Gather(rs).Err? ==> exists k :: 0 <= k < |rs| && rs[k] == Err(Gather(rs).error)
                                            && forall j :: 0 <= j < k ==> rs[j].Ok?
  {
    if rs != [] {
      var init := rs[..|rs| - 1];
      GatherMeaning(init);
      assert forall k :: 0 <= k < |init| ==> init[k] == rs[k];
      if Gather(rs).Ok? {
        forall p ensures p in Gather(rs).value <==> exists k :: 0 <= k < |rs| && rs[k].Ok? && p in rs[k].value {
          if p in Gather(init).value {
            var k :| 0 <= k < |init| && init[k].Ok? && p in init[k].value;
            assert p in rs[k].value;
          }
        }
      }
    }
  }

  /** A set with `i` in it has more than one element exactly when it has
    * another. */
  lemma MoreThanOne(s: set<nat>, i: nat)
    requires i in s
    ensures |s| > 1 <==> exists j :: j in s && j != i
  {
    var rest := s - {i};
    assert |rest| == |s| - 1;
    if |s| > 1 {
      var j :| j in rest;
      assert j in s && j != i;
    }
  }

  /** The dictionary of pairs gathered from a file, filtered: `t` keeps
    * the hit `i` exactly when a line gives it `i` and a line gives it
    * another hit. */
  lemma FilteredGather(rs: seq<Result<set<(string, nat)>>>, t: string, i: nat)
    requires Gather(rs).Ok?
    ensures var m := FilterTerm2Hits(Grouped(Gather(rs).value));
            t in m && i in m[t] <==>
              && (exists k :: 0 <= k < |rs| && rs[k].Ok? && (t, i) in rs[k].value)
              && (exists j, k :: 0 <= k < |rs| && rs[k].Ok? && (t, j) in rs[k].value && j != i)
  {
    GatherMeaning(rs);
    var pairs := Gather(rs).value;
    var g := Grouped(pairs);
    GroupedMeaning(pairs, t, i);
    if (t, i) in pairs {
      MoreThanOne(g[t], i);
      if exists j, k :: 0 <= k < |rs| && (t, j) in rs[k].value && j != i {
        var j, k :| 0 <= k < |rs| && rs[k].Ok? && (t, j) in rs[k].value && j != i;
        GroupedMeaning(pairs, t, j);
      }
    }
  }

  // ------------------------------------------------------------------
  // gene2go
  // ------------------------------------------------------------------

  /** A line of gene2go: a comment, or the gene id, GO id, evidence code
    * and qualifier of columns 2 to 5. */
  datatype GoRow = Comment | Row(geneId: int, termId: string, evidence: string, qualifier: string)

  /** How `_go_term2hits` reads a line: an empty line has no first
    * character (IndexError); fewer than five tab-separated columns, or a
    * gene id that `int` refuses, is a ValueError. */
  function ParseGoLine(line: string): (r: Result<GoRow>)
    ensures r.Ok? ==> line != [] && (r.value.Row? <==> line[0] != '#')
    ensures r.Ok? && r.value.Row? ==> |Split(line, '\t')| >= 5 && ParseInt(Split(line, '\t')[1]) == Some(r.value.geneId)
    ensures r.Err? <==> line == [] || (line[0] != '#' && (|Split(line, '\t')| < 5 || ParseInt(Split(line, '\t')[1]).None?))
  {
    if line == [] then Err("IndexError")
    else if line[0] == '#' then Ok(Comment)
    else
      var flds := Split(line, '\t');
      if |flds| < 5 then Err("ValueError")
      else match ParseInt(flds[1])
        case None => Err("ValueError")
        case Some(g) => Ok(Row(g, flds[2], flds[3], flds[4]))
  }

  /** The evidence codes filtered out: IEA when none are given. */
  function FilterCodes(codes: Option<seq<string>>): (r: set<string>)
    ensures codes.None? ==> r == {"IEA"}
    ensures codes.Some? ==> forall c :: c in r <==> c in codes.value
  {
    if codes.None? then {"IEA"} else set c | c in codes.value
  }

  /** The pairs a row of gene2go contributes: a row that is not negated,
    * whose evidence is not filtered and whose gene is known gives its
    * gene to every term in the closure of its GO term. */
  function GoRowPairs(row: GoRow, filter: set<string>, geneIndex: map<int, nat>,
                      term2terms: map<string, set<string>>): (r: set<(string, nat)>)
    ensures row.Comment? || row.qualifier == "NOT" || row.evidence in filter ==> r == {}
    ensures r != {} ==> row.Row? && row.geneId in geneIndex && row.termId in term2terms
    ensures row.Row? && row.geneId in geneIndex && row.termId in term2terms ==>
              forall t, i :: (t, i) in r <==>
                t in term2terms[row.termId] && i == geneIndex[row.geneId] && row.qualifier != "NOT" && row.evidence !in filter
  {
    if row.Comment? || row.qualifier == "NOT" || row.evidence in filter || row.geneId !in geneIndex
       || row.termId !in term2terms
    then {}
    else set t | t in term2terms[row.termId] :: (t, geneIndex[row.geneId])
  }

  /** One line of gene2go, read. */
  function GoLine(line: string, filter: set<string>, geneIndex: map<int, nat>,
                  term2terms: map<string, set<string>>): Result<set<(string, nat)>>
  {
    var row :- ParseGoLine(line);
    Ok(GoRowPairs(row, filter, geneIndex, term2terms))
  }

  function GoLines(lines: seq<string>, filter: set<string>, geneIndex: map<int, nat>,
                   term2terms: map<string, set<string>>): (rs: seq<Result<set<(string, nat)>>>)
    ensures |rs| == |lines|
  {
    seq(|lines|, k requires 0 <= k < |lines| => GoLine(lines[k], filter, geneIndex, term2terms))
  }

  /** What `_go_term2hits` returns. */
  function GoHits(lines: seq<string>, filter: set<string>, geneIndex: map<int, nat>,
                  term2terms: map<string, set<string>>): Result<Term2Hits>
  {
    var pairs :- Gather(GoLines(lines, filter, geneIndex, term2terms));
    Ok(FilterTerm2Hits(Grouped(pairs)))
  }

  /** A gene is a hit of a term exactly when some line annotates it,
    * directly or through a term below, with a qualifier other than NOT
    * and an evidence code not filtered, and the term has another such
    * gene. */
  lemma GoHitsMeaning(lines: seq<string>, filter: set<string>, geneIndex: map<int, nat>,
                      term2terms: map<string, set<string>>, t: string, i: nat)
    requires GoHits(lines, filter, geneIndex, term2terms).Ok?
    ensures var m := GoHits(lines, filter, geneIndex, term2terms).value;
            var rs := GoLines(lines, filter, geneIndex, term2terms);
            t in m && i in m[t] <==>
              && (exists k :: 0 <= k < |lines| && rs[k].Ok? && (t, i) in rs[k].value)
              && (exists j, k :: 0 <= k < |lines| && rs[k].Ok? && (t, j) in rs[k].value && j != i)
  {
    FilteredGather(GoLines(lines, filter, geneIndex, term2terms), t, i);
  }

  /** `_go_term2hits`, with `term2terms` the result of
    * `all_terms_transitive_closure`. */
  method GoTerm2Hits(lines: seq<string>, term2terms: map<string, set<string>>, genes: NcbiGenes.Genes,
                     filterCodes: Option<seq<string>>) returns (r: Result<Term2Hits>)
    ensures r == GoHits(lines, FilterCodes(filterCodes), genes.geneId2Index, term2terms)
  {
    var geneIndex := genes.geneId2Index;
    var filter := if filterCodes.None? then {"IEA"} else set c | c in filterCodes.value;
    ghost var rs := GoLines(lines, filter, geneIndex, term2terms);
    var term2hits: Term2Hits := map[];
    ghost var pairs: set<(string, nat)> := {};
    for k := 0 to |lines|
      invariant Gather(rs[..k]) == Ok(pairs)
      invariant term2hits == Grouped(pairs)
    {
      var step := GoStep(term2hits, pairs, lines[k], filter, geneIndex, term2terms);
      assert rs[k] == GoLine(lines[k], filter, geneIndex, term2terms);
      GatherStep(rs, k, pairs);
      if step.Err? {
        return Err(step.error);
      }
      term2hits := step.value;
      pairs := pairs + rs[k].value;
    }
    assert rs[..|lines|] == rs;
    return Ok(FilterTerm2Hits(term2hits));
  }

  /** One turn of the loop of `_go_term2hits`: the line read, and its
    * gene added to the terms above its GO term. */
  method GoStep(m: Term2Hits, ghost pairs: set<(string, nat)>, line: string, filter: set<string>,
                geneIndex: map<int, nat>, term2terms: map<string, set<string>>) returns (r: Result<Term2Hits>)
    requires m == Grouped(pairs)
    ensures r.Err? ==> GoLine(line, filter, geneIndex, term2terms) == Err(r.error)
    ensures r.Ok? ==> GoLine(line, filter, geneIndex, term2terms).Ok?
                      && r.value == Grouped(pairs + GoLine(line, filter, geneIndex, term2terms).value)
  {
    if line == [] {
      return Err("IndexError");
    }
    if line[0] == '#' {
      assert pairs + {} == pairs;
      return Ok(m);
    }
    var flds := Split(line, '\t');
    if |flds| < 5 {
      return Err("ValueError");
    }
    var parsed := ParseInt(flds[1]);
    if parsed.None? {
      return Err("ValueError");
    }
    var geneId, termId, evidence, qualifier := parsed.value, flds[2], flds[3], flds[4];
    assert ParseGoLine(line) == Ok(Row(geneId, termId, evidence, qualifier));
    if qualifier != "NOT" && evidence !in filter && geneId in geneIndex && termId in term2terms {
      var i := geneIndex[geneId];
      var added := AddToAll(m, pairs, term2terms[termId], i);
      return Ok(added);
    }
    assert pairs + {} == pairs;
    return Ok(m);
  }

  /** The inner loop of `_go_term2hits`: the gene added to every term of
    * a closure. */
  method AddToAll(m: Term2Hits, ghost pairs: set<(string, nat)>, terms: set<string>, i: nat) returns (r: Term2Hits)
    requires m == Grouped(pairs)
    ensures r == Grouped(pairs + set t | t in terms :: (t, i))
  {
    r := m;
    var todo := terms;
    assert (set t | t in terms - todo :: (t, i)) == {};
    assert pairs + {} == pairs;
    while todo != {}
      invariant todo <= terms
      invariant r == Grouped(pairs + set t | t in terms - todo :: (t, i))
      decreases |todo|
    {
      var t2 :| t2 in todo;
      ghost var done := set t | t in terms - todo :: (t, i);
      GroupedAdd(pairs + done, t2, i);
      assert (set t | t in terms - (todo - {t2}) :: (t, i)) == done + {(t2, i)};
      assert pairs + done + {(t2, i)} == pairs + (done + {(t2, i)});
      r := AddHit(r, t2, i);
      todo := todo - {t2};
    }
    assert terms - todo == terms;
  }

  // ------------------------------------------------------------------
  // gene2kegg
  // ------------------------------------------------------------------

  /** How `_kegg_term2hits` reads a line: its first two words split at
    * the colon into `path` and the pathway (with the organism prefix
    * removed), and the organism and gene. A missing word is an
    * IndexError, a word that is not two parts a ValueError, a first
    * part other than `path` an AssertionError; a gene of another organism
    * is skipped. */
  function ParseKeggLine(line: string, orgPrefix: string): (r: Result<Option<(string, string)>>)
    ensures r.Ok? ==> |Words(line)| >= 2 && |Split(Words(line)[0], ':')| == 2 && |Split(Words(line)[1], ':')| == 2
                      && Split(Words(line)[0], ':')[0] == "path"
    ensures r.Ok? ==> (r.value.Some? <==> Split(Words(line)[1], ':')[0] == orgPrefix)
    ensures r.Ok? && r.value.Some? ==> r.value.value.1 == Split(Words(line)[1], ':')[1]
  {
    var data := Words(line);
    if |data| == 0 then Err("IndexError")
    else
      var first := Split(data[0], ':');
      if |first| != 2 then Err("ValueError")
      else
        var pathway := RemovePrefix(first[1], orgPrefix);
        if |data| < 2 then Err("IndexError")
        else
          var second := Split(data[1], ':');
          if |second| != 2 then Err("ValueError")
          else if first[0] != "path" then Err("AssertionError")
          else if second[0] != orgPrefix then Ok(None)
          else Ok(Some((pathway, second[1])))
  }

  /** `s.replace(prefix, '')`; replacing the empty string changes
    * nothing. */
  function RemovePrefix(s: string, prefix: string): string
  {
    if prefix == [] then s else Replace(s, prefix, "")
  }

  /** The pair a line of gene2kegg contributes: its pathway and the
    * position of its gene, when `map_symbols` finds the gene. */
  function KeggLine(line: string, orgPrefix: string, genes: NcbiGenes.Genes): (r: Result<set<(string, nat)>>)
    requires genes.Valid()
    ensures r.Ok? ==> |r.value| <= 1
    ensures r.Ok? ==> ParseKeggLine(line, orgPrefix).Ok? && forall p :: p in r.value <==>
              ParseKeggLine(line, orgPrefix).value.Some?
              && p.0 == ParseKeggLine(line, orgPrefix).value.value.0
              && genes.Resolve(ParseKeggLine(line, orgPrefix).value.value.1).0 == Some(p.1)
  {
    var e :- ParseKeggLine(line, orgPrefix);
    if e.None? then Ok({})
    else match genes.Resolve(e.value.1).0
      case None => Ok({})
      case Some(i) => Ok({(e.value.0, i)})
  }

  function KeggLines(lines: seq<string>, orgPrefix: string, genes: NcbiGenes.Genes): (rs: seq<Result<set<(string, nat)>>>)
    requires genes.Valid()
    ensures |rs| == |lines|
  {
    seq(|lines|, k requires 0 <= k < |lines| => KeggLine(lines[k], orgPrefix, genes))
  }

  /** What `_kegg_term2hits` returns. */
  function KeggHits(lines: seq<string>, orgPrefix: string, genes: NcbiGenes.Genes): Result<Term2Hits>
    requires genes.Valid()
  {
    var pairs :- Gather(KeggLines(lines, orgPrefix, genes));
    Ok(FilterTerm2Hits(Grouped(pairs)))
  }

  /** A gene is a hit of a pathway exactly when some line of the
    * organism maps to it, and another line gives the pathway another
    * gene. */
  lemma KeggHitsMeaning(lines: seq<string>, orgPrefix: string, genes: NcbiGenes.Genes, t: string, i: nat)
    requires genes.Valid() && KeggHits(lines, orgPrefix, genes).Ok?
    ensures var m := KeggHits(lines, orgPrefix, genes).value;
            var rs := KeggLines(lines, orgPrefix, genes);
            t in m && i in m[t] <==>
              && (exists k :: 0 <= k < |lines| && rs[k].Ok? && (t, i) in rs[k].value)
              && (exists j, k :: 0 <= k < |lines| && rs[k].Ok? && (t, j) in rs[k].value && j != i)
  {
    FilteredGather(KeggLines(lines, orgPrefix, genes), t, i);
  }

  /** `_kegg_term2hits`: the loop over the lines of gene2kegg, mapping
    * each gene of the organism with `map_symbols`. */
  method KeggTerm2Hits(lines: seq<string>, orgPrefix: string, genes: NcbiGenes.Genes) returns (r: Result<Term2Hits>)
    requires genes.Valid()
    ensures r == KeggHits(lines, orgPrefix, genes)
  {
    ghost var rs := KeggLines(lines, orgPrefix, genes);
    var term2hits: Term2Hits := map[];
    ghost var pairs: set<(string, nat)> := {};
    for k := 0 to |lines|
      invariant Gather(rs[..k]) == Ok(pairs)
      invariant term2hits == Grouped(pairs)
    {
      var step := KeggStep(term2hits, pairs, lines[k], orgPrefix, genes);
      assert rs[k] == KeggLine(lines[k], orgPrefix, genes);
      GatherStep(rs, k, pairs);
      if step.Err? {
        return Err(step.error);
      }
      term2hits := step.value;
      pairs := pairs + rs[k].value;
    }
    assert rs[..|lines|] == rs;
    return Ok(FilterTerm2Hits(term2hits));
  }

  /** One turn of the loop of `_kegg_term2hits`. */
  method KeggStep(m: Term2Hits, ghost pairs: set<(string, nat)>, line: string, orgPrefix: string,
                  genes: NcbiGenes.Genes) returns (r: Result<Term2Hits>)
    requires genes.Valid() && m == Grouped(pairs)
    ensures r.Err? ==> KeggLine(line, orgPrefix, genes) == Err(r.error)
    ensures r.Ok? ==> KeggLine(line, orgPrefix, genes).Ok?
                      && r.value == Grouped(pairs + KeggLine(line, orgPrefix, genes).value)
  {
    var parsed := ParseKeggLine(line, orgPrefix);
    if parsed.Err? {
      return Err(parsed.error);
    }
    assert pairs + {} == pairs;
    if parsed.value.None? {
      return Ok(m);
    }
    var (pathway, gene) := parsed.value.value;
    var mapped, _ := genes.MapSymbols([gene]);
    assert mapped[0].0 == genes.Resolve(gene).0;
    if mapped[0].0.None? {
      return Ok(m);
    }
    GroupedAdd(pairs, pathway, mapped[0].0.value);
    return Ok(AddHit(m, pathway, mapped[0].0.value));
  }
}
