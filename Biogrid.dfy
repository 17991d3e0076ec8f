/** The BioGRID interaction loader (common/db_parsers/biogrid_main3.py):
  * a tab-separated file of gene pairs, each line naming an experimental
  * system and a publication, is gathered into per-pair evidence lists; a
  * throughput filter and a directed-over-undirected rule then decide which
  * pairs become weighted edges of a directed graph. */
module Biogrid {
  import opened Wrappers
  import opened Text
  import Filesys
  import Indexing
  import Digraph

  /** An ordered pair of gene symbols. */
  type Pair = (string, string)

  /** One piece of evidence for a pair: `(exp_sys, pubmed_id)`. */
  datatype Evidence = Evidence(system: string, pubmedId: int)

  /** The fields of one line that the scanner reads. */
  datatype Record = Record(gene1: int, gene2: int, system: string, pubmedId: int)

  /** What the parser is given: the gene symbol of each known gene id,
    * the weight of each undirected and directed experimental system, the
    * throughput cutoff and the publications exempt from it. */
  datatype Config = Config(
    symbols: map<int, string>,
    undirected: map<string, real>,
    directed: map<string, real>,
    cutoff: int,
    unfiltered: set<int>)

  /** What scanning gathers: evidence per undirected and per directed pair,
    * a count per experimental system and a count per publication. */
  datatype Tables = Tables(
    interactions: map<Pair, seq<Evidence>>,
    directed: map<Pair, seq<Evidence>>,
    systems: map<string, nat>,
    pubCounts: map<int, nat>)

  const NoTables := Tables(map[], map[], map[], map[])

  /** `d[k]` of a `defaultdict(int)`. */
  function Count<K>(m: map<K, nat>, k: K): nat
  {
    if k in m then m[k] else 0
  }

  /** `d[k]` of a `defaultdict(list)`. */
  function Entries(m: map<Pair, seq<Evidence>>, p: Pair): seq<Evidence>
  {
    if p in m then m[p] else []
  }

  /** `int(s)`: surrounding whitespace is allowed. */
  function PyInt(s: string): Option<int>
  {
    ParseInt(Strip(s))
  }

  /** The field reads of `_line_scanner`, in order: four integer ids, the
    * system name and the publication id. A missing field is an IndexError
    * and a field that is not an integer a ValueError, whichever comes
    * first. */
  function ParseRecord(fields: seq<string>): (r: Result<Record>)
    ensures r.Ok? <==> |fields| >= 6 && PyInt(fields[0]).Some? && PyInt(fields[1]).Some?
                       && PyInt(fields[2]).Some? && PyInt(fields[3]).Some? && PyInt(fields[5]).Some?
    ensures r.Ok? ==> r.value.gene1 == PyInt(fields[0]).value && r.value.gene2 == PyInt(fields[1]).value
                      && r.value.system == fields[4] && r.value.pubmedId == PyInt(fields[5]).value
    ensures r.Err? ==> r.error == (if |fields| < 6 && NoBadInt(fields, 0) && NoBadInt(fields, 1) && NoBadInt(fields, 2)
                                      && NoBadInt(fields, 3) && NoBadInt(fields, 5)
                                   then "IndexError" else "ValueError")
  {
    var g1 :- IntField(fields, 0);
    var g2 :- IntField(fields, 1);
    var b1 :- IntField(fields, 2);
    var b2 :- IntField(fields, 3);
    var system :- if |fields| <= 4 then Err("IndexError") else Ok(fields[4]);
    var pubmedId :- IntField(fields, 5);
    Ok(Record(g1, g2, system, pubmedId))
  }

  /** Field `i`, if the line has it, is an integer. */
  predicate NoBadInt(fields: seq<string>, i: nat)
  {
    i < |fields| ==> PyInt(fields[i]).Some?
  }

  /** `int(fields[i])`. */
  function IntField(fields: seq<string>, i: nat): (r: Result<int>)
    ensures r.Ok? <==> i < |fields| && PyInt(fields[i]).Some?
    ensures r.Ok? ==> r.value == PyInt(fields[i]).value
    ensures r.Err? ==> r.error == if i < |fields| then "ValueError" else "IndexError"
  {
    if |fields| <= i then Err("IndexError")
    else match PyInt(fields[i])
      case None => Err("ValueError")
      case Some(v) => Ok(v)
  }

  /** The initial filters: both genes are known and the system is in one
    * of the two maps. */
  predicate Known(cfg: Config, rec: Record)
  {
    rec.gene1 in cfg.symbols && rec.gene2 in cfg.symbols
    && (rec.system in cfg.undirected || rec.system in cfg.directed)
  }

  /** `_line_scanner` after its field reads: the publication is counted
    * first; a line that passes the filters counts its system and adds its
    * evidence, an undirected one under the reversed pair when that pair is
    * already present. */
  function Step(cfg: Config, t: Tables, rec: Record): Tables
  {
    var counts := t.pubCounts[rec.pubmedId := Count(t.pubCounts, rec.pubmedId) + 1];
    if !Known(cfg, rec) then t.(pubCounts := counts)
    else
      var n1 := cfg.symbols[rec.gene1];
      var n2 := cfg.symbols[rec.gene2];
      var systems := t.systems[rec.system := Count(t.systems, rec.system) + 1];
      var e := Evidence(rec.system, rec.pubmedId);
      if rec.system in cfg.undirected then
        var pair := if (n2, n1) in t.interactions then (n2, n1) else (n1, n2);
        Tables(t.interactions[pair := Entries(t.interactions, pair) + [e]], t.directed, systems, counts)
      else
        Tables(t.interactions, t.directed[(n1, n2) := Entries(t.directed, (n1, n2)) + [e]], systems, counts)
  }

  /** No undirected pair is stored in both orientations. */
  ghost predicate NoReversedKeys(m: map<Pair, seq<Evidence>>)
  {
    forall a, b :: (a, b) in m && (b, a) in m ==> a == b
  }

  /** What every reachable state satisfies: one orientation per undirected
    * pair, no empty evidence list, every evidence of a system of the right
    * kind (undirected systems win over directed ones) and of a counted
    * publication. */
  ghost predicate WellFormed(cfg: Config, t: Tables)
  {
    && NoReversedKeys(t.interactions)
    && (forall p :: p in t.interactions ==> t.interactions[p] != [])
    && (forall p :: p in t.directed ==> t.directed[p] != [])
    && (forall p, k :: p in t.interactions && 0 <= k < |t.interactions[p]| ==>
          t.interactions[p][k].system in cfg.undirected && Count(t.pubCounts, t.interactions[p][k].pubmedId) > 0)
    && (forall p, k :: p in t.directed && 0 <= k < |t.directed[p]| ==>
          t.directed[p][k].system in cfg.directed && t.directed[p][k].system !in cfg.undirected
          && Count(t.pubCounts, t.directed[p][k].pubmedId) > 0)
  }

  lemma EmptyWellFormed(cfg: Config)
    ensures WellFormed(cfg, NoTables)
  {
  }

  /** Scanning a line keeps the tables well formed. */
  lemma StepKeepsWellFormed(cfg: Config, t: Tables, rec: Record)
    requires WellFormed(cfg, t)
    ensures WellFormed(cfg, Step(cfg, t, rec))
  {
    if !Known(cfg, rec) {
      CountedStaysCounted(t.pubCounts, rec.pubmedId);
    } else if rec.system in cfg.undirected {
      UndirectedStepWellFormed(cfg, t, rec);
    } else {
      DirectedStepWellFormed(cfg, t, rec);
    }
  }

  lemma CountedStaysCounted(counts: map<int, nat>, pubmedId: int)
    ensures var counts' := counts[pubmedId := Count(counts, pubmedId) + 1];
            forall m :: Count(counts', m) >= Count(counts, m) && Count(counts', pubmedId) > 0
  {
  }

  lemma UndirectedStepWellFormed(cfg: Config, t: Tables, rec: Record)
    requires WellFormed(cfg, t) && Known(cfg, rec) && rec.system in cfg.undirected
    ensures WellFormed(cfg, Step(cfg, t, rec))
  {
    var t' := Step(cfg, t, rec);
    CountedStaysCounted(t.pubCounts, rec.pubmedId);
    var n1, n2 := cfg.symbols[rec.gene1], cfg.symbols[rec.gene2];
    var pair := if (n2, n1) in t.interactions then (n2, n1) else (n1, n2);
    assert t'.interactions == t.interactions[pair := Entries(t.interactions, pair) + [Evidence(rec.system, rec.pubmedId)]];
    forall a, b | (a, b) in t'.interactions && (b, a) in t'.interactions
      ensures a == b
    {
      if (a, b) != pair && (b, a) != pair {
        assert (a, b) in t.interactions && (b, a) in t.interactions;
      }
    }
  }

  lemma DirectedStepWellFormed(cfg: Config, t: Tables, rec: Record)
    requires WellFormed(cfg, t) && Known(cfg, rec) && rec.system !in cfg.undirected
    ensures WellFormed(cfg, Step(cfg, t, rec))
  {
    CountedStaysCounted(t.pubCounts, rec.pubmedId);
  }

  /** The whole scan of a file body: the tables after the lines before the
    * first failing one, and that line's error. */
  datatype Outcome = Outcome(tables: Tables, error: Option<string>)

  /** `line.strip().split('\t')`. */
  function Fields(line: string): seq<string>
  {
    Filesys.Split(Strip(line), '\t')
  }

  function Scanned(cfg: Config, t: Tables, lines: seq<string>): Outcome
  {
    if lines == [] then Outcome(t, None)
    else
      var o := Scanned(cfg, t, lines[..|lines| - 1]);
      if o.error.Some? then o
      else match ParseRecord(Fields(lines[|lines| - 1]))
        case Err(e) => Outcome(o.tables, Some(e))
        case Ok(rec) => Outcome(Step(cfg, o.tables, rec), None)
  }

  /** How often a publication is cited by a list of lines. */
  function Citations(recs: seq<Record>, pubmedId: int): nat
  {
    if recs == [] then 0
    else Citations(recs[..|recs| - 1], pubmedId) + (if recs[|recs| - 1].pubmedId == pubmedId then 1 else 0)
  }

  /** Scanning record after record. */
  function Run(cfg: Config, t: Tables, recs: seq<Record>): Tables
  {
    if recs == [] then t else Step(cfg, Run(cfg, t, recs[..|recs| - 1]), recs[|recs| - 1])
  }

  /** Every line is counted against its publication before any filter
    * applies, so a publication's count is the number of lines citing it,
    * known genes and systems or not. */
  lemma {:induction false} CountsEveryLine(cfg: Config, t: Tables, recs: seq<Record>, pubmedId: int)
    ensures Count(Run(cfg, t, recs).pubCounts, pubmedId) == Count(t.pubCounts, pubmedId) + Citations(recs, pubmedId)
  {
    if recs != [] {
      CountsEveryLine(cfg, t, recs[..|recs| - 1], pubmedId);
    }
  }

  /** A line with an unknown gene or an unmapped system leaves everything
    * but the publication count as it was. */
  lemma DroppedLine(cfg: Config, t: Tables, rec: Record)
    requires !Known(cfg, rec)
    ensures var t' := Step(cfg, t, rec);
            t'.interactions == t.interactions && t'.directed == t.directed && t'.systems == t.systems
            && Count(t'.pubCounts, rec.pubmedId) == Count(t.pubCounts, rec.pubmedId) + 1
  {
  }

  /** An accepted undirected line is filed under whichever orientation of
    * its pair is already present, and under the line's own orientation
    * otherwise; nothing directed changes. */
  lemma UndirectedLine(cfg: Config, t: Tables, rec: Record)
    requires Known(cfg, rec) && rec.system in cfg.undirected
    ensures var t' := Step(cfg, t, rec);
            var n1, n2 := cfg.symbols[rec.gene1], cfg.symbols[rec.gene2];
            var e := Evidence(rec.system, rec.pubmedId);
            && t'.directed == t.directed
            && ((n2, n1) in t.interactions ==> Entries(t'.interactions, (n2, n1)) == t.interactions[(n2, n1)] + [e])
            && ((n2, n1) !in t.interactions ==> Entries(t'.interactions, (n1, n2)) == Entries(t.interactions, (n1, n2)) + [e])
            && Count(t'.systems, rec.system) == Count(t.systems, rec.system) + 1
  {
  }

  /** `filter_by_throughput3`: a pair seen more than once is kept; a pair
    * with a single evidence is kept when its publication is exempt or has
    * no more lines than the cutoff. An empty list is an IndexError. */
  function KeepByThroughput(cfg: Config, pubCounts: map<int, nat>, data: seq<Evidence>): (r: Result<bool>)
    ensures r.Err? <==> data == []
    ensures |data| > 1 ==> r == Ok(true)
    ensures |data| == 1 && data[0].pubmedId !in cfg.unfiltered ==>
              (r == Ok(true) <==> Count(pubCounts, data[0].pubmedId) <= cfg.cutoff)
    ensures |data| == 1 && data[0].pubmedId in cfg.unfiltered ==> r == Ok(true)
  {
    if |data| > 1 then Ok(true)
    else if data == [] then Err("IndexError")
    else
      var pubmedId := data[0].pubmedId;
      Ok(pubmedId in cfg.unfiltered || Count(pubCounts, pubmedId) <= cfg.cutoff)
  }

  /** `filter_undirected_in_directed`: neither orientation is an accepted
    * directed pair. */
  predicate NotInDirected(accepted: set<Pair>, pair: Pair)
  {
    pair !in accepted && (pair.1, pair.0) !in accepted
  }

  /** The directed rule does not depend on the orientation of the pair. */
  lemma NotInDirectedSymmetric(accepted: set<Pair>, a: string, b: string)
    ensures NotInDirected(accepted, (a, b)) <==> NotInDirected(accepted, (b, a))
  {
  }

  /** `filter_undirected`: the directed rule first, and only if it passes
    * the throughput filter (Python's `and` does not evaluate the second
    * operand otherwise). */
  function FilterUndirected(cfg: Config, pubCounts: map<int, nat>, accepted: set<Pair>, pair: Pair, data: seq<Evidence>): (r: Result<bool>)
    ensures !NotInDirected(accepted, pair) ==> r == Ok(false)
    ensures NotInDirected(accepted, pair) ==> r == KeepByThroughput(cfg, pubCounts, data)
  {
    if !NotInDirected(accepted, pair) then Ok(false) else KeepByThroughput(cfg, pubCounts, data)
  }

  /** In well-formed tables no stored list makes a filter fail. */
  lemma FiltersTotal(cfg: Config, t: Tables, accepted: set<Pair>, p: Pair)
    requires WellFormed(cfg, t)
    ensures p in t.directed ==> KeepByThroughput(cfg, t.pubCounts, t.directed[p]).Ok?
    ensures p in t.interactions ==> FilterUndirected(cfg, t.pubCounts, accepted, p, t.interactions[p]).Ok?
  {
  }

  /** A directed pair that `filter_directed` accepts. */
  predicate KeptDirected(cfg: Config, t: Tables, p: Pair)
  {
    p in t.directed && KeepByThroughput(cfg, t.pubCounts, t.directed[p]) == Ok(true)
  }

  /** An undirected pair that `filter_undirected` accepts. */
  predicate KeptUndirected(cfg: Config, t: Tables, accepted: set<Pair>, p: Pair)
  {
    p in t.interactions && FilterUndirected(cfg, t.pubCounts, accepted, p, t.interactions[p]) == Ok(true)
  }

  /** The directed pairs accepted by the first loop of `get_graph`,
    * visiting pairs in `order`. */
  function AcceptedAmong(cfg: Config, t: Tables, order: seq<Pair>): set<Pair>
  {
    if order == [] then {}
    else
      var p := order[|order| - 1];
      AcceptedAmong(cfg, t, order[..|order| - 1]) + (if KeptDirected(cfg, t, p) then {p} else {})
  }

  /** Whatever the visiting order, the accepted directed pairs are the
    * visited ones that pass the throughput filter. */
  lemma {:induction false} AcceptedMembers(cfg: Config, t: Tables, order: seq<Pair>, p: Pair)
    ensures p in AcceptedAmong(cfg, t, order) <==> p in order && KeptDirected(cfg, t, p)
  {
    if order != [] {
      var init := order[..|order| - 1];
      AcceptedMembers(cfg, t, init, p);
      assert order == init + [order[|order| - 1]];
    }
  }

  /** One `insert_edge(s1, s2, w)` call. */
  datatype Insertion = Insertion(s1: string, s2: string, w: real)

  /** The graph after a list of insertions. */
  function Inserts(g: Digraph.Graph, plan: seq<Insertion>): (h: Digraph.Graph)
    requires Digraph.Inv(g)
    ensures Digraph.Inv(h)
  {
    if plan == [] then g
    else
      var last := plan[|plan| - 1];
      Digraph.AddEdge(Inserts(g, plan[..|plan| - 1]), last.s1, last.s2, Some(last.w))
  }

  lemma InsertsSnoc(g: Digraph.Graph, plan: seq<Insertion>, x: Insertion)
    requires Digraph.Inv(g)
    ensures Inserts(g, plan + [x]) == Digraph.AddEdge(Inserts(g, plan), x.s1, x.s2, Some(x.w))
  {
    assert (plan + [x])[..|plan|] == plan;
  }

  /** The insertions of the directed loop, visiting pairs in `order`. */
  function DirectedPlan(cfg: Config, t: Tables, order: seq<Pair>, w: real): seq<Insertion>
  {
    if order == [] then []
    else
      var p := order[|order| - 1];
      DirectedPlan(cfg, t, order[..|order| - 1], w) + (if KeptDirected(cfg, t, p) then [Insertion(p.0, p.1, w)] else [])
  }

  /** The insertions of the undirected loop: both orientations of each
    * accepted pair. */
  function UndirectedPlan(cfg: Config, t: Tables, accepted: set<Pair>, order: seq<Pair>, w: real): seq<Insertion>
  {
    if order == [] then []
    else
      var p := order[|order| - 1];
      UndirectedPlan(cfg, t, accepted, order[..|order| - 1], w)
      + (if KeptUndirected(cfg, t, accepted, p) then [Insertion(p.0, p.1, w), Insertion(p.1, p.0, w)] else [])
  }

  /** What a list of insertions adds to the weight of (a, b). */
  function Contribution(plan: seq<Insertion>, a: string, b: string): real
  {
    if plan == [] then 0.0
    else
      var last := plan[|plan| - 1];
      Contribution(plan[..|plan| - 1], a, b)
      + (if last.s1 == a && last.s2 == b then Digraph.EdgeIncrement(a, b, Some(last.w)) else 0.0)
  }

  lemma {:induction false} ContributionAppend(p: seq<Insertion>, q: seq<Insertion>, a: string, b: string)
    ensures Contribution(p + q, a, b) == Contribution(p, a, b) + Contribution(q, a, b)
  {
    if q != [] {
      assert (p + q)[..|p + q| - 1] == p + q[..|q| - 1];
      ContributionAppend(p, q[..|q| - 1], a, b);
    } else {
      assert p + q == p;
    }
  }

  /** Inserting a list of edges adds its contribution to every weight, and
    * the new nodes are the ends of the insertions. */
  lemma {:induction false} InsertsWeights(g: Digraph.Graph, plan: seq<Insertion>, a: string, b: string)
    requires Digraph.Inv(g)
    ensures Digraph.Weight(Inserts(g, plan), a, b) == Digraph.Weight(g, a, b) + Contribution(plan, a, b)
  {
    if plan != [] {
      var last := plan[|plan| - 1];
      InsertsWeights(g, plan[..|plan| - 1], a, b);
      Digraph.AddEdgeWeights(Inserts(g, plan[..|plan| - 1]), last.s1, last.s2, Some(last.w));
    }
  }

  /** The names a list of insertions mentions. */
  function Ends(plan: seq<Insertion>): set<string>
  {
    if plan == [] then {} else Ends(plan[..|plan| - 1]) + {plan[|plan| - 1].s1, plan[|plan| - 1].s2}
  }

  lemma {:induction false} InsertsNodes(g: Digraph.Graph, plan: seq<Insertion>, s: string)
    requires Digraph.Inv(g)
    ensures s in Inserts(g, plan).node2index <==> s in g.node2index || s in Ends(plan)
  {
    if plan != [] {
      var last := plan[|plan| - 1];
      InsertsNodes(g, plan[..|plan| - 1], s);
      Digraph.AddEdgeWeights(Inserts(g, plan[..|plan| - 1]), last.s1, last.s2, Some(last.w));
    }
  }

  /** Over distinct pairs, the directed loop gives (a, b) one increment if
    * it is an accepted directed pair and nothing otherwise. */
  lemma {:induction false} DirectedContribution(cfg: Config, t: Tables, order: seq<Pair>, w: real, a: string, b: string)
    requires Indexing.Distinct(order)
    ensures Contribution(DirectedPlan(cfg, t, order, w), a, b) ==
            if (a, b) in order && KeptDirected(cfg, t, (a, b)) then Digraph.EdgeIncrement(a, b, Some(w)) else 0.0
  {
    if order != [] {
      var init, p := order[..|order| - 1], order[|order| - 1];
      var piece := if KeptDirected(cfg, t, p) then [Insertion(p.0, p.1, w)] else [];
      assert Indexing.Distinct(init);
      DirectedContribution(cfg, t, init, w, a, b);
      ContributionAppend(DirectedPlan(cfg, t, init, w), piece, a, b);
      if piece != [] {
        assert piece[..0] == [];
      }
      assert order == init + [p];
      assert p == (a, b) ==> (a, b) !in init;
    }
  }

  /** Distinct pairs of which no two are each other's reversal. */
  ghost predicate OneOrientation(order: seq<Pair>)
  {
    forall i, j :: 0 <= i < |order| && 0 <= j < |order| && order[i] == (order[j].1, order[j].0) ==> i == j
  }

  /** What the undirected loop adds to (a, b): the weight once if either
    * orientation is an accepted undirected pair, and for a self-loop twice
    * the doubled weight, since the pair is inserted in both (equal)
    * orientations. */
  function UndirectedGain(cfg: Config, t: Tables, accepted: set<Pair>, order: seq<Pair>, w: real, a: string, b: string): real
  {
    if a == b then
      (if (a, a) in order && KeptUndirected(cfg, t, accepted, (a, a)) then 4.0 * w else 0.0)
    else if ((a, b) in order && KeptUndirected(cfg, t, accepted, (a, b)))
         || ((b, a) in order && KeptUndirected(cfg, t, accepted, (b, a))) then w
    else 0.0
  }

  /** What inserting both orientations of `p` adds to (a, b). */
  function PairGain(p: Pair, w: real, a: string, b: string): real
  {
    if a == b then (if p == (a, a) then 4.0 * w else 0.0)
    else if p == (a, b) || p == (b, a) then w
    else 0.0
  }

  lemma PieceContribution(p: Pair, w: real, a: string, b: string)
    ensures Contribution([Insertion(p.0, p.1, w), Insertion(p.1, p.0, w)], a, b) == PairGain(p, w, a, b)
  {
    var piece := [Insertion(p.0, p.1, w), Insertion(p.1, p.0, w)];
    var first := if a == p.0 && b == p.1 then Digraph.EdgeIncrement(a, b, Some(w)) else 0.0;
    var second := if a == p.1 && b == p.0 then Digraph.EdgeIncrement(a, b, Some(w)) else 0.0;
    assert piece[..1] == [piece[0]] && piece[..1][..0] == [];
    assert Contribution(piece[..1], a, b) == first;
    assert Contribution(piece, a, b) == first + second;
  }

  /** The gain over `order` is the gain over all but its last pair plus
    * what that pair adds, since neither orientation of the last pair
    * occurs before it. */
  lemma GainStep(cfg: Config, t: Tables, accepted: set<Pair>, order: seq<Pair>, w: real, a: string, b: string)
    requires order != [] && Indexing.Distinct(order) && OneOrientation(order)
    ensures var init, p := order[..|order| - 1], order[|order| - 1];
            UndirectedGain(cfg, t, accepted, order, w, a, b) ==
            UndirectedGain(cfg, t, accepted, init, w, a, b) + (if KeptUndirected(cfg, t, accepted, p) then PairGain(p, w, a, b) else 0.0)
  {
    var init, p := order[..|order| - 1], order[|order| - 1];
    assert order == init + [p];
    forall q | q in init
      ensures q != p && q != (p.1, p.0)
    {
      var i :| 0 <= i < |init| && init[i] == q;
      assert order[i] == q && order[|order| - 1] == p;
    }
  }

  lemma {:induction false} UndirectedContribution(cfg: Config, t: Tables, accepted: set<Pair>, order: seq<Pair>, w: real, a: string, b: string)
    requires Indexing.Distinct(order) && OneOrientation(order)
    ensures Contribution(UndirectedPlan(cfg, t, accepted, order, w), a, b) == UndirectedGain(cfg, t, accepted, order, w, a, b)
  {
    if order != [] {
      var init, p := order[..|order| - 1], order[|order| - 1];
      var piece := if KeptUndirected(cfg, t, accepted, p) then [Insertion(p.0, p.1, w), Insertion(p.1, p.0, w)] else [];
      assert Indexing.Distinct(init);
      assert OneOrientation(init) by {
        forall i, j | 0 <= i < |init| && 0 <= j < |init| && init[i] == (init[j].1, init[j].0)
          ensures i == j
        {
          assert order[i] == init[i] && order[j] == init[j];
        }
      }
      UndirectedContribution(cfg, t, accepted, init, w, a, b);
      ContributionAppend(UndirectedPlan(cfg, t, accepted, init, w), piece, a, b);
      PieceContribution(p, w, a, b);
      GainStep(cfg, t, accepted, order, w, a, b);
    }
  }

  /** The pairs in a well-formed table, listed once each, store one
    * orientation per undirected pair. */
  lemma ArrangedOneOrientation(m: map<Pair, seq<Evidence>>, order: seq<Pair>)
    requires NoReversedKeys(m) && Indexing.Distinct(order)
    requires forall p :: p in order <==> p in m
    ensures OneOrientation(order)
  {
    forall i, j | 0 <= i < |order| && 0 <= j < |order| && order[i] == (order[j].1, order[j].0)
      ensures i == j
    {
      var (x, y) := order[j];
      assert (x, y) in m && (y, x) in m;
      assert order[i] == order[j];
    }
  }

  /** The graph `get_graph` builds, whatever order the dictionaries are
    * visited in: the weight of (a, b) is the directed weight (doubled for a
    * self-loop) if (a, b) is an accepted directed pair, plus the undirected
    * gain. */
  lemma GraphWeights(cfg: Config, t: Tables, accepted: set<Pair>, dOrder: seq<Pair>, uOrder: seq<Pair>,
                     dw: real, uw: real, a: string, b: string)
    requires NoReversedKeys(t.interactions)
    requires Indexing.Distinct(dOrder) && Indexing.Distinct(uOrder)
    requires forall p :: p in uOrder <==> p in t.interactions
    ensures Digraph.Weight(Inserts(Inserts(Digraph.Empty, DirectedPlan(cfg, t, dOrder, dw)), UndirectedPlan(cfg, t, accepted, uOrder, uw)), a, b)
            == (if (a, b) in dOrder && KeptDirected(cfg, t, (a, b)) then Digraph.EdgeIncrement(a, b, Some(dw)) else 0.0)
               + UndirectedGain(cfg, t, accepted, uOrder, uw, a, b)
  {
    var d, u := DirectedPlan(cfg, t, dOrder, dw), UndirectedPlan(cfg, t, accepted, uOrder, uw);
    var g1 := Inserts(Digraph.Empty, d);
    assert Digraph.Weight(Digraph.Empty, a, b) == 0.0;
    InsertsWeights(Digraph.Empty, d, a, b);
    DirectedContribution(cfg, t, dOrder, dw, a, b);
    assert Digraph.Weight(g1, a, b) == if (a, b) in dOrder && KeptDirected(cfg, t, (a, b)) then Digraph.EdgeIncrement(a, b, Some(dw)) else 0.0;
    InsertsWeights(g1, u, a, b);
    ArrangedOneOrientation(t.interactions, uOrder);
    UndirectedContribution(cfg, t, accepted, uOrder, uw, a, b);
  }

  /** A pair one of whose orientations is an accepted directed pair gains
    * nothing from the undirected loop. */
  lemma DirectedWins(cfg: Config, t: Tables, accepted: set<Pair>, uOrder: seq<Pair>, uw: real, a: string, b: string)
    requires (a, b) in accepted || (b, a) in accepted
    ensures UndirectedGain(cfg, t, accepted, uOrder, uw, a, b) == 0.0
  {
  }

  /** The version line: the text after the first ':', stripped; a line
    * without ':' is an IndexError. */
  function Version(line: string): (r: Result<string>)
    ensures r.Err? <==> ':' !in line
  {
    var parts := Filesys.Split(line, ':');
    SplitsAtSeparator(line, ':');
    if |parts| < 2 then Err("IndexError") else Ok(Strip(parts[1]))
  }

  lemma {:induction false} SplitsAtSeparator<T>(s: seq<T>, sep: T)
    ensures sep in s ==> |Filesys.Split(s, sep)| >= 2
  {
    if s != [] && s[0] != sep {
      SplitsAtSeparator(s[1..], sep);
      assert sep in s ==> sep in s[1..];
    }
  }

  /** `BioGRIDParser3`: the configuration, the gathered tables, the
    * accepted directed pairs that `get_graph` records and the file's
    * version. */
  class BioGridParser {
    const symbols: map<int, string>
    const undirectedSystems: map<string, real>
    const directedSystems: map<string, real>
    const throughputCutoff: int
    const nonFilteredPubmedIds: set<int>
    var biogridVersion: string
    var interactions: map<Pair, seq<Evidence>>
    var directedInteractions: map<Pair, seq<Evidence>>
    var acceptedDirectedPairs: set<Pair>
    var experimentalSystems: map<string, nat>
    var pubCounts: map<int, nat>

    function Cfg(): Config
    {
      Config(symbols, undirectedSystems, directedSystems, throughputCutoff, nonFilteredPubmedIds)
    }

    function Gathered(): Tables
      reads this`interactions, this`directedInteractions, this`experimentalSystems, this`pubCounts
    {
      Tables(interactions, directedInteractions, experimentalSystems, pubCounts)
    }

    ghost predicate Valid()
      reads this`interactions, this`directedInteractions, this`experimentalSystems, this`pubCounts
    {
      WellFormed(Cfg(), Gathered())
    }

    /** The attribute setup of `__init__`; the gene symbols stand for the
      * gene index it loads. */
    constructor (symbols: map<int, string>, undirectedSystems: map<string, real>, directedSystems: map<string, real>,
                 throughputCutoff: int, nonFilteredPubmedIds: Option<seq<int>>)
      ensures Valid() && Gathered() == NoTables && acceptedDirectedPairs == {} && biogridVersion == ""
      ensures this.symbols == symbols && this.undirectedSystems == undirectedSystems
      ensures this.directedSystems == directedSystems && this.throughputCutoff == throughputCutoff
      ensures forall id :: id in this.nonFilteredPubmedIds <==> nonFilteredPubmedIds.Some? && id in nonFilteredPubmedIds.value
    {
      this.symbols := symbols;
      this.undirectedSystems := undirectedSystems;
      this.directedSystems := directedSystems;
      this.throughputCutoff := throughputCutoff;
      this.nonFilteredPubmedIds := if nonFilteredPubmedIds.None? then {} else set id | id in nonFilteredPubmedIds.value;
      biogridVersion := "";
      interactions, directedInteractions := map[], map[];
      acceptedDirectedPairs := {};
      experimentalSystems, pubCounts := map[], map[];
      new;
      EmptyWellFormed(Cfg());
    }

    /** The file part of `__init__`: the version from the first line, then
      * every further line scanned, stopping at the first error. */
    method Load(lines: seq<string>) returns (r: Result<()>)
      requires Valid()
      modifies this
      ensures Valid() && acceptedDirectedPairs == old(acceptedDirectedPairs)
      ensures lines == [] ==> r == Err("StopIteration") && Gathered() == old(Gathered())
      ensures lines != [] && Version(lines[0]).Err? ==> r == Err("IndexError") && Gathered() == old(Gathered())
      ensures lines != [] && Version(lines[0]).Ok? ==>
                var o := Scanned(Cfg(), old(Gathered()), lines[1..]);
                && biogridVersion == Version(lines[0]).value
                && Gathered() == o.tables
                && (r.Ok? <==> o.error.None?)
                && (r.Err? ==> r.error == o.error.value)
    {
      if lines == [] {
        return Err("StopIteration");
      }
      var version :- Version(lines[0]);
      biogridVersion := version;
      r := ScanBody(lines[1..]);
    }

    /** The loop of `__init__` over the lines after the version line. */
    method ScanBody(body: seq<string>) returns (r: Result<()>)
      requires Valid()
      modifies this
      ensures Valid() && acceptedDirectedPairs == old(acceptedDirectedPairs) && biogridVersion == old(biogridVersion)
      ensures var o := Scanned(Cfg(), old(Gathered()), body);
              && Gathered() == o.tables
              && (r.Ok? <==> o.error.None?)
              && (r.Err? ==> r.error == o.error.value)
    {
      ghost var t0 := Gathered();
      for n := 0 to |body|
        invariant Valid() && acceptedDirectedPairs == old(acceptedDirectedPairs) && biogridVersion == old(biogridVersion)
        invariant Scanned(Cfg(), t0, body[..n]) == Outcome(Gathered(), None)
      {
        assert body[..n + 1][..n] == body[..n];
        var scanned := ScanLine(Fields(body[n]));
        if scanned.Err? {
          assert Scanned(Cfg(), t0, body[..n + 1]) == Outcome(Gathered(), Some(scanned.error));
          ScanStops(Cfg(), t0, body, n + 1);
          return Err(scanned.error);
        }
      }
      assert body[..|body|] == body;
      return Ok(());
    }

    /** `_line_scanner`. */
    method ScanLine(fields: seq<string>) returns (r: Result<()>)
      requires Valid()
      modifies this
      ensures Valid() && acceptedDirectedPairs == old(acceptedDirectedPairs) && biogridVersion == old(biogridVersion)
      ensures r.Err? <==> ParseRecord(fields).Err?
      ensures r.Err? ==> r.error == ParseRecord(fields).error && Gathered() == old(Gathered())
      ensures r.Ok? ==> Gathered() == Step(Cfg(), old(Gathered()), ParseRecord(fields).value)
    {
      var rec :- ParseRecord(fields);
      ScanRecord(rec);
      return Ok(());
    }

    /** The dictionary updates of `_line_scanner`. */
    method ScanRecord(rec: Record)
      requires Valid()
      modifies this
      ensures Valid() && acceptedDirectedPairs == old(acceptedDirectedPairs) && biogridVersion == old(biogridVersion)
      ensures Gathered() == Step(Cfg(), old(Gathered()), rec)
    {
      StepKeepsWellFormed(Cfg(), Gathered(), rec);
      var next := FileRecord(Cfg(), Gathered(), rec);
      interactions, directedInteractions, experimentalSystems, pubCounts := next.interactions, next.directed, next.systems, next.pubCounts;
    }

    /** `get_graph`: the directed loop (only when there are directed
      * systems) records and inserts each accepted directed pair with the
      * first directed weight; the undirected loop then inserts both
      * orientations of each accepted undirected pair with the first
      * undirected weight, an IndexError when there is no undirected system.
      * The dictionaries are visited in the orders returned alongside. */
    method GetGraph() returns (r: Result<Digraph.DirectedGraph>, ghost dOrder: seq<Pair>, ghost uOrder: seq<Pair>,
                               ghost dw: real, ghost uw: real)
      requires Valid()
      modifies this
      ensures Valid() && Gathered() == old(Gathered()) && biogridVersion == old(biogridVersion)
      ensures Indexing.Distinct(dOrder) && Indexing.Distinct(uOrder)
      ensures forall p :: p in dOrder <==> p in directedInteractions && |directedSystems| > 0
      ensures |directedSystems| > 0 ==> dw in directedSystems.Values
      ensures forall q :: q in acceptedDirectedPairs <==>
                q in old(acceptedDirectedPairs) || (|directedSystems| > 0 && KeptDirected(Cfg(), Gathered(), q))
      ensures r.Err? <==> |undirectedSystems| == 0
      ensures r.Err? ==> r.error == "IndexError"
      ensures r.Ok? ==>
                && fresh(r.value) && r.value.Valid()
                && uw in undirectedSystems.Values
                && (forall p :: p in uOrder <==> p in interactions)
                && r.value.State() == Inserts(Inserts(Digraph.Empty, DirectedPlan(Cfg(), Gathered(), dOrder, dw)),
                                              UndirectedPlan(Cfg(), Gathered(), acceptedDirectedPairs, uOrder, uw))
    {
      var accepted;
      r, accepted, dOrder, uOrder, dw, uw := BuildGraph(Cfg(), Gathered(), acceptedDirectedPairs);
      acceptedDirectedPairs := accepted;
    }
  }

  /** The body of `get_graph` over the configuration and the gathered
    * tables: the accepted directed pairs it ends with, and the graph. */
  method BuildGraph(cfg: Config, t: Tables, accepted0: set<Pair>)
    returns (r: Result<Digraph.DirectedGraph>, accepted: set<Pair>, ghost dOrder: seq<Pair>, ghost uOrder: seq<Pair>,
             ghost dw: real, ghost uw: real)
    ensures Indexing.Distinct(dOrder) && Indexing.Distinct(uOrder)
    ensures forall p :: p in dOrder <==> p in t.directed && |cfg.directed| > 0
    ensures |cfg.directed| > 0 ==> dw in cfg.directed.Values
    ensures forall q :: q in accepted <==> q in accepted0 || (|cfg.directed| > 0 && KeptDirected(cfg, t, q))
    ensures r.Err? <==> |cfg.undirected| == 0
    ensures r.Err? ==> r.error == "IndexError"
    ensures r.Ok? ==>
              && fresh(r.value) && r.value.Valid()
              && uw in cfg.undirected.Values
              && (forall p :: p in uOrder <==> p in t.interactions)
              && r.value.State() == Inserts(Inserts(Digraph.Empty, DirectedPlan(cfg, t, dOrder, dw)),
                                            UndirectedPlan(cfg, t, accepted, uOrder, uw))
  {
    var g := new Digraph.DirectedGraph();
    dOrder, uOrder, dw, uw := [], [], 0.0, 0.0;
    accepted := accepted0;
    if |cfg.directed| > 0 {
      var w := AnyValue(cfg.directed);
      dw := w;
      var order := ListPairs(t.directed);
      dOrder := order;
      accepted := DirectedLoop(g, cfg, t, order, w, accepted);
      forall q | KeptDirected(cfg, t, q) ensures q in AcceptedAmong(cfg, t, order) {
        AcceptedMembers(cfg, t, order, q);
      }
      forall q | q in AcceptedAmong(cfg, t, order) ensures KeptDirected(cfg, t, q) {
        AcceptedMembers(cfg, t, order, q);
      }
    }
    if |cfg.undirected| == 0 {
      return Err("IndexError"), accepted, dOrder, uOrder, dw, uw;
    }
    var w := AnyValue(cfg.undirected);
    uw := w;
    var order := ListPairs(t.interactions);
    uOrder := order;
    UndirectedLoop(g, cfg, t, accepted, order, w);
    r := Ok(g);
  }

  /** The body of `_line_scanner` after its field reads, updating the
    * dictionaries one after the other. */
  method FileRecord(cfg: Config, t: Tables, rec: Record) returns (next: Tables)
    ensures next == Step(cfg, t, rec)
  {
    var counts := t.pubCounts[rec.pubmedId := Count(t.pubCounts, rec.pubmedId) + 1];
    var undirected, directed, systems := t.interactions, t.directed, t.systems;
    if rec.gene1 in cfg.symbols && rec.gene2 in cfg.symbols
       && (rec.system in cfg.undirected || rec.system in cfg.directed) {
      systems := systems[rec.system := Count(systems, rec.system) + 1];
      var node1, node2 := cfg.symbols[rec.gene1], cfg.symbols[rec.gene2];
      var pair := (node1, node2);
      var e := Evidence(rec.system, rec.pubmedId);
      if rec.system in cfg.undirected {
        if (node2, node1) in undirected {
          pair := (node2, node1);
        }
        undirected := undirected[pair := Entries(undirected, pair) + [e]];
      } else if rec.system in cfg.directed {
        directed := directed[pair := Entries(directed, pair) + [e]];
      }
    }
    next := Tables(undirected, directed, systems, counts);
  }

  /** The first loop of `get_graph`: each directed pair that passes the
    * throughput filter joins the accepted pairs and is inserted with the
    * directed weight. */
  method DirectedLoop(g: Digraph.DirectedGraph, cfg: Config, t: Tables, order: seq<Pair>, w: real, accepted0: set<Pair>)
    returns (accepted: set<Pair>)
    requires g.Valid()
    requires forall p :: p in order ==> p in t.directed
    modifies g
    ensures g.Valid()
    ensures forall q :: q in accepted <==> q in accepted0 || q in AcceptedAmong(cfg, t, order)
    ensures g.State() == Inserts(old(g.State()), DirectedPlan(cfg, t, order, w))
  {
    accepted := accepted0;
    assert order[..0] == [];
    ghost var base := g.State();
    ghost var plan := [];
    for k := 0 to |order|
      invariant g.Valid() && g.State() == Inserts(base, plan)
      invariant forall q :: q in accepted <==> q in accepted0 || q in AcceptedAmong(cfg, t, order[..k])
      invariant plan == DirectedPlan(cfg, t, order[..k], w)
    {
      var p := order[k];
      DirectedPlanNext(cfg, t, order, k, w);
      accepted := VisitDirected(g, base, cfg, t, p, w, plan, accepted);
      plan := if KeptDirected(cfg, t, p) then plan + [Insertion(p.0, p.1, w)] else plan;
    }
    assert order[..|order|] == order;
  }

  /** The body of the first loop for one pair. */
  method VisitDirected(g: Digraph.DirectedGraph, ghost base: Digraph.Graph, cfg: Config, t: Tables, p: Pair, w: real,
                       ghost plan: seq<Insertion>, accepted0: set<Pair>) returns (accepted: set<Pair>)
    requires Digraph.Inv(base) && g.Valid() && g.State() == Inserts(base, plan) && p in t.directed
    modifies g
    ensures g.Valid()
    ensures forall q :: q in accepted <==> q in accepted0 || (q == p && KeptDirected(cfg, t, p))
    ensures g.State() == Inserts(base, if KeptDirected(cfg, t, p) then plan + [Insertion(p.0, p.1, w)] else plan)
  {
    accepted := accepted0;
    if KeepByThroughput(cfg, t.pubCounts, t.directed[p]) == Ok(true) {
      accepted := accepted + {p};
      Insert(g, base, Insertion(p.0, p.1, w), plan);
    }
  }

  /** The second loop of `get_graph`: both orientations of each undirected
    * pair that passes `filter_undirected` are inserted with the undirected
    * weight. */
  method UndirectedLoop(g: Digraph.DirectedGraph, cfg: Config, t: Tables, accepted: set<Pair>, order: seq<Pair>, w: real)
    requires g.Valid()
    requires forall p :: p in order ==> p in t.interactions
    modifies g
    ensures g.Valid()
    ensures g.State() == Inserts(old(g.State()), UndirectedPlan(cfg, t, accepted, order, w))
  {
    assert order[..0] == [];
    ghost var base := g.State();
    ghost var plan := [];
    for k := 0 to |order|
      invariant g.Valid() && g.State() == Inserts(base, plan)
      invariant plan == UndirectedPlan(cfg, t, accepted, order[..k], w)
    {
      var p := order[k];
      UndirectedPlanNext(cfg, t, accepted, order, k, w);
      VisitUndirected(g, base, cfg, t, accepted, p, w, plan);
      plan := if KeptUndirected(cfg, t, accepted, p)
              then plan + [Insertion(p.0, p.1, w)] + [Insertion(p.1, p.0, w)]
              else plan;
    }
    assert order[..|order|] == order;
  }

  /** The body of the second loop for one pair. */
  method VisitUndirected(g: Digraph.DirectedGraph, ghost base: Digraph.Graph, cfg: Config, t: Tables, accepted: set<Pair>,
                         p: Pair, w: real, ghost plan: seq<Insertion>)
    requires Digraph.Inv(base) && g.Valid() && g.State() == Inserts(base, plan) && p in t.interactions
    modifies g
    ensures g.Valid()
    ensures g.State() == Inserts(base, if KeptUndirected(cfg, t, accepted, p)
                                       then plan + [Insertion(p.0, p.1, w)] + [Insertion(p.1, p.0, w)]
                                       else plan)
  {
    if FilterUndirected(cfg, t.pubCounts, accepted, p, t.interactions[p]) == Ok(true) {
      Insert(g, base, Insertion(p.0, p.1, w), plan);
      Insert(g, base, Insertion(p.1, p.0, w), plan + [Insertion(p.0, p.1, w)]);
    }
  }

  /** `G.insert_edge(s1, s2, w)` on a graph built by earlier insertions. */
  method Insert(g: Digraph.DirectedGraph, ghost base: Digraph.Graph, x: Insertion, ghost plan: seq<Insertion>)
    requires Digraph.Inv(base) && g.Valid() && g.State() == Inserts(base, plan)
    modifies g
    ensures g.Valid() && g.State() == Inserts(base, plan + [x])
  {
    InsertsSnoc(base, plan, x);
    g.InsertEdge(x.s1, x.s2, Some(x.w));
  }

  /** Iterating over a dictionary of pairs: its keys once each, in an
    * order the dictionary decides. */
  method ListPairs(m: map<Pair, seq<Evidence>>) returns (order: seq<Pair>)
    ensures Indexing.Distinct(order)
    ensures forall p :: p in order <==> p in m
  {
    order := Indexing.Arrange(m.Keys);
  }

  /** `m.values()[0]`: some value of a non-empty dictionary, in an order
    * the dictionary decides. */
  method AnyValue(m: map<string, real>) returns (v: real)
    requires |m| > 0
    ensures v in m.Values
  {
    var key :| key in m;
    v := m[key];
  }

  /** One more pair visited by the directed loop. */
  lemma DirectedPlanNext(cfg: Config, t: Tables, order: seq<Pair>, k: nat, w: real)
    requires k < |order|
    ensures var p := order[k];
            && DirectedPlan(cfg, t, order[..k + 1], w)
               == (if KeptDirected(cfg, t, p) then DirectedPlan(cfg, t, order[..k], w) + [Insertion(p.0, p.1, w)]
                   else DirectedPlan(cfg, t, order[..k], w))
            && AcceptedAmong(cfg, t, order[..k + 1]) == AcceptedAmong(cfg, t, order[..k]) + (if KeptDirected(cfg, t, p) then {p} else {})
  {
    assert order[..k + 1][..k] == order[..k] && order[..k + 1] == order[..k] + [order[k]];
    var plan := DirectedPlan(cfg, t, order[..k], w);
    assert plan + [] == plan;
  }

  /** One more pair visited by the undirected loop. */
  lemma UndirectedPlanNext(cfg: Config, t: Tables, accepted: set<Pair>, order: seq<Pair>, k: nat, w: real)
    requires k < |order|
    ensures var p := order[k];
            UndirectedPlan(cfg, t, accepted, order[..k + 1], w)
            == if KeptUndirected(cfg, t, accepted, p)
               then UndirectedPlan(cfg, t, accepted, order[..k], w) + [Insertion(p.0, p.1, w)] + [Insertion(p.1, p.0, w)]
               else UndirectedPlan(cfg, t, accepted, order[..k], w)
  {
    assert order[..k + 1][..k] == order[..k];
    var u := UndirectedPlan(cfg, t, accepted, order[..k], w);
    var p := order[k];
    if KeptUndirected(cfg, t, accepted, p) {
      assert u + [Insertion(p.0, p.1, w), Insertion(p.1, p.0, w)] == u + [Insertion(p.0, p.1, w)] + [Insertion(p.1, p.0, w)];
    } else {
      assert u + [] == u;
    }
  }

  /** A scan that failed at line `n` stays failed over the rest. */
  lemma {:induction false} ScanStops(cfg: Config, t: Tables, lines: seq<string>, n: nat)
    requires n <= |lines| && Scanned(cfg, t, lines[..n]).error.Some?
    ensures Scanned(cfg, t, lines) == Scanned(cfg, t, lines[..n])
    decreases |lines| - n
  {
    if n < |lines| {
      assert lines[..n + 1][..n] == lines[..n];
      ScanStops(cfg, t, lines, n + 1);
    } else {
      assert lines[..n] == lines;
    }
  }
}
