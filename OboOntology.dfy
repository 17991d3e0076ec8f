/** The ontology object of `obo.py`: the terms and typedefs read from an
  * OBO file, the sorted index of term ids, the expansion of typedef
  * transitivity along `is_a`, term lookup and ordering, and the
  * transitive closure of a set of terms along their relationships. */
module OboOntology {
  import opened Wrappers
  import opened Ordering
  import opened Indexing
  import opened Obo

  // ---------------------------------------------------------------------
  // Typedef expansion

  /** The `is_a` parents named in a relationship list. */
  function IsAParents(rels: seq<(string, string)>): (ps: set<string>)
    ensures forall r :: r in rels && r.0 == "is_a" ==> r.1 in ps
  {
    set r | r in rels && r.0 == "is_a" :: r.1
  }

  lemma IsAParentsStep(rels: seq<(string, string)>, i: nat)
    requires i < |rels|
    ensures IsAParents(rels[..i + 1]) ==
              IsAParents(rels[..i]) + (if rels[i].0 == "is_a" then {rels[i].1} else {})
  {
    assert rels[..i + 1] == rels[..i] + [rels[i]];
  }

  /** A set of ids that holds the `is_a` parents of each of its typedefs. */
  ghost predicate IsAClosed(tds: map<string, Stanza>, s: set<string>)
  {
    forall u :: u in s && u in tds ==> IsAParents(tds[u].relationships) <= s
  }

  /** `u` is reached from `key` along `is_a`: every closed set holding
    * `key` holds `u`. */
  ghost predicate Reachable(tds: map<string, Stanza>, key: string, u: string)
  {
    forall s :: key in s && IsAClosed(tds, s) ==> u in s
  }

  /** `s` is exactly what `key` reaches along `is_a`. */
  ghost predicate IsReach(tds: map<string, Stanza>, key: string, s: set<string>)
  {
    key in s && IsAClosed(tds, s) && forall u :: u in s ==> Reachable(tds, key, u)
  }

  /** The relationship types the typedefs of `s` are transitive over. */
  function Gathered(tds: map<string, Stanza>, s: set<string>): set<string>
  {
    set u, x | u in s && u in tds && x in tds[u].transitiveOver :: x
  }

  /** What `_expand_typedefs` promises: each typedef becomes transitive
    * over every relationship type any typedef it reaches along `is_a` is
    * transitive over, and nothing else changes. */
  ghost predicate ExpandedFrom(t0: map<string, Stanza>, t: map<string, Stanza>)
  {
    && t.Keys == t0.Keys
    && forall k :: k in t0 ==>
         exists s :: IsReach(t0, k, s) && s <= t0.Keys && t[k] == t0[k].(transitiveOver := Gathered(t0, s))
  }

  /** `_expand_typedefs` fails (KeyError) when some typedef reaches along
    * `is_a` an id that is not a typedef. */
  ghost predicate ExpansionFails(t0: map<string, Stanza>)
  {
    exists k, u :: k in t0 && u !in t0 && Reachable(t0, k, u)
  }

  /** Reachability goes one `is_a` step further. */
  lemma ReachStep(tds: map<string, Stanza>, key: string, u: string, v: string)
    requires Reachable(tds, key, u) && u in tds && v in IsAParents(tds[u].relationships)
    ensures Reachable(tds, key, v)
  {
  }

  /** What a key reaches is determined by the key. */
  lemma ReachUnique(tds: map<string, Stanza>, key: string, s1: set<string>, s2: set<string>)
    requires IsReach(tds, key, s1) && IsReach(tds, key, s2)
    ensures s1 == s2
  {
    assert s1 <= s2;
    assert s2 <= s1;
  }

  /** A closed set holding a typedef holds everything it reaches. */
  lemma ReachWithin(tds: map<string, Stanza>, key: string, s: set<string>, c: set<string>)
    requires IsReach(tds, key, s) && key in c && IsAClosed(tds, c)
    ensures s <= c
  {
  }

  /** Expansion succeeds or fails, never both. */
  lemma ExpansionExclusive(t0: map<string, Stanza>, t: map<string, Stanza>)
    requires ExpandedFrom(t0, t)
    ensures !ExpansionFails(t0)
  {
    forall k, u | k in t0 && u !in t0 ensures !Reachable(t0, k, u) {
      var s :| IsReach(t0, k, s) && s <= t0.Keys && t[k] == t0[k].(transitiveOver := Gathered(t0, s));
      assert u !in s;
    }
  }

  /** After expansion a typedef keeps its own types and inherits those of
    * its `is_a` parents, which are typedefs. */
  lemma ExpansionInherits(t0: map<string, Stanza>, t: map<string, Stanza>, k: string, p: string)
    requires ExpandedFrom(t0, t) && k in t0
    ensures t0[k].transitiveOver <= t[k].transitiveOver
    ensures p in IsAParents(t0[k].relationships) ==>
              p in t0 && t[p].transitiveOver <= t[k].transitiveOver
  {
    var s :| IsReach(t0, k, s) && s <= t0.Keys && t[k] == t0[k].(transitiveOver := Gathered(t0, s));
    if p in IsAParents(t0[k].relationships) {
      assert p in s;
      var sp :| IsReach(t0, p, sp) && sp <= t0.Keys && t[p] == t0[p].(transitiveOver := Gathered(t0, sp));
      ReachWithin(t0, p, sp, s);
    }
  }

  /** While `_expand_typedefs` runs, the typedefs already expanded hold
    * what they reach and the others are as read, so gathering over a
    * closed set of ids gives the same types from the current and the
    * original typedefs. */
  lemma GatheredCurrent(t0: map<string, Stanza>, t: map<string, Stanza>, reach: map<string, set<string>>,
                        done: set<string>)
    requires t.Keys == t0.Keys && done <= t0.Keys && IsAClosed(t0, done)
    requires forall k :: k in t0 && k !in reach ==> t[k] == t0[k]
    requires forall k :: k in reach ==>
               k in t0 && IsReach(t0, k, reach[k]) && t[k].transitiveOver == Gathered(t0, reach[k])
    ensures Gathered(t, done) == Gathered(t0, done)
  {
    forall x | x in Gathered(t, done) ensures x in Gathered(t0, done) {
      var u :| u in done && u in t && x in t[u].transitiveOver;
      if u in reach {
        ReachWithin(t0, u, reach[u], done);
      }
    }
    forall x | x in Gathered(t0, done) ensures x in Gathered(t, done) {
      var u :| u in done && u in t0 && x in t0[u].transitiveOver;
      assert x in t[u].transitiveOver;
    }
  }

  /** The state of the walk `_expand_typedefs` makes from `key`: the ids
    * done and those still to visit are all reached from `key`, and the
    * parents of the done ones are done or still to visit. */
  ghost predicate Walk(t0: map<string, Stanza>, key: string, done: set<string>, todo: set<string>)
  {
    && done <= t0.Keys && key in done + todo
    && (forall u :: u in done + todo ==> Reachable(t0, key, u))
    && (forall u :: u in done ==> IsAParents(t0[u].relationships) <= done + todo)
  }

  lemma WalkStep(t0: map<string, Stanza>, key: string, done: set<string>, todo: set<string>, u: string)
    requires Walk(t0, key, done, todo) && u in todo && u in t0 && u !in done
    ensures Walk(t0, key, done + {u}, (todo - {u}) + IsAParents(t0[u].relationships))
  {
    var next := (todo - {u}) + IsAParents(t0[u].relationships);
    forall v | v in IsAParents(t0[u].relationships) ensures Reachable(t0, key, v) {
      ReachStep(t0, key, u, v);
    }
    assert done + todo <= (done + {u}) + next;
  }

  lemma WalkFails(t0: map<string, Stanza>, key: string, done: set<string>, todo: set<string>, u: string)
    requires Walk(t0, key, done, todo) && key in t0 && u in todo && u !in t0
    ensures ExpansionFails(t0)
  {
    assert Reachable(t0, key, u);
  }

  lemma WalkDone(t0: map<string, Stanza>, key: string, done: set<string>)
    requires Walk(t0, key, done, {})
    ensures IsReach(t0, key, done) && done <= t0.Keys
  {
    assert done + {} == done;
  }

  /** The state of `_expand_typedefs` between typedefs: those done hold
    * the types of what they reach (`reach`), the others are as read. */
  ghost predicate PartlyExpanded(t0: map<string, Stanza>, t: map<string, Stanza>,
                                 reach: map<string, set<string>>, remaining: set<string>)
  {
    && remaining <= t0.Keys && t.Keys == t0.Keys && reach.Keys == t0.Keys - remaining
    && (forall k :: k in remaining ==> t[k] == t0[k])
    && (forall k :: k in reach ==>
          && k in t0 && IsReach(t0, k, reach[k]) && reach[k] <= t0.Keys
          && t[k] == t0[k].(transitiveOver := Gathered(t0, reach[k])))
  }

  /** A typedef not yet done is as read, and no typedef's relationships
    * have changed. */
  lemma PartlyExpandedRest(t0: map<string, Stanza>, t: map<string, Stanza>,
                           reach: map<string, set<string>>, remaining: set<string>, key: string)
    requires PartlyExpanded(t0, t, reach, remaining) && key in remaining
    ensures key in t0 && t.Keys == t0.Keys && t[key] == t0[key]
    ensures forall k :: k in t ==> t[k].relationships == t0[k].relationships
  {
    forall k | k in t ensures t[k].relationships == t0[k].relationships {
      if k !in remaining {
        assert k in reach;
      }
    }
  }

  /** Storing the types gathered for one more typedef. */
  lemma ExpandStep(t0: map<string, Stanza>, t: map<string, Stanza>, reach: map<string, set<string>>,
                   remaining: set<string>, key: string, done: set<string>, acc: set<string>)
    requires PartlyExpanded(t0, t, reach, remaining) && key in remaining
    requires IsReach(t0, key, done) && done <= t0.Keys && acc == t0[key].transitiveOver + Gathered(t, done)
    ensures PartlyExpanded(t0, t[key := t[key].(transitiveOver := acc)], reach[key := done], remaining - {key})
  {
    var t1 := t[key := t[key].(transitiveOver := acc)];
    var reach1 := reach[key := done];
    var rest := remaining - {key};
    assert acc == Gathered(t0, done) by {
      GatheredCurrent(t0, t, reach, done);
      assert t0[key].transitiveOver <= Gathered(t0, done);
    }
    assert reach1.Keys == t0.Keys - rest;
    forall k | k in rest ensures t1[k] == t0[k] {
      assert k in remaining;
    }
    forall k | k in reach1
      ensures && k in t0 && IsReach(t0, k, reach1[k]) && reach1[k] <= t0.Keys
              && t1[k] == t0[k].(transitiveOver := Gathered(t0, reach1[k]))
    {
      if k != key {
        assert k in reach;
      }
    }
  }

  /** With every typedef done, the table is expanded. */
  lemma FullyExpanded(t0: map<string, Stanza>, t: map<string, Stanza>, reach: map<string, set<string>>)
    requires PartlyExpanded(t0, t, reach, {})
    ensures ExpandedFrom(t0, t)
  {
    forall k | k in t0
      ensures exists s :: IsReach(t0, k, s) && s <= t0.Keys && t[k] == t0[k].(transitiveOver := Gathered(t0, s))
    {
      assert k in reach;
    }
  }

  lemma GatheredAdd(tds: map<string, Stanza>, s: set<string>, u: string)
    requires u in tds
    ensures Gathered(tds, s + {u}) == Gathered(tds, s) + tds[u].transitiveOver
  {
  }

  /** One step of the walk of `_expand_typedefs`: visiting a typedef not
    * yet done keeps the walk, adds its types and leaves fewer to do. */
  lemma AncestorStep(t0: map<string, Stanza>, tds: map<string, Stanza>, key: string,
                     done: set<string>, todo: set<string>, acc: set<string>, u: string)
    requires key in t0 && Walk(t0, key, done, todo) && acc == t0[key].transitiveOver + Gathered(tds, done)
    requires u in todo && u in tds && u !in done && tds.Keys == t0.Keys
    requires tds[u].relationships == t0[u].relationships
    ensures Walk(t0, key, done + {u}, (todo - {u}) + IsAParents(tds[u].relationships))
    ensures acc + tds[u].transitiveOver == t0[key].transitiveOver + Gathered(tds, done + {u})
    ensures |t0.Keys - (done + {u})| < |t0.Keys - done|
  {
    GatheredAdd(tds, done, u);
    WalkStep(t0, key, done, todo, u);
    Shrinks(t0.Keys, done, u);
  }

  /** Marking one more element of a finite set as done leaves fewer to do. */
  lemma Shrinks<T>(all: set<T>, done: set<T>, u: T)
    requires u in all && u !in done
    ensures |all - (done + {u})| < |all - done|
  {
    assert all - done == (all - (done + {u})) + {u};
  }

  // ---------------------------------------------------------------------
  // Terms

  /** An `OBOTerm`: the id, namespace and name, the URL format, the
    * relationships, the comparison key (the id's position in the sorted
    * index) and the stored record, whose other fields the term takes as
    * attributes. */
  datatype Term = Term(termId: string, namespace: string, name: string, urlFmt: Option<string>,
                       relationships: seq<(string, string)>, key: nat, stanza: Stanza)

  /** `OBOTerm.__eq__` and `__lt__`: terms compare by key. */
  predicate TermLess(a: Term, b: Term)
  {
    a.key < b.key
  }

  // ---------------------------------------------------------------------
  // The ontology

  class Ontology {
    var terms: map<string, Stanza>
    var typedefs: map<string, Stanza>
    var index2terms: seq<string>
    var term2index: map<string, nat>
    var isFullyParsed: bool
    const termUrlFmt: Option<string>

    /** The index lists the term ids in ascending order and `term2index`
      * inverts it. */
    ghost predicate Valid()
      reads this
    {
      && TablesValid(Tables(terms, typedefs))
      && index2terms == Sorted(terms.Keys)
      && term2index == Enumerated(index2terms)
    }

    /** The fields as the constructor sets them before reading the file. */
    constructor Empty(termUrlFmt: Option<string>)
      ensures terms == map[] && typedefs == map[] && index2terms == [] && term2index == map[]
      ensures !isFullyParsed && this.termUrlFmt == termUrlFmt
    {
      this.termUrlFmt := termUrlFmt;
      terms, typedefs, index2terms, term2index := map[], map[], [], map[];
      isFullyParsed := false;
    }

    /** `get_term`: exactly one of the id and the index (a Python list
      * index, negative counting from the end) must be given; the record
      * must exist and name its namespace and name. */
    function GetTerm(termId: Option<string>, termIndex: Option<int>): (r: Result<Term>)
      reads this
      ensures termId.Some? == termIndex.Some? ==> r == Err("AssertionError")
      ensures r.Ok? ==> var t := r.value;
                        && t.termId in terms && t.stanza == terms[t.termId]
                        && t.relationships == terms[t.termId].relationships
                        && t.termId in term2index && t.key == term2index[t.termId]
      ensures r.Ok? && termId.Some? ==> r.value.termId == termId.value
      ensures termId.None? && termIndex.Some? && PyIndex(termIndex.value, |index2terms|).None? ==>
                r == Err("IndexError")
    {
      if termId.Some? == termIndex.Some? then Err("AssertionError")
      else
        var id :- if termId.Some? then Ok(termId.value)
                  else match PyIndex(termIndex.value, |index2terms|)
                    case None => Err("IndexError")
                    case Some(i) => Ok(index2terms[i]);
        if id !in terms then Err("KeyError")
        else
          var st := terms[id];
          if "namespace" !in st.fields || "name" !in st.fields then Err("TypeError")
          else if id !in term2index then Err("KeyError")
          else Ok(Term(id, st.fields["namespace"], st.fields["name"], termUrlFmt, st.relationships,
                       term2index[id], st))
    }

    /** The record of `id` as a term, or the error `get_term` raises for it. */
    function TermOf(id: string): (r: Result<Term>)
      reads this
      ensures r.Ok? ==> && id in terms && r.value.termId == id && r.value.stanza == terms[id]
                        && r.value.relationships == terms[id].relationships
    {
      if id !in terms then Err("KeyError")
      else
        var st := terms[id];
        if "namespace" !in st.fields || "name" !in st.fields then Err("TypeError")
        else if id !in term2index then Err("KeyError")
        else Ok(Term(id, st.fields["namespace"], st.fields["name"], termUrlFmt, st.relationships,
                     term2index[id], st))
    }

    /** Looking up by id reads that id's record. */
    lemma GetTermById(id: string)
      ensures GetTerm(Some(id), None) == TermOf(id)
    {
    }

    /** Looking up by a valid index reads the record of the id there. */
    lemma GetTermAtIndex(i: nat)
      requires i < |index2terms|
      ensures GetTerm(None, Some(i)) == TermOf(index2terms[i])
    {
      assert PyIndex(i, |index2terms|) == Some(i);
    }

    /** A term looked up by id is found again at its key. */
    lemma GetTermByKey(id: string)
      requires Valid() && GetTerm(Some(id), None).Ok?
      ensures var t := GetTerm(Some(id), None).value;
              t.key < |index2terms| && index2terms[t.key] == id && GetTerm(None, Some(t.key)) == Ok(t)
    {
      GetTermById(id);
      var i := term2index[id];
      assert i < |index2terms| && index2terms[i] == id;
      GetTermAtIndex(i);
    }

    /** Keys order terms as their ids: equal keys are equal ids and a
      * smaller key is a smaller id. */
    lemma KeyOrder(a: string, b: string)
      requires Valid() && GetTerm(Some(a), None).Ok? && GetTerm(Some(b), None).Ok?
      ensures var ta, tb := GetTerm(Some(a), None).value, GetTerm(Some(b), None).value;
              (ta.key == tb.key <==> a == b) && (TermLess(ta, tb) <==> Less(a, b))
    {
      var ta, tb := GetTerm(Some(a), None).value, GetTerm(Some(b), None).value;
      var i, j := ta.key, tb.key;
      assert index2terms[i] == a && index2terms[j] == b;
      if i < j {
        assert Less(a, b);
        LessAsymmetric(a, b);
      } else if j < i {
        assert Less(b, a);
        LessAsymmetric(b, a);
      } else {
        LessIrreflexive(a);
      }
    }

    // -------------------------------------------------------------------
    // Reading the file

    /** `_parse_entire_obo_file`: stores each stanza of the file by its
      * record type, then sorts the term ids, inverts the index and expands
      * the typedefs. */
    method ParseEntireFile(lines: seq<string>) returns (r: Result<()>)
      requires terms == map[] && typedefs == map[]
      modifies this
      ensures r.Ok? ==> && LoadedFile(lines).Ok?
                        && terms == LoadedFile(lines).value.terms
                        && ExpandedFrom(LoadedFile(lines).value.typedefs, typedefs)
                        && Valid() && isFullyParsed
      ensures r.Err? ==> LoadedFile(lines).Err? || ExpansionFails(LoadedFile(lines).value.typedefs)
    {
      r := ReadStanzas(lines);
      if r.Err? {
        return;
      }
      ghost var loaded := Tables(terms, typedefs);
      BuildIndex();
      r := ExpandTypedefs();
      if r.Ok? {
        isFullyParsed := true;
        ParsedValid(loaded.typedefs);
      }
    }

    lemma ParsedValid(t0: map<string, Stanza>)
      requires TablesValid(Tables(terms, t0)) && ExpandedFrom(t0, typedefs)
      requires index2terms == Sorted(terms.Keys) && term2index == Enumerated(index2terms)
      ensures Valid()
    {
      ExpandedValid(t0, typedefs);
    }

    /** The sorted id list and its inverse, built once all stanzas are stored. */
    method BuildIndex()
      modifies this`index2terms, this`term2index
      ensures index2terms == Sorted(terms.Keys) && term2index == Enumerated(index2terms)
    {
      index2terms := Sorted(terms.Keys);
      term2index := Enumerated(index2terms);
    }

    method ReadStanzas(lines: seq<string>) returns (r: Result<()>)
      requires terms == map[] && typedefs == map[]
      modifies this`terms, this`typedefs
      ensures r.Ok? ==> LoadedFile(lines) == Ok(Tables(terms, typedefs))
      ensures r.Err? ==> LoadedFile(lines).Err?
    {
      var name: Option<string> := Some("HEADER");
      var pos: nat := 0;
      ghost var whole := LoadedFile(lines);
      while name.Some?
        invariant pos <= |lines|
        invariant name.Some? ==> whole == Loaded(lines, name.value, pos, Tables(terms, typedefs))
        invariant name.None? ==> whole == Ok(Tables(terms, typedefs))
        decreases if name.Some? then |lines| + 1 - pos else 0
      {
        var rec := GetNextRecord(name.value, lines, pos);
        if rec.Err? {
          return Err(rec.error);
        }
        var st := rec.value.stanza;
        ghost var before := Tables(terms, typedefs);
        if st.recordType == "Term" {
          if "id" !in st.fields {
            return Err("KeyError");
          }
          terms := terms[st.fields["id"] := st.(fields := st.fields - {"id"})];
        } else if st.recordType == "Typedef" {
          if "id" !in st.fields {
            return Err("KeyError");
          }
          typedefs := typedefs[st.fields["id"] := st];
        }
        assert Store(before, st) == Ok(Tables(terms, typedefs));
        name, pos := rec.value.next, rec.value.resume;
      }
      return Ok(());
    }

    /** Expansion keeps the typedef table well formed. */
    lemma ExpandedValid(t0: map<string, Stanza>, t: map<string, Stanza>)
      requires TablesValid(Tables(terms, t0)) && ExpandedFrom(t0, t)
      ensures TablesValid(Tables(terms, t))
    {
      forall k | k in t ensures t[k].recordType == t0[k].recordType && t[k].fields == t0[k].fields {
        var s :| IsReach(t0, k, s) && s <= t0.Keys && t[k] == t0[k].(transitiveOver := Gathered(t0, s));
      }
    }

    /** `_expand_typedefs`: for each typedef, walks its `is_a` ancestors and
      * adds the relationship types each is transitive over. */
    method ExpandTypedefs() returns (r: Result<()>)
      modifies this`typedefs
      ensures r.Ok? ==> ExpandedFrom(old(typedefs), typedefs)
      ensures r.Err? ==> ExpansionFails(old(typedefs))
    {
      ghost var t0 := typedefs;
      ghost var reach: map<string, set<string>> := map[];
      var remaining := typedefs.Keys;
      while remaining != {}
        invariant PartlyExpanded(t0, typedefs, reach, remaining)
        decreases |remaining|
      {
        var key :| key in remaining;
        PartlyExpandedRest(t0, typedefs, reach, remaining, key);
        var acc, done, failed := Ancestors(t0, typedefs, key);
        if failed {
          return Err("KeyError");
        }
        ExpandStep(t0, typedefs, reach, remaining, key, done, acc);
        typedefs := typedefs[key := typedefs[key].(transitiveOver := acc)];
        reach := reach[key := done];
        remaining := remaining - {key};
      }
      FullyExpanded(t0, typedefs, reach);
      return Ok(());
    }

    /** The inner loop of `_expand_typedefs` for one typedef: the ids it
      * reaches along `is_a` and the union of their types as the typedefs
      * `tds` currently hold them, or the failure to find one of them. */
    static method Ancestors(ghost t0: map<string, Stanza>, tds: map<string, Stanza>, key: string)
        returns (acc: set<string>, done: set<string>, failed: bool)
      requires key in t0 && tds.Keys == t0.Keys && tds[key] == t0[key]
      requires forall k :: k in tds ==> tds[k].relationships == t0[k].relationships
      ensures failed ==> ExpansionFails(t0)
      ensures !failed ==> IsReach(t0, key, done) && done <= t0.Keys
                          && acc == t0[key].transitiveOver + Gathered(tds, done)
    {
      acc := tds[key].transitiveOver;
      var unvisited := {key};
      done := {};
      while unvisited != {}
        invariant Walk(t0, key, done, unvisited)
        invariant acc == t0[key].transitiveOver + Gathered(tds, done)
        decreases |t0.Keys - done|, |unvisited|
      {
        var u :| u in unvisited;
        if u in done {
          unvisited := unvisited - {u};
          continue;
        }
        if u !in tds {
          WalkFails(t0, key, done, unvisited, u);
          return acc, done, true;
        }
        var rels := tds[u].relationships;
        AncestorStep(t0, tds, key, done, unvisited, acc, u);
        acc := acc + tds[u].transitiveOver;
        unvisited := AddIsAParents(unvisited - {u}, rels);
        done := done + {u};
      }
      WalkDone(t0, key, done);
      failed := false;
    }

    /** The loop of `_expand_typedefs` over one typedef's relationships:
      * its `is_a` parents join the ids still to visit. */
    static method AddIsAParents(unvisited: set<string>, rels: seq<(string, string)>) returns (r: set<string>)
      ensures r == unvisited + IsAParents(rels)
    {
      r := unvisited;
      for i := 0 to |rels|
        invariant r == unvisited + IsAParents(rels[..i])
      {
        IsAParentsStep(rels, i);
        if rels[i].0 == "is_a" {
          r := r + {rels[i].1};
        }
      }
      assert rels[..|rels|] == rels;
    }

    // -------------------------------------------------------------------
    // Transitive closure

    /** Whether `transitive_closure` follows a relationship of type `rtype`
      * found on a term it reached through a relationship of type `via`:
      * always along `is_a`, otherwise when the typedef `via` is transitive
      * over `rtype`. */
    predicate Follows(via: string, rtype: string)
      reads this
    {
      via == "is_a" || rtype == "is_a" || (via in typedefs && rtype in typedefs[via].transitiveOver)
    }

    /** The test of `Follows` looks up a typedef that does not exist
      * (KeyError) for some relationship in `rels`. */
    predicate FollowFails(via: string, rels: seq<(string, string)>)
      reads this
    {
      via != "is_a" && via !in typedefs && exists q :: q in rels && q.0 != "is_a"
    }

    /** The relationships of a stored term. */
    ghost function Relations(x: string): seq<(string, string)>
      reads this
    {
      if x in terms then terms[x].relationships else []
    }

    /** Every relationship of every stored term. */
    ghost function AllPairs(): set<(string, string)>
      reads this
    {
      set x, q | x in terms && q in terms[x].relationships :: q
    }

    /** The relationships of the terms the closure starts from. */
    ghost function StartPairs(ids: seq<string>): set<(string, string)>
      reads this
    {
      set id, q | id in ids && id in terms && q in terms[id].relationships :: q
    }

    /** The edges recorded for the terms the closure starts from. */
    ghost function StartEdges(ids: seq<string>): set<(string, string, string)>
      reads this
    {
      set id, q | id in ids && id in terms && q in terms[id].relationships :: (id, q.0, q.1)
    }

    /** The relationships followed from the target of `p`. */
    ghost function Successors(p: (string, string)): set<(string, string)>
      reads this
    {
      Followed(p.0, Relations(p.1))
    }

    /** The relationships of `rels` followed on a term reached through `via`. */
    ghost function Followed(via: string, rels: seq<(string, string)>): set<(string, string)>
      reads this
    {
      set q | q in rels && Follows(via, q.0)
    }

    /** The edges recorded for them, from the term `from`. */
    ghost function FollowedEdges(via: string, from: string, rels: seq<(string, string)>): set<(string, string, string)>
      reads this
    {
      set q | q in rels && Follows(via, q.0) :: (from, q.0, q.1)
    }

    /** The edges recorded when the targets of the pairs `s` are visited. */
    ghost function EdgesFrom(s: set<(string, string)>): set<(string, string, string)>
      reads this
    {
      set p, q | p in s && q in Relations(p.1) && Follows(p.0, q.0) :: (p.1, q.0, q.1)
    }

    /** A set of relationships holding those of the starting terms and
      * every relationship followed from each of its targets. */
    ghost predicate PairsClosed(ids: seq<string>, s: set<(string, string)>)
      reads this
    {
      && StartPairs(ids) <= s
      && forall p, q :: p in s && q in Relations(p.1) && Follows(p.0, q.0) ==> q in s
    }

    /** `p` is reached by the closure: every closed set holds it. */
    ghost predicate Derived(ids: seq<string>, p: (string, string))
      reads this
    {
      forall s :: PairsClosed(ids, s) ==> p in s
    }

    /** Every relationship the closure reaches. */
    ghost function DerivedPairs(ids: seq<string>): set<(string, string)>
      reads this
    {
      set p | p in StartPairs(ids) + AllPairs() && Derived(ids, p)
    }

    /** The ids `transitive_closure` returns as visited: the starting ids
      * and the target of every relationship reached. */
    ghost function ClosureIds(ids: seq<string>): set<string>
      reads this
    {
      (set id | id in ids) + (set p | p in DerivedPairs(ids) :: p.1)
    }

    /** Visiting the target of `p` raises: its term cannot be built, or a
      * relationship on it is tested against a missing typedef. */
    ghost predicate StepFails(p: (string, string))
      reads this
    {
      TermOf(p.1).Err? || FollowFails(p.0, Relations(p.1))
    }

    /** `transitive_closure` raises: a starting id has no term, or some
      * reached relationship fails to be visited. */
    ghost predicate ClosureFails(ids: seq<string>)
      reads this
    {
      (exists id :: id in ids && TermOf(id).Err?) || exists p :: Derived(ids, p) && StepFails(p)
    }

    /** A relationship followed from a reached one is reached. */
    lemma DerivedStep(ids: seq<string>, p: (string, string), q: (string, string))
      requires Derived(ids, p) && q in Relations(p.1) && Follows(p.0, q.0)
      ensures Derived(ids, q)
    {
      forall s | PairsClosed(ids, s) ensures q in s {
        assert p in s;
      }
    }

    /** The state of the worklist of `transitive_closure`: the pairs done
      * and still to do are reached, the starting relationships are among
      * them, what the done pairs lead to is done or to do, and no done
      * pair failed. */
    ghost predicate Closing(ids: seq<string>, seen: set<(string, string)>, todo: set<(string, string)>)
      reads this
    {
      && seen + todo <= StartPairs(ids) + AllPairs()
      && StartPairs(ids) <= seen + todo
      && (forall p :: p in seen + todo ==> Derived(ids, p))
      && (forall p :: p in seen ==> Successors(p) <= seen + todo && !StepFails(p))
    }

    lemma ClosingStep(ids: seq<string>, seen: set<(string, string)>, todo: set<(string, string)>,
                      p: (string, string))
      requires Closing(ids, seen, todo) && p in todo && p !in seen && !StepFails(p)
      ensures Closing(ids, seen + {p}, (todo - {p}) + Successors(p))
    {
      var seen1, todo1 := seen + {p}, (todo - {p}) + Successors(p);
      assert seen1 + todo1 == seen + todo + Successors(p);
      forall q | q in Successors(p) ensures Derived(ids, q) && q in AllPairs() {
        DerivedStep(ids, p, q);
        assert p.1 in terms;
      }
      forall x | x in seen1 ensures Successors(x) <= seen1 + todo1 && !StepFails(x) {
        if x != p {
          assert x in seen;
        }
      }
    }

    /** The edges recorded when the target of `p` is visited. */
    ghost function EdgesOf(p: (string, string)): set<(string, string, string)>
      reads this
    {
      FollowedEdges(p.0, p.1, Relations(p.1))
    }

    /** The worklist state together with the ids visited and the edges
      * recorded so far. */
    ghost predicate ClosureState(ids: seq<string>, seen: set<(string, string)>, todo: set<(string, string)>,
                                 visited: set<string>, edges: set<(string, string, string)>)
      reads this
    {
      && Closing(ids, seen, todo)
      && visited == (set id | id in ids) + (set x | x in seen :: x.1)
      && edges == StartEdges(ids) + EdgesFrom(seen)
    }

    /** The worklist state before the first visit. */
    lemma ClosureStart(ids: seq<string>)
      ensures ClosureState(ids, {}, StartPairs(ids), (set id | id in ids), StartEdges(ids))
    {
      forall p | p in StartPairs(ids) ensures Derived(ids, p) {
      }
      var none: set<(string, string)> := {};
      assert (set x | x in none :: x.1) == {};
      assert EdgesFrom(none) == {};
    }

    /** One visit of the worklist keeps its state and leaves fewer pairs
      * to visit. */
    lemma ClosureLoopStep(ids: seq<string>, seen: set<(string, string)>, todo: set<(string, string)>,
                          visited: set<string>, edges: set<(string, string, string)>, p: (string, string))
      requires ClosureState(ids, seen, todo, visited, edges) && p in todo && p !in seen && !StepFails(p)
      ensures ClosureState(ids, seen + {p}, (todo - {p}) + Successors(p), visited + {p.1}, edges + EdgesOf(p))
      ensures |(StartPairs(ids) + AllPairs()) - (seen + {p})| < |(StartPairs(ids) + AllPairs()) - seen|
    {
      assert Closing(ids, seen + {p}, (todo - {p}) + Successors(p)) by {
        ClosingStep(ids, seen, todo, p);
      }
      assert visited + {p.1} == (set id | id in ids) + (set x | x in seen + {p} :: x.1) by {
        VisitedAdd(seen, p);
      }
      assert edges + EdgesOf(p) == StartEdges(ids) + EdgesFrom(seen + {p}) by {
        EdgesFromAdd(seen, p);
      }
      Shrinks(StartPairs(ids) + AllPairs(), seen, p);
    }

    static lemma VisitedAdd(seen: set<(string, string)>, p: (string, string))
      ensures (set x | x in seen + {p} :: x.1) == (set x | x in seen :: x.1) + {p.1}
    {
    }

    lemma EdgesFromAdd(seen: set<(string, string)>, p: (string, string))
      ensures EdgesFrom(seen + {p}) == EdgesFrom(seen) + EdgesOf(p)
    {
    }

    /** Dropping a pair already visited keeps the worklist state. */
    lemma ClosureLoopSkip(ids: seq<string>, seen: set<(string, string)>, todo: set<(string, string)>,
                          visited: set<string>, edges: set<(string, string, string)>, p: (string, string))
      requires ClosureState(ids, seen, todo, visited, edges) && p in seen
      ensures ClosureState(ids, seen, todo - {p}, visited, edges)
    {
      assert seen + (todo - {p}) == seen + todo;
    }

    /** With nothing left to do, the pairs done are exactly those reached
      * and none failed. */
    lemma ClosingDone(ids: seq<string>, seen: set<(string, string)>)
      requires Closing(ids, seen, {}) && forall id :: id in ids ==> TermOf(id).Ok?
      ensures seen == DerivedPairs(ids) && !ClosureFails(ids)
    {
      assert seen + {} == seen;
      assert PairsClosed(ids, seen) by {
        forall p, q | p in seen && q in Relations(p.1) && Follows(p.0, q.0) ensures q in seen {
          assert q in Successors(p);
        }
      }
      forall p | Derived(ids, p) ensures p in seen && !StepFails(p) {
      }
    }

    /** A failure at a reached pair is a failure of the closure. */
    lemma ClosingFails(ids: seq<string>, seen: set<(string, string)>, todo: set<(string, string)>,
                       p: (string, string))
      requires Closing(ids, seen, todo) && p in todo && StepFails(p)
      ensures ClosureFails(ids)
    {
    }

    /** The relationships and edges of the first `k` starting terms. */
    lemma StartStep(ids: seq<string>, k: nat)
      requires k < |ids| && ids[k] in terms
      ensures StartPairs(ids[..k + 1]) == StartPairs(ids[..k]) + (set q | q in terms[ids[k]].relationships)
      ensures StartEdges(ids[..k + 1]) ==
                StartEdges(ids[..k]) + (set q | q in terms[ids[k]].relationships :: (ids[k], q.0, q.1))
    {
      assert ids[..k + 1] == ids[..k] + [ids[k]];
    }

    /** `transitive_closure`: the ids reached from `ids` along their
      * relationships, following a relationship when it or the one that led
      * to its term is `is_a`, or when the typedef that led there is
      * transitive over it; and the edges followed. */
    method TransitiveClosure(ids: seq<string>) returns (r: Result<(set<string>, set<(string, string, string)>)>)
      ensures r.Ok? <==> !ClosureFails(ids)
      ensures r.Ok? ==> r.value.0 == ClosureIds(ids)
                        && r.value.1 == StartEdges(ids) + EdgesFrom(DerivedPairs(ids))
    {
      var start := StartClosure(ids);
      if start.Err? {
        return Err(start.error);
      }
      r := Worklist(ids, start.value.0, start.value.1);
    }

    /** The second loop of `transitive_closure`: visits the relationships
      * still to do until none is left. */
    method Worklist(ids: seq<string>, todo0: set<(string, string)>, edges0: set<(string, string, string)>)
        returns (r: Result<(set<string>, set<(string, string, string)>)>)
      requires forall id :: id in ids ==> TermOf(id).Ok?
      requires todo0 == StartPairs(ids) && edges0 == StartEdges(ids)
      ensures r.Ok? <==> !ClosureFails(ids)
      ensures r.Ok? ==> r.value.0 == ClosureIds(ids)
                        && r.value.1 == StartEdges(ids) + EdgesFrom(DerivedPairs(ids))
    {
      var visited := set id | id in ids;
      var todo, edges := todo0, edges0;
      var seen: set<(string, string)> := {};
      ghost var universe := StartPairs(ids) + AllPairs();
      ClosureStart(ids);
      while todo != {}
        invariant ClosureState(ids, seen, todo, visited, edges)
        decreases |universe - seen|, |todo|
      {
        var p :| p in todo;
        if p in seen {
          ClosureLoopSkip(ids, seen, todo, visited, edges, p);
          todo := todo - {p};
          continue;
        }
        var t := TermOf(p.1);
        if t.Err? {
          ClosingFails(ids, seen, todo, p);
          return Err(t.error);
        }
        var rels := t.value.relationships;
        assert rels == Relations(p.1);
        var next := FollowRels(p.0, p.1, rels);
        if next.None? {
          ClosingFails(ids, seen, todo, p);
          return Err("KeyError");
        }
        ClosureLoopStep(ids, seen, todo, visited, edges, p);
        todo, edges, visited, seen := (todo - {p}) + next.value.0, edges + next.value.1, visited + {p.1}, seen + {p};
      }
      ClosingDone(ids, seen);
      return Ok((visited, edges));
    }

    /** The first loop of `transitive_closure`: the relationships and edges
      * of the starting terms, or the error of the first that cannot be
      * built. */
    method StartClosure(ids: seq<string>) returns (r: Result<(set<(string, string)>, set<(string, string, string)>)>)
      ensures r.Ok? <==> forall id :: id in ids ==> TermOf(id).Ok?
      ensures r.Ok? ==> r.value.0 == StartPairs(ids) && r.value.1 == StartEdges(ids)
    {
      var todo: set<(string, string)> := {};
      var edges: set<(string, string, string)> := {};
      for k := 0 to |ids|
        invariant todo == StartPairs(ids[..k]) && edges == StartEdges(ids[..k])
        invariant forall i :: 0 <= i < k ==> TermOf(ids[i]).Ok?
      {
        var t := TermOf(ids[k]);
        if t.Err? {
          return Err(t.error);
        }
        StartStep(ids, k);
        var rels := t.value.relationships;
        todo := todo + (set q | q in rels);
        edges := edges + (set q | q in rels :: (ids[k], q.0, q.1));
      }
      assert ids[..|ids|] == ids;
      return Ok((todo, edges));
    }

    /** The loop of `transitive_closure` over the relationships of a term
      * reached through `via`: those it follows and their edges, or the
      * KeyError of a missing typedef. */
    method FollowRels(via: string, from: string, rels: seq<(string, string)>)
        returns (r: Option<(set<(string, string)>, set<(string, string, string)>)>)
      ensures r.None? <==> FollowFails(via, rels)
      ensures r.Some? ==> r.value.0 == Followed(via, rels) && r.value.1 == FollowedEdges(via, from, rels)
    {
      var added: set<(string, string)> := {};
      var found: set<(string, string, string)> := {};
      for i := 0 to |rels|
        invariant added == (set q | q in rels[..i] && Follows(via, q.0))
        invariant found == (set q | q in rels[..i] && Follows(via, q.0) :: (from, q.0, q.1))
        invariant forall j :: 0 <= j < i ==> via == "is_a" || via in typedefs || rels[j].0 == "is_a"
      {
        assert rels[..i + 1] == rels[..i] + [rels[i]];
        var q := rels[i];
        if via != "is_a" && q.0 != "is_a" && via !in typedefs {
          return None;
        }
        if Follows(via, q.0) {
          added := added + {q};
          found := found + {(from, q.0, q.1)};
        }
      }
      assert rels[..|rels|] == rels;
      return Some((added, found));
    }

    /** Along `is_a` the closure goes all the way up: an `is_a` parent of
      * a visited id is visited. */
    lemma ClosureFollowsIsA(ids: seq<string>, x: string, c: string)
      requires x in ClosureIds(ids) && ("is_a", c) in Relations(x)
      ensures c in ClosureIds(ids)
    {
      var q := ("is_a", c);
      if x in ids {
        assert q in StartPairs(ids);
        forall s | PairsClosed(ids, s) ensures q in s {
        }
      } else {
        var p :| p in DerivedPairs(ids) && p.1 == x;
        DerivedStep(ids, p, q);
      }
      assert q in AllPairs();
      assert q in DerivedPairs(ids);
    }

    /** `compare_to`: 0 for equal keys; otherwise 1 when `b` is in the
      * closure of `a`, else -1 when `a` is in the closure of `b`, else no
      * order. A closure that raises makes the comparison raise. The cache
      * argument is not modelled. */
    method CompareTo(a: Term, b: Term) returns (r: Result<Option<int>>)
      ensures a.key == b.key ==> r == Ok(Some(0))
      ensures a.key != b.key && ClosureFails([a.termId]) ==> r.Err?
      ensures a.key != b.key && !ClosureFails([a.termId]) && b.termId in ClosureIds([a.termId]) ==>
                r == Ok(Some(1))
      ensures a.key != b.key && !ClosureFails([a.termId]) && b.termId !in ClosureIds([a.termId]) ==>
                if ClosureFails([b.termId]) then r.Err?
                else r == Ok(if a.termId in ClosureIds([b.termId]) then Some(-1) else None)
    {
      if a.key == b.key {
        return Ok(Some(0));
      }
      var up := TransitiveClosure([a.termId]);
      if up.Err? {
        return Err(up.error);
      }
      if b.termId in up.value.0 {
        return Ok(Some(1));
      }
      var down := TransitiveClosure([b.termId]);
      if down.Err? {
        return Err(down.error);
      }
      return Ok(if a.termId in down.value.0 then Some(-1) else None);
    }
  }
}
