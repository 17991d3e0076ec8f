/** Dependency resolution for the installer (common/pkg/gluelib.py): the
  * configuration read from and written back to its list-of-fields form,
  * the recursive topological sort of the dependency graph, the dependents
  * recorded for installed nodes, the age check on installed nodes and the
  * guard on removal. Loading the node classes, their own install and
  * remove actions, hashing and the JSON files are not part of this model. */
module Gluelib {
  import opened Wrappers
  import opened Indexing

  // ------------------------------------------------------------------
  // Configuration records
  // ------------------------------------------------------------------

  /** A JSON value of the configuration. */
  datatype Value = Text(text: string) | Flag(flag: bool) | Names(names: seq<string>)
                 | Args(args: map<string, string>) | Null

  /** One `dep_list` entry: its fields as (field, value) pairs. */
  type Entry = seq<(string, Value)>

  type Fields = map<string, Value>

  /** The fields `dict2config` writes after the name, in this order. */
  const FieldOrder: seq<string> := ["docstring", "dep_node_module", "dep_node_class", "hidden", "prereqs", "args"]

  /** One entry read field by field, as the loop in `config2dict` does:
    * the value of its last 'name' field (None when there is none) and
    * every other field, a later repetition overriding an earlier one. */
  function ReadEntry(entry: Entry): (r: (Value, Fields))
    ensures "name" !in r.1
    ensures entry != [] && entry[|entry| - 1].0 == "name" ==> r.0 == entry[|entry| - 1].1
    ensures entry != [] && entry[|entry| - 1].0 != "name" ==>
              entry[|entry| - 1].0 in r.1 && r.1[entry[|entry| - 1].0] == entry[|entry| - 1].1
  {
    if entry == [] then (Null, map[])
    else
      var init := entry[..|entry| - 1];
      var last := entry[|entry| - 1];
      var prev := ReadEntry(init);
      if last.0 == "name" then (last.1, prev.1) else (prev.0, prev.1[last.0 := last.1])
  }

  /** `config2dict`: each entry's fields under the entry's name; a later
    * entry of the same name replaces an earlier one. */
  function Config2Dict(depList: seq<Entry>): (r: map<Value, Fields>)
    ensures forall k :: 0 <= k < |depList| ==> ReadEntry(depList[k]).0 in r
    ensures depList != [] ==> var e := ReadEntry(depList[|depList| - 1]); r[e.0] == e.1
  {
    if depList == [] then map[]
    else
      var init := depList[..|depList| - 1];
      var e := ReadEntry(depList[|depList| - 1]);
      assert forall k :: 0 <= k < |init| ==> init[k] == depList[k];
      Config2Dict(init)[e.0 := e.1]
  }

  /** An entry carries each written field. */
  predicate Complete(info: Fields)
  {
    forall f :: f in FieldOrder ==> f in info
  }

  /** `fields` holds exactly the written fields, with the values of `info`. */
  ghost predicate Restricts(fields: Fields, info: Fields)
  {
    && (forall f :: f in fields <==> f in FieldOrder)
    && (forall f :: f in fields ==> f in info && fields[f] == info[f])
  }

  /** The (field, value) pairs of the given fields, in order. */
  function Pairs(info: Fields, fs: seq<string>): (r: Entry)
    requires forall f :: f in fs ==> f in info
    ensures |r| == |fs| && forall k :: 0 <= k < |fs| ==> r[k] == (fs[k], info[fs[k]])
  {
    if fs == [] then [] else Pairs(info, fs[..|fs| - 1]) + [(fs[|fs| - 1], info[fs[|fs| - 1]])]
  }

  /** `dict2config`: one entry per key, in the dictionary's iteration order
    * `order`, holding the name and the six fields; a missing field is a
    * KeyError. */
  function Dict2Config(d: map<Value, Fields>, order: seq<Value>): (r: Result<seq<Entry>>)
    requires forall key :: key in d <==> key in order
    ensures r.Err? <==> exists key :: key in d && !Complete(d[key])
    ensures r.Ok? ==> ReadsBack(r.value, order, d)
  {
    Emit(d, order)
  }

  /** Each entry reads back as its key and that key's written fields. */
  ghost predicate ReadsBack(entries: seq<Entry>, keys: seq<Value>, d: map<Value, Fields>)
  {
    && |entries| == |keys|
    && forall k :: 0 <= k < |keys| ==>
         keys[k] in d && ReadEntry(entries[k]).0 == keys[k] && Restricts(ReadEntry(entries[k]).1, d[keys[k]])
  }

  lemma ReadsBackSnoc(entries: seq<Entry>, keys: seq<Value>, d: map<Value, Fields>, entry: Entry, key: Value)
    requires ReadsBack(entries, keys, d)
    requires key in d && ReadEntry(entry).0 == key && Restricts(ReadEntry(entry).1, d[key])
    ensures ReadsBack(entries + [entry], keys + [key], d)
  {
    var e, k := entries + [entry], keys + [key];
    forall i | 0 <= i < |k|
      ensures k[i] in d && ReadEntry(e[i]).0 == k[i] && Restricts(ReadEntry(e[i]).1, d[k[i]])
    {
      if i < |keys| {
        assert e[i] == entries[i] && k[i] == keys[i];
      }
    }
  }

  function Emit(d: map<Value, Fields>, keys: seq<Value>): (r: Result<seq<Entry>>)
    requires forall key :: key in keys ==> key in d
    ensures r.Err? <==> exists key :: key in keys && !Complete(d[key])
    ensures r.Ok? ==> ReadsBack(r.value, keys, d)
  {
    if keys == [] then Ok([])
    else
      var key := keys[|keys| - 1];
      var init := keys[..|keys| - 1];
      assert init + [key] == keys;
      assert forall key :: key in keys <==> key in init || key == keys[|keys| - 1];
      match Emit(d, init)
      case Err(e) => Err(e)
      case Ok(entries) =>
        if !Complete(d[key]) then Err("KeyError")
        else
          var entry := [("name", key)] + Pairs(d[key], FieldOrder);
          ReadWritten(key, d[key], FieldOrder);
          ReadsBackSnoc(entries, init, d, entry, key);
          Ok(entries + [entry])
  }

  /** An entry written by `dict2config` reads back as its name and fields. */
  lemma {:induction false} ReadWritten(key: Value, info: Fields, fs: seq<string>)
    requires "name" !in fs
    requires forall f :: f in fs ==> f in info
    ensures ReadEntry([("name", key)] + Pairs(info, fs)).0 == key
    ensures var fields := ReadEntry([("name", key)] + Pairs(info, fs)).1;
            (forall f :: f in fields <==> f in fs) && forall f :: f in fields ==> fields[f] == info[f]
  {
    var e := [("name", key)] + Pairs(info, fs);
    if fs != [] {
      var init := fs[..|fs| - 1];
      assert forall f :: f in fs <==> f in init || f == fs[|fs| - 1];
      ReadWritten(key, info, init);
      assert e[..|e| - 1] == [("name", key)] + Pairs(info, init);
    } else {
      assert e[..0] == [];
    }
  }

  /** Reading back what `dict2config` wrote gives the original map, when
    * every entry holds exactly the six written fields. */
  lemma Config2DictOfDict2Config(d: map<Value, Fields>, order: seq<Value>)
    requires forall key :: key in d <==> key in order
    requires forall key :: key in d ==> forall f :: f in d[key] <==> f in FieldOrder
    ensures Dict2Config(d, order).Ok?
    ensures Config2Dict(Dict2Config(d, order).value) == d
  {
    ReadBackAll(d, order, Dict2Config(d, order).value);
  }

  lemma ExactFields(fields: Fields, info: Fields)
    requires Restricts(fields, info)
    requires forall f :: f in info <==> f in FieldOrder
    ensures fields == info
  {
  }

  lemma ReadBackAll(d: map<Value, Fields>, order: seq<Value>, entries: seq<Entry>)
    requires forall key :: key in d <==> key in order
    requires forall key :: key in d ==> forall f :: f in d[key] <==> f in FieldOrder
    requires ReadsBack(entries, order, d)
    ensures Config2Dict(entries) == d
  {
    ReadBackPrefix(d, order, entries, |order|);
    assert entries[..|order|] == entries;
    var c := Config2Dict(entries);
    forall key | key in d ensures key in c {
      var i :| 0 <= i < |order| && order[i] == key;
    }
  }

  lemma {:induction false} ReadBackPrefix(d: map<Value, Fields>, order: seq<Value>, entries: seq<Entry>, n: nat)
    requires forall key :: key in d ==> forall f :: f in d[key] <==> f in FieldOrder
    requires n <= |order|
    requires ReadsBack(entries, order, d)
    ensures forall i :: 0 <= i < n ==> order[i] in Config2Dict(entries[..n])
    ensures forall key :: key in Config2Dict(entries[..n]) ==> key in d && Config2Dict(entries[..n])[key] == d[key]
  {
    if n > 0 {
      ReadBackPrefix(d, order, entries, n - 1);
      var prev := Config2Dict(entries[..n - 1]);
      assert entries[..n][..n - 1] == entries[..n - 1];
      var key := order[n - 1];
      var e := ReadEntry(entries[n - 1]);
      ExactFields(e.1, d[key]);
      assert Config2Dict(entries[..n]) == prev[key := e.1];
    }
  }

  // ------------------------------------------------------------------
  // Dependents
  // ------------------------------------------------------------------

  /** The information kept for each node; the per-node visit counter is
    * held in a map of its own. */
  datatype NodeInfo = NodeInfo(docstring: string, hidden: bool, prereqs: seq<string>, dependents: set<string>)

  /** `calculate_node2dependents`: the inverse of the prerequisite
    * relation, built over the nodes in the dictionary's iteration order. */
  method CalculateNode2Dependents(info: map<string, NodeInfo>) returns (r: map<string, set<string>>)
    ensures forall d :: d in r ==> r[d] != {}
    ensures forall d, n :: n in Lookup(r, d) <==> n in info && d in info[n].prereqs
  {
    r := map[];
    var rest := info.Keys;
    while rest != {}
      invariant rest <= info.Keys
      invariant forall d :: d in r ==> r[d] != {}
      invariant forall d, n :: n in Lookup(r, d) <==> n in info && n !in rest && d in info[n].prereqs
      decreases rest
    {
      var node :| node in rest;
      var deps := info[node].prereqs;
      for k := 0 to |deps|
        invariant forall d :: d in r ==> r[d] != {}
        invariant forall d, n :: n in Lookup(r, d) <==>
                    n in info && d in info[n].prereqs && (n !in rest || (n == node && d in deps[..k]))
      {
        assert deps[..k + 1] == deps[..k] + [deps[k]];
        ghost var r0 := r;
        r := r[deps[k] := Lookup(r, deps[k]) + {node}];
        assert forall d :: d != deps[k] ==> Lookup(r, d) == Lookup(r0, d);
        assert Lookup(r, deps[k]) == Lookup(r0, deps[k]) + {node};
      }
      assert deps[..|deps|] == deps;
      rest := rest - {node};
    }
  }

  // ------------------------------------------------------------------
  // The dependency graph
  // ------------------------------------------------------------------

  /** An installed node in the installation database. */
  datatype Record = Record(date: int, dependents: seq<string>)

  datatype Status = NotPresent | DateMismatch | Current

  /** The age in days after which an installed node is out of date. */
  const DefaultLifetime := 30

  /** Every node of the order is known and comes after its prerequisites. */
  ghost predicate Ordered(order: seq<string>, info: map<string, NodeInfo>)
  {
    forall i :: 0 <= i < |order| ==>
      order[i] in info && forall p :: p in info[order[i]].prereqs ==> p in order[..i]
  }

  /** How many times `x` occurs in `s`. */
  function Count(s: seq<string>, x: string): nat
  {
    if s == [] then 0 else Count(s[..|s| - 1], x) + (if s[|s| - 1] == x then 1 else 0)
  }

  lemma {:induction false} CountConcat(a: seq<string>, b: seq<string>, x: string)
    ensures Count(a + b, x) == Count(a, x) + Count(b, x)
  {
    if b != [] {
      assert (a + b)[..|a + b| - 1] == a + b[..|b| - 1];
      CountConcat(a, b[..|b| - 1], x);
    } else {
      assert a + b == a;
    }
  }

  function AsSet(s: seq<string>): set<string>
  {
    set x | x in s
  }

  class DepGraph {
    var name2info: map<string, NodeInfo>
    /** The 'visits' counter of each node's information. */
    var visits: map<string, nat>
    var topologicalOrder: seq<string>
    var visitedNodes: seq<string>
    const product: string
    /** The installation database: one record per installed node; its
      * 'files' list and configured lifetime are the two fields below. */
    var database: map<string, Record>
    var files: set<string>
    var lifetime: Option<int>
    /** Every node a visit reached past the cycle check, in call order. */
    ghost var trace: seq<string>

    /** The state of a search whose current call chain is `stack`: the
      * order so far is sound, and the visited nodes are those of the order
      * and those whose visit is still under way. */
    ghost predicate Searching(stack: seq<string>)
      reads this
    {
      SearchState(Snap(), stack)
    }

    /** The graph before the product is visited: every counter at zero and
      * the dependents recorded in the database. */
    constructor (desired: string, info: map<string, NodeInfo>, db: map<string, Record>, dbFiles: set<string>, dbLifetime: Option<int>)
      ensures product == desired && database == db && files == dbFiles && lifetime == dbLifetime
      ensures name2info.Keys == info.Keys && visits.Keys == info.Keys
      ensures forall n :: n in info ==>
                (visits[n] == 0 && name2info[n] == info[n].(dependents := if n in db then AsSet(db[n].dependents) else {}))
      ensures topologicalOrder == [] && visitedNodes == [] && Searching([])
    {
      product, database, files, lifetime := desired, db, dbFiles, dbLifetime;
      name2info := map n | n in info :: info[n].(dependents := if n in db then AsSet(db[n].dependents) else {});
      visits := map n | n in info :: 0;
      topologicalOrder, visitedNodes := [], [];
      trace := [];
    }

    /** The part of the state a visit may change. */
    ghost function Snap(): Snapshot
      reads this
    {
      Snapshot(name2info, visits, topologicalOrder, visitedNodes, trace, database, files, lifetime)
    }

    /** `visit_node`: depth-first topological sort. A node already on the
      * call chain is a cycle; a node first reached has its prerequisites
      * visited and is then appended to the order; every visit but one of
      * the product raises the node's counter. */
    method VisitNode(node: string, stack: seq<string>) returns (r: Result<()>)
      requires Searching(stack)
      modifies this
      decreases name2info.Keys - AsSet(visitedNodes), 0
      ensures Progress(old(Snap()), Snap(), product)
      ensures node in stack ==> r == Err("Exception") && Snap() == old(Snap())
      ensures node !in stack && node !in name2info ==> r == Err("KeyError")
      ensures node !in stack ==> |trace| > |old(trace)| && trace[|old(trace)|] == node
      ensures r.Ok? ==> Searching(stack) && node in topologicalOrder
    {
      if node in stack {
        return Err("Exception");
      }
      var chain := stack + [node];
      if node != product && node !in visits {
        trace := trace + [node];
        FirstStep(old(Snap()), Snap(), node, product);
        return Err("KeyError");
      }
      var counted := if node == product then visits else visits[node := visits[node] + 1];
      if node in visitedNodes {
        trace, visits := trace + [node], counted;
        FirstStep(old(Snap()), Snap(), node, product);
        SearchKept(old(Snap()), Snap(), stack);
        return Ok(());
      }
      trace, visits, visitedNodes := trace + [node], counted, visitedNodes + [node];
      ghost var before := Snap();
      FirstStep(old(Snap()), before, node, product);
      if node !in name2info {
        return Err("KeyError");
      }
      SearchEnter(old(Snap()), before, stack, node);
      assert name2info.Keys - AsSet(visitedNodes) < old(name2info.Keys - AsSet(visitedNodes)) by {
        assert node in old(name2info.Keys - AsSet(visitedNodes));
      }
      r := VisitPrereqs(node, chain);
      ProgressTrans(old(Snap()), before, Snap(), product);
      assert chain[..|chain| - 1] == stack;
    }

    /** The second half of `visit_node`, for a node first reached: visit its
      * prerequisites in order, stopping at the first failure, then append
      * it to the order. */
    method VisitPrereqs(node: string, chain: seq<string>) returns (r: Result<()>)
      requires Searching(chain) && chain != [] && chain[|chain| - 1] == node
      requires node in name2info && node in visitedNodes
      modifies this
      decreases name2info.Keys - AsSet(visitedNodes), 1
      ensures Progress(old(Snap()), Snap(), product)
      ensures r.Ok? ==> Searching(chain[..|chain| - 1]) && node in topologicalOrder
    {
      var edges := name2info[node].prereqs;
      for k := 0 to |edges|
        invariant Progress(old(Snap()), Snap(), product)
        invariant Searching(chain)
        invariant AsSet(visitedNodes) >= old(AsSet(visitedNodes))
        invariant Within(edges[..k], topologicalOrder)
      {
        ghost var before := Snap();
        assert name2info.Keys - AsSet(visitedNodes) <= old(name2info.Keys - AsSet(visitedNodes));
        var sub := VisitNode(edges[k], chain);
        ProgressTrans(old(Snap()), before, Snap(), product);
        if sub.Err? {
          return sub;
        }
        WithinStep(edges, k, before.order, topologicalOrder);
      }
      WithinAll(edges, topologicalOrder);
      OrderExtends(node, chain);
      topologicalOrder := topologicalOrder + [node];
      return Ok(());
    }

    /** Appending a node whose prerequisites are all ordered, and which
      * is the last of the call chain, keeps the search state. */
    lemma OrderExtends(node: string, chain: seq<string>)
      requires Searching(chain) && chain != [] && chain[|chain| - 1] == node
      requires Within(name2info[node].prereqs, topologicalOrder)
      ensures Ordered(topologicalOrder + [node], name2info)
      ensures Distinct(topologicalOrder + [node])
    {
      var t := topologicalOrder + [node];
      assert t[..|t| - 1] == topologicalOrder;
      forall i | 0 <= i < |topologicalOrder| ensures t[..i] == topologicalOrder[..i] { }
    }

    /** `calculate_new_dependents`: each ordered node gains, among its
      * dependents, the nodes of the order that list it as a prerequisite. */
    method CalculateNewDependents()
      requires Ordered(topologicalOrder, name2info)
      modifies this
      ensures Gained(name2info, old(name2info), topologicalOrder, topologicalOrder)
      ensures visits == old(visits) && topologicalOrder == old(topologicalOrder) && visitedNodes == old(visitedNodes)
      ensures database == old(database) && files == old(files) && lifetime == old(lifetime)
    {
      var node2dependents := CalculateNode2Dependents(name2info);
      var order := topologicalOrder;
      var info := name2info;
      for i := 0 to |order|
        modifies {}
        invariant Gained(info, name2info, order, order[..i])
      {
        var node := order[i];
        var added := set nd | nd in Lookup(node2dependents, node) && nd in order;
        AddedAreNew(node2dependents, name2info, order, node);
        GainedStep(info, name2info, order, i);
        info := info[node := info[node].(dependents := info[node].dependents + added)];
      }
      assert order[..|order|] == order;
      name2info := info;
    }

    /** The lifetime configured in the database, 30 days by default. */
    function Lifetime(): int
      reads this
    {
      if lifetime.Some? then lifetime.value else DefaultLifetime
    }

    /** `get_status`: an unknown node is a KeyError; a node missing from the
      * database is not present; an installed node whose age in days has
      * reached the lifetime is out of date; any other is current. */
    function GetStatus(node: string, today: int): (r: Result<Status>)
      reads this
      ensures r.Err? <==> node !in name2info
      ensures r == Ok(NotPresent) <==> node in name2info && node !in database
      ensures r == Ok(DateMismatch) <==> node in name2info && node in database && today - database[node].date >= Lifetime()
      ensures r == Ok(Current) <==> node in name2info && node in database && today - database[node].date < Lifetime()
    {
      if node !in name2info then Err("KeyError")
      else if node !in database then Ok(NotPresent)
      else if today - database[node].date >= Lifetime() then Ok(DateMismatch)
      else Ok(Current)
    }

    /** `remove`: without force, a product that still has dependents is a
      * DependencyError and nothing changes; otherwise its record leaves the
      * database and the file list keeps only the files that still exist. */
    method Remove(forced: bool, existing: set<string>) returns (r: Result<()>)
      requires product in name2info
      modifies this
      ensures name2info == old(name2info) && visits == old(visits) && topologicalOrder == old(topologicalOrder)
      ensures lifetime == old(lifetime)
      ensures r.Ok? <==> forced || name2info[product].dependents == {}
      ensures r.Err? ==> r == Err("DependencyError") && database == old(database) && files == old(files)
      ensures r.Ok? ==> database == old(database) - {product} && files == old(files) * existing
    {
      if !forced && name2info[product].dependents != {} {
        return Err("DependencyError");
      }
      database, files := database - {product}, files * existing;
      return Ok(());
    }
  }

  /** The nodes of the order that list `node` as a prerequisite. */
  ghost function NewDependents(info: map<string, NodeInfo>, order: seq<string>, node: string): set<string>
  {
    set m | m in order && m in info && node in info[m].prereqs
  }

  /** `info` is `info0` where each node of `done` has gained its new
    * dependents in `order`, and every other node is as it was. */
  ghost predicate Gained(info: map<string, NodeInfo>, info0: map<string, NodeInfo>, order: seq<string>, done: seq<string>)
  {
    && info.Keys == info0.Keys
    && forall n :: n in info ==> info[n] == info0[n].(dependents :=
         info0[n].dependents + (if n in done then NewDependents(info0, order, n) else {}))
  }

  lemma GainedStep(info: map<string, NodeInfo>, info0: map<string, NodeInfo>, order: seq<string>, i: nat)
    requires i < |order| && order[i] in info0 && Gained(info, info0, order, order[..i])
    ensures var node := order[i];
            Gained(info[node := info[node].(dependents := info[node].dependents + NewDependents(info0, order, node))],
                   info0, order, order[..i + 1])
  {
    assert order[..i + 1] == order[..i] + [order[i]];
  }

  /** After the update, every prerequisite of an ordered node is itself
    * known and counts that node among its dependents, and no node lost a
    * dependent. */
  lemma DependentsRecorded(info: map<string, NodeInfo>, info0: map<string, NodeInfo>, order: seq<string>)
    requires Ordered(order, info0) && Gained(info, info0, order, order)
    ensures forall i, p :: 0 <= i < |order| && p in info0[order[i]].prereqs ==>
              p in info && order[i] in info[p].dependents
    ensures forall n :: n in info0 ==> info0[n].dependents <= info[n].dependents
  {
    forall i, p | 0 <= i < |order| && p in info0[order[i]].prereqs
      ensures p in info && order[i] in info[p].dependents
    {
      assert p in order[..i];
      assert order[i] in NewDependents(info0, order, p);
    }
  }

  /** The dependents the inverted map gives a node, restricted to the
    * order, are its new dependents. */
  lemma AddedAreNew(node2dependents: map<string, set<string>>, info: map<string, NodeInfo>, order: seq<string>, node: string)
    requires forall d, n :: n in Lookup(node2dependents, d) <==> n in info && d in info[n].prereqs
    ensures (set nd | nd in Lookup(node2dependents, node) && nd in order) == NewDependents(info, order, node)
  {
  }

  /** Each counter other than the product's has grown by the number of
    * times its node occurs in the trace `t`. */
  ghost predicate Counted(visits: map<string, nat>, visits0: map<string, nat>, t: seq<string>, product: string)
  {
    forall n :: n in visits && n != product ==> n in visits0 && visits[n] == visits0[n] + Count(t, n)
  }

  /** The fields of a dependency graph that a visit may change. */
  datatype Snapshot = Snapshot(name2info: map<string, NodeInfo>, visits: map<string, nat>,
                               order: seq<string>, visited: seq<string>, trace: seq<string>,
                               database: map<string, Record>, files: set<string>, lifetime: Option<int>)

  /** From `a` to `b` a search only adds: the information and the database
    * stay, visited and ordered nodes stay, the trace grows, and each counter
    * but the product's grows by the visits the new part of the trace holds. */
  ghost predicate Progress(a: Snapshot, b: Snapshot, product: string)
  {
    && b.name2info == a.name2info && b.visits.Keys == a.visits.Keys
    && b.database == a.database && b.files == a.files && b.lifetime == a.lifetime
    && (forall n :: n in a.visited ==> n in b.visited)
    && (forall n :: n in a.order ==> n in b.order)
    && a.trace <= b.trace
    && Counted(b.visits, a.visits, b.trace[|a.trace|..], product)
    && (product in a.visits ==> b.visits[product] == a.visits[product])
  }

  lemma ProgressTrans(a: Snapshot, b: Snapshot, c: Snapshot, product: string)
    requires Progress(a, b, product) && Progress(b, c, product)
    ensures Progress(a, c, product)
  {
    CountedThrough(a.visits, b.visits, c.visits, a.trace, b.trace, c.trace, product);
  }

  /** Every element of `s` occurs in `t`. */
  ghost predicate Within(s: seq<string>, t: seq<string>)
  {
    forall i :: 0 <= i < |s| ==> s[i] in t
  }

  lemma WithinStep(s: seq<string>, k: nat, t: seq<string>, t': seq<string>)
    requires k < |s| && Within(s[..k], t) && s[k] in t'
    requires forall n :: n in t ==> n in t'
    ensures Within(s[..k + 1], t')
  {
    assert s[..k + 1] == s[..k] + [s[k]];
  }

  lemma WithinAll(s: seq<string>, t: seq<string>)
    requires Within(s[..|s|], t)
    ensures Within(s, t)
  {
    assert s[..|s|] == s;
  }

  /** One visit of `node` recorded: its counter, unless it is the
    * product, went up by one. */
  lemma CountedOne(v0: map<string, nat>, v1: map<string, nat>, t0: seq<string>, node: string, product: string)
    requires v1.Keys == v0.Keys
    requires forall n :: n in v1 && n != product ==> v1[n] == v0[n] + (if n == node then 1 else 0)
    ensures Counted(v1, v0, (t0 + [node])[|t0|..], product)
  {
    assert (t0 + [node])[|t0|..] == [node];
    forall n | n in v1 && n != product ensures v1[n] == v0[n] + Count([node], n) {
      assert Count([node], n) == Count([], n) + (if node == n then 1 else 0);
    }
  }

  /** The bookkeeping at the start of a visit of `node` is progress. */
  lemma FirstStep(a: Snapshot, b: Snapshot, node: string, product: string)
    requires b.name2info == a.name2info && b.order == a.order && b.trace == a.trace + [node]
    requires b.database == a.database && b.files == a.files && b.lifetime == a.lifetime
    requires b.visits.Keys == a.visits.Keys
    requires forall n :: n in b.visits && n != product ==> b.visits[n] == a.visits[n] + (if n == node then 1 else 0)
    requires product in a.visits ==> b.visits[product] == a.visits[product]
    requires forall n :: n in a.visited ==> n in b.visited
    ensures Progress(a, b, product)
  {
    CountedOne(a.visits, b.visits, a.trace, node, product);
  }

  /** The state of a search whose current call chain is `stack`: the
    * order so far is sound, and the visited nodes are those of the order
    * and those whose visit is still under way. */
  ghost predicate SearchState(s: Snapshot, stack: seq<string>)
  {
    && Ordered(s.order, s.name2info) && Distinct(s.order) && Distinct(stack)
    && s.visits.Keys == s.name2info.Keys
    && (forall n :: n in s.visited <==> n in s.order || n in stack)
    && (forall n :: n in stack ==> n in s.name2info && n !in s.order)
  }

  /** Recounting a visit changes nothing the search state is about. */
  lemma SearchKept(a: Snapshot, b: Snapshot, stack: seq<string>)
    requires SearchState(a, stack)
    requires b.name2info == a.name2info && b.order == a.order && b.visited == a.visited
    requires b.visits.Keys == a.visits.Keys
    ensures SearchState(b, stack)
  {
  }

  /** A known node first reached, and not on the chain, is marked visited
    * and pushed on the chain. */
  lemma SearchEnter(a: Snapshot, b: Snapshot, stack: seq<string>, node: string)
    requires SearchState(a, stack) && node !in stack && node !in a.visited && node in a.name2info
    requires b.name2info == a.name2info && b.order == a.order && b.visited == a.visited + [node]
    requires b.visits.Keys == a.visits.Keys
    ensures SearchState(b, stack + [node])
  {
    var chain := stack + [node];
    forall i, j | 0 <= i < j < |chain| ensures chain[i] != chain[j] {
      if j == |stack| {
        assert chain[i] == stack[i];
      }
    }
  }

  /** Counts over two successive stretches of the trace add up. */
  lemma CountedThrough(v0: map<string, nat>, v1: map<string, nat>, v2: map<string, nat>,
                       t0: seq<string>, t1: seq<string>, t2: seq<string>, product: string)
    requires t0 <= t1 <= t2 && v1.Keys == v2.Keys
    requires Counted(v1, v0, t1[|t0|..], product) && Counted(v2, v1, t2[|t1|..], product)
    ensures Counted(v2, v0, t2[|t0|..], product)
  {
    assert t2[|t0|..] == t1[|t0|..] + t2[|t1|..];
    forall n | n in v2 && n != product ensures n in v0 && v2[n] == v0[n] + Count(t2[|t0|..], n) {
      CountConcat(t1[|t0|..], t2[|t1|..], n);
    }
  }
}
