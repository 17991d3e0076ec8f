/** The priority dictionary the shortest-path search keeps its estimates
  * in, reduced to what the search uses: path lengths with `inf`, and
  * taking out some entry of least estimate. */
module PriorityDict {
  /** A path length: a finite real or numpy's `inf`. */
  datatype Dist = Fin(v: real) | Inf

  function Add(a: Dist, b: Dist): (c: Dist)
    ensures c.Inf? <==> a.Inf? || b.Inf?
    ensures c.Fin? ==> c.v == a.v + b.v
  {
    if a.Fin? && b.Fin? then Fin(a.v + b.v) else Inf
  }

  /** `a < b` on floats with `inf`: nothing is below a finite value except
    * a smaller finite value, and `inf < inf` is false. */
  predicate Less(a: Dist, b: Dist)
  {
    a.Fin? && (b.Inf? || a.v < b.v)
  }

  predicate AtMost(a: Dist, b: Dist)
  {
    !Less(b, a)
  }

  /** A non-empty key set has a member. */
  lemma SomeKey(keys: set<int>)
    requires keys != {}
    ensures exists k :: k in keys
  {
    if forall k :: k !in keys {
      assert false;
    }
  }

  /** The queue's extract-min: some key of least estimate. */
  method ExtractMin(q: map<int, Dist>) returns (v: int)
    requires q != map[]
    ensures v in q && forall u :: u in q ==> AtMost(q[v], q[u])
  {
    var keys := q.Keys;
    SomeKey(keys);
    v :| v in keys;
    keys := keys - {v};
    while keys != {}
      invariant v in q && keys <= q.Keys
      invariant forall u :: u in q && u !in keys ==> AtMost(q[v], q[u])
      decreases |keys|
    {
      SomeKey(keys);
      var u :| u in keys;
      if Less(q[u], q[v]) {
        v := u;
      }
      keys := keys - {u};
    }
  }

}
