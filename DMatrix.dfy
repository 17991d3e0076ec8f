/** Dijkstra's search over a CSR matrix whose stored values are edge
  * lengths, and the shortest path it yields. The priority dictionary of
  * the source is an abstract queue from which some entry of least estimate
  * is taken. */
module DMatrix {
  import opened Wrappers
  import opened Csr
  import opened PriorityDict

  /** No stored length is negative. */
  ghost predicate NonNegative(data: seq<Dist>)
  {
    forall p :: 0 <= p < |data| ==> AtMost(Fin(0.0), data[p])
  }

  /** Position p stores the edge from u to w. */
  ghost predicate Step(indptr: seq<int>, indices: seq<int>, u: int, w: int, p: int)
  {
    0 <= u < |indptr| - 1 && indptr[u] <= p < indptr[u + 1] && 0 <= p < |indices| && indices[p] == w
  }

  /** Every stored edge out of a node of s ends in s. */
  ghost predicate ClosedSet(n: nat, indptr: seq<int>, indices: seq<int>, s: set<int>)
    requires Shaped(n, indptr, indices)
  {
    forall u, p :: u in s && 0 <= u < n && indptr[u] <= p < indptr[u + 1] ==> indices[p] in s
  }

  /** w lies in every edge-closed set that holds the start: it is reached
    * from the start along stored edges. */
  ghost predicate Reachable(n: nat, indptr: seq<int>, indices: seq<int>, start: int, w: int)
    requires Shaped(n, indptr, indices)
  {
    forall s: set<int> {:trigger ClosedSet(n, indptr, indices, s)} ::
      start in s && ClosedSet(n, indptr, indices, s) ==> w in s
  }

  /** What the search has finalized: the start at distance 0, and every
    * other final node reached from a node finalized before it (`rank` is
    * the order of finalization) along the stored edge `via[w]`, its
    * distance being that node's distance plus the edge length. */
  ghost predicate Tree(n: nat, indptr: seq<int>, indices: seq<int>, data: seq<Dist>, start: nat,
                       d: map<int, Dist>, pred: map<int, int>, rank: map<int, nat>, via: map<int, int>)
  {
    && start in d && d[start] == Fin(0.0) && start !in pred
    && (forall w :: w in d ==> 0 <= w < n && w in rank)
    && forall w :: w in d && w != start ==>
         && w in pred && w in via && pred[w] in d && rank[pred[w]] < rank[w]
         && Step(indptr, indices, pred[w], w, via[w]) && via[w] < |data|
         && d[w] == Add(d[pred[w]], data[via[w]])
  }

  /** The estimates still queued: each, except the start's initial 0, is
    * the final distance of its tentative predecessor plus an edge. */
  ghost predicate Tentative(n: nat, indptr: seq<int>, indices: seq<int>, data: seq<Dist>, start: nat,
                            d: map<int, Dist>, q: map<int, Dist>, pred: map<int, int>, via: map<int, int>)
  {
    && (forall w :: w in q ==> 0 <= w < n && w !in d)
    && (forall w :: w in pred ==> w in d || w in q)
    && forall w :: w in q && w != start ==>
         && w in pred && w in via && pred[w] in d
         && Step(indptr, indices, pred[w], w, via[w]) && via[w] < |data|
         && q[w] == Add(d[pred[w]], data[via[w]])
  }

  /** Every stored edge out of a final node ends at a final or a queued
    * node. */
  ghost predicate Frontier(n: nat, indptr: seq<int>, indices: seq<int>, d: map<int, Dist>, q: map<int, Dist>)
    requires Shaped(n, indptr, indices)
  {
    forall u, p :: u in d && 0 <= u < n && indptr[u] <= p < indptr[u + 1] ==> indices[p] in d || indices[p] in q
  }

  /** No stored edge out of a final node offers a shorter way to its end:
    * a final or queued node is no farther than any final node plus the
    * length of an edge from it. */
  ghost predicate Relaxed(n: nat, indptr: seq<int>, indices: seq<int>, data: seq<Dist>,
                          d: map<int, Dist>, q: map<int, Dist>)
    requires Shaped(n, indptr, indices)
  {
    forall u, p :: u in d && 0 <= u < n && indptr[u] <= p < indptr[u + 1] && p < |data| ==>
      && (indices[p] in d ==> AtMost(d[indices[p]], Add(d[u], data[p])))
      && (indices[p] in q ==> AtMost(q[indices[p]], Add(d[u], data[p])))
  }

  /** The state at the head of the search loop: nothing final yet and the
    * start queued, or a tree of final nodes ranked below `count`, with the
    * queue and the frontier bookkeeping. */
  ghost predicate Searching(n: nat, indptr: seq<int>, indices: seq<int>, data: seq<Dist>, start: nat,
                            d: map<int, Dist>, q: map<int, Dist>, pred: map<int, int>, rank: map<int, nat>,
                            via: map<int, int>, count: nat)
    requires Shaped(n, indptr, indices)
  {
    && (d == map[] ==> q == map[start := Fin(0.0)] && pred == map[])
    && (start in d || start in q)
    && (d != map[] ==> Tree(n, indptr, indices, data, start, d, pred, rank, via))
    && Tentative(n, indptr, indices, data, start, d, q, pred, via)
    && (forall w :: w in d ==> w in rank && rank[w] < count)
    && Frontier(n, indptr, indices, d, q)
    && (NonNegative(data) ==> Ordered(d, q, rank))
  }

  /** With non-negative lengths, nodes are finalized in order of distance
    * and no queued estimate is below a final distance. */
  ghost predicate Ordered(d: map<int, Dist>, q: map<int, Dist>, rank: map<int, nat>)
  {
    && (forall u, w :: u in d && w in q ==> AtMost(d[u], q[w]))
    && (forall u, w :: u in d && w in d && u in rank && w in rank && rank[u] < rank[w] ==> AtMost(d[u], d[w]))
  }

  /** The node numbers of an n-node matrix. */
  ghost function Nodes(n: nat): (s: set<int>)
    ensures forall i :: i in s <==> 0 <= i < n
  {
    if n == 0 then {} else Nodes(n - 1) + {n - 1}
  }

  /** What relaxing the out-edges of the final node v leaves: no edge out
    * of v shortens a final distance, each
    * unfinished successor queued no higher than the path through v, no
    * queued estimate raised, every queued entry either kept with its
    * predecessor or set to a path through v, and nothing else changed. */
  ghost predicate RelaxedFrom(n: nat, indptr: seq<int>, indices: seq<int>, data: seq<Dist>, v: nat,
                              d: map<int, Dist>, q: map<int, Dist>, pred: map<int, int>, via: map<int, int>,
                              q': map<int, Dist>, pred': map<int, int>, via': map<int, int>)
    requires Shaped(n, indptr, indices) && |data| == |indices| && v < n && v in d
  {
    && (forall p :: indptr[v] <= p < indptr[v + 1] && indices[p] in d ==>
          AtMost(d[indices[p]], Add(d[v], data[p])))
    && (forall p :: indptr[v] <= p < indptr[v + 1] && indices[p] !in d ==>
          indices[p] in q' && AtMost(q'[indices[p]], Add(d[v], data[p])))
    && (forall w :: w in q ==> w in q' && AtMost(q'[w], q[w]))
    && (forall w :: w in q' ==>
          && w !in d
          && ((w in q && q'[w] == q[w] && (w in pred <==> w in pred') && (w in pred ==> pred'[w] == pred[w])
               && (w in via ==> w in via' && via'[w] == via[w]))
              || (w in pred' && pred'[w] == v && w in via' && Step(indptr, indices, v, w, via'[w])
                  && q'[w] == Add(d[v], data[via'[w]]))))
    && (forall w :: w !in q' ==> (w in pred' <==> w in pred) && (w in pred ==> pred'[w] == pred[w])
                                 && (w in via ==> w in via' && via'[w] == via[w]))
  }

  /** The inner loop of `dijkstra`: relaxes every stored edge out of the
    * node v just finalized. An edge into a final node that would shorten
    * its distance is an error; otherwise an edge to a node not yet queued,
    * or one that improves its estimate, sets the estimate and the
    * predecessor. */
  method Relax(n: nat, indptr: seq<int>, indices: seq<int>, data: seq<Dist>, v: nat,
               d: map<int, Dist>, q: map<int, Dist>, pred: map<int, int>, ghost via: map<int, int>)
    returns (failed: bool, q': map<int, Dist>, pred': map<int, int>, ghost via': map<int, int>)
    requires Shaped(n, indptr, indices) && |data| == |indices| && v < n && v in d && v !in q
    requires forall w :: w in q ==> w !in d
    ensures failed ==> exists p :: indptr[v] <= p < indptr[v + 1] && indices[p] in d
                                   && Less(Add(d[v], data[p]), d[indices[p]])
    ensures NonNegative(data) && (forall u :: u in d ==> AtMost(d[u], d[v])) ==> !failed
    ensures !failed ==> RelaxedFrom(n, indptr, indices, data, v, d, q, pred, via, q', pred', via')
  {
    failed, q', pred', via' := false, q, pred, via;
    for p := indptr[v] to indptr[v + 1]
      invariant forall r :: indptr[v] <= r < p && indices[r] !in d ==>
                  indices[r] in q' && AtMost(q'[indices[r]], Add(d[v], data[r]))
      invariant forall r :: indptr[v] <= r < p && indices[r] in d ==> AtMost(d[indices[r]], Add(d[v], data[r]))
      invariant forall w :: w in q ==> w in q' && AtMost(q'[w], q[w])
      invariant forall w :: w in q' ==>
                  && w !in d
                  && ((w in q && q'[w] == q[w] && (w in pred <==> w in pred') && (w in pred ==> pred'[w] == pred[w])
                       && (w in via ==> w in via' && via'[w] == via[w]))
                      || (w in pred' && pred'[w] == v && w in via' && Step(indptr, indices, v, w, via'[w])
                          && q'[w] == Add(d[v], data[via'[w]])))
      invariant forall w :: w !in q' ==> (w in pred' <==> w in pred) && (w in pred ==> pred'[w] == pred[w])
                                         && (w in via ==> w in via' && via'[w] == via[w])
    {
      var w := indices[p];
      var length := Add(d[v], data[p]);
      if w in d {
        if Less(length, d[w]) {
          return true, q', pred', via';
        }
      } else if w !in q' || Less(length, q'[w]) {
        q' := q'[w := length];
        pred' := pred'[w := v];
        via' := via'[w := p];
      }
    }
  }

  /** `dijkstra(LM, start, end)`: the final distances and the predecessors
    * of the search from start, stopping once end is final. A start outside
    * the matrix fails on its row lookup unless it is the end itself. */
  method Dijkstra(n: nat, indptr: seq<int>, indices: seq<int>, data: seq<Dist>, start: nat, end: Option<nat>)
    returns (r: Result<(map<int, Dist>, map<int, int>)>, ghost rank: map<int, nat>, ghost via: map<int, int>)
    requires Shaped(n, indptr, indices) && |data| == |indices|
    ensures start >= n ==> (r.Ok? <==> end == Some(start))
    ensures start >= n && r.Ok? ==> r.value == (map[start := Fin(0.0)], map[])
    ensures start < n && NonNegative(data) ==> r.Ok?
    ensures start < n && r.Ok? ==> Outcome(n, indptr, indices, data, start, end, r.value.0, r.value.1, rank, via)
    ensures r.Err? ==> r.error == (if start >= n then "IndexError" else "ValueError")
  {
    if start >= n {
      if end == Some(start) {
        return Ok((map[start := Fin(0.0)], map[])), map[], map[];
      }
      return Err("IndexError"), map[], map[];
    }
    var d: map<int, Dist> := map[];
    var pred: map<int, int> := map[];
    var q: map<int, Dist> := map[start := Fin(0.0)];
    rank, via := map[], map[];
    ghost var count: nat := 0;
    ghost var all := Nodes(n);
    while q != map[]
      invariant Searching(n, indptr, indices, data, start, d, q, pred, rank, via, count)
      invariant Relaxed(n, indptr, indices, data, d, q)
      invariant end.None? || end.value !in d
      invariant d.Keys <= all
      decreases all - d.Keys
    {
      var stop, failed;
      stop, failed, d, q, pred, rank, via := Settle(n, indptr, indices, data, start, end, d, q, pred, rank, via, count);
      count := count + 1;
      if stop {
        return Ok((d, pred)), rank, via;
      }
      if failed {
        return Err("ValueError"), rank, via;
      }
    }
    Exhausted(n, indptr, indices, data, start, end, d, q, pred, rank, via, count);
    return Ok((d, pred)), rank, via;
  }

  /** One pass of the search loop: the least queued node v becomes final
    * at rank `count`; the search stops there if v is the end, and
    * otherwise relaxes the out-edges of v. */
  method Settle(n: nat, indptr: seq<int>, indices: seq<int>, data: seq<Dist>, start: nat, end: Option<nat>,
                d: map<int, Dist>, q: map<int, Dist>, pred: map<int, int>,
                ghost rank: map<int, nat>, ghost via: map<int, int>, ghost count: nat)
    returns (stop: bool, failed: bool, d': map<int, Dist>, q': map<int, Dist>, pred': map<int, int>,
             ghost rank': map<int, nat>, ghost via': map<int, int>)
    requires Shaped(n, indptr, indices) && |data| == |indices| && start < n && q != map[]
    requires Searching(n, indptr, indices, data, start, d, q, pred, rank, via, count)
    requires Relaxed(n, indptr, indices, data, d, q)
    requires end.None? || end.value !in d
    ensures d.Keys < d'.Keys <= Nodes(n)
    ensures stop ==> !failed && Outcome(n, indptr, indices, data, start, end, d', pred', rank', via')
    ensures failed ==> !NonNegative(data)
    ensures !stop && !failed ==>
              && Searching(n, indptr, indices, data, start, d', q', pred', rank', via', count + 1)
              && Relaxed(n, indptr, indices, data, d', q')
              && (end.None? || end.value !in d')
  {
    var v := ExtractMin(q);
    LeastFinal(n, indptr, indices, data, start, d, q, pred, rank, via, v, count);
    d', rank' := d[v := q[v]], rank[v := count];
    assert v !in d && v in d';
    if end == Some(v) {
      StoppedAtEnd(n, indptr, indices, data, start, end, d, q, pred, rank, via, v, count);
      return true, false, d', q - {v}, pred, rank', via;
    }
    stop := false;
    failed, q', pred', via' := Relax(n, indptr, indices, data, v, d', q - {v}, pred, via);
    if !failed {
      RelaxStep(n, indptr, indices, data, start, d, q, pred, rank, via, v, count, q', pred', via');
      RelaxRelaxed(n, indptr, indices, data, d, q, pred, via, v, q', pred', via');
    }
  }

  /** Moving the least queued node v into the final map keeps the tree,
    * the queue bookkeeping and, with non-negative lengths, the order. */
  lemma FinalizeStep(n: nat, indptr: seq<int>, indices: seq<int>, data: seq<Dist>, start: nat,
                     d: map<int, Dist>, q: map<int, Dist>, pred: map<int, int>, rank: map<int, nat>,
                     via: map<int, int>, v: int, count: nat)
    requires Shaped(n, indptr, indices) && |data| == |indices| && start < n
    requires Searching(n, indptr, indices, data, start, d, q, pred, rank, via, count)
    requires v in q && forall u :: u in q ==> AtMost(q[v], q[u])
    ensures 0 <= v < n && v !in d
    ensures Tree(n, indptr, indices, data, start, d[v := q[v]], pred, rank[v := count], via)
    ensures Tentative(n, indptr, indices, data, start, d[v := q[v]], q - {v}, pred, via)
    ensures NonNegative(data) ==> Ordered(d[v := q[v]], q - {v}, rank[v := count])
    ensures NonNegative(data) ==> forall u :: u in d ==> AtMost(d[u], q[v])
  {
    if d == map[] {
      assert v == start;
    } else {
      assert start in d && v != start;
    }
    if NonNegative(data) {
      FinalizeOrdered(d, q, rank, v, count);
    }
  }

  /** Finalizing the least queued node at rank `count`, above every rank
    * so far, keeps the finalization order. */
  lemma FinalizeOrdered(d: map<int, Dist>, q: map<int, Dist>, rank: map<int, nat>, v: int, count: nat)
    requires Ordered(d, q, rank) && v in q && v !in d
    requires forall u :: u in q ==> AtMost(q[v], q[u])
    requires forall w :: w in d ==> w in rank && rank[w] < count
    ensures Ordered(d[v := q[v]], q - {v}, rank[v := count])
  {
    var d', q', rank' := d[v := q[v]], q - {v}, rank[v := count];
    forall u, w | u in d' && w in q' ensures AtMost(d'[u], q'[w]) {
      if u != v {
        assert d'[u] == d[u] && q'[w] == q[w];
      }
    }
    forall u, w | u in d' && w in d' && u in rank' && w in rank' && rank'[u] < rank'[w]
      ensures AtMost(d'[u], d'[w])
    {
      if w == v {
        assert AtMost(d[u], q[v]);
      } else if u != v {
        assert rank'[u] == rank[u] && rank'[w] == rank[w];
      }
    }
  }

  /** What a successful search returns: the tree of final nodes, each
    * reachable from the start; the end, once final, is the last node
    * finalized; a search that did not stop at the end has finalized
    * exactly the reachable nodes, recorded predecessors for final nodes
    * only and left no edge that shortens a final distance; with non-negative lengths, nodes were finalized in order of
    * distance. */
  ghost predicate Outcome(n: nat, indptr: seq<int>, indices: seq<int>, data: seq<Dist>, start: nat, end: Option<nat>,
                          d: map<int, Dist>, pred: map<int, int>, rank: map<int, nat>, via: map<int, int>)
    requires Shaped(n, indptr, indices)
  {
    && Tree(n, indptr, indices, data, start, d, pred, rank, via)
    && (forall w :: w in d ==> Reachable(n, indptr, indices, start, w))
    && (end.Some? && end.value in d ==> forall w :: w in d ==> rank[w] <= rank[end.value])
    && (end.None? || end.value !in d ==>
          && pred.Keys <= d.Keys && ClosedSet(n, indptr, indices, d.Keys)
          && Relaxed(n, indptr, indices, data, d, map[])
          && forall w :: Reachable(n, indptr, indices, start, w) ==> w in d)
    && (NonNegative(data) ==> Ordered(d, map[], rank))
  }

  /** A search that ran until the queue emptied has an edge-closed final
    * set, which is then exactly the set of reachable nodes. */
  lemma Exhausted(n: nat, indptr: seq<int>, indices: seq<int>, data: seq<Dist>, start: nat, end: Option<nat>,
                  d: map<int, Dist>, q: map<int, Dist>, pred: map<int, int>, rank: map<int, nat>,
                  via: map<int, int>, count: nat)
    requires Shaped(n, indptr, indices) && start < n
    requires Searching(n, indptr, indices, data, start, d, q, pred, rank, via, count) && q == map[]
    requires Relaxed(n, indptr, indices, data, d, q)
    requires end.None? || end.value !in d
    ensures Outcome(n, indptr, indices, data, start, end, d, pred, rank, via)
  {
    forall w | w in pred ensures w in d {
      assert w !in q;
    }
    assert start in d;
    ClosedExcludes(n, indptr, indices, start, d.Keys);
    FinalReachable(n, indptr, indices, data, start, d, pred, rank, via);
  }

  /** A search that stops on finalizing the end v returns a tree in which
    * v was finalized last. */
  lemma StoppedAtEnd(n: nat, indptr: seq<int>, indices: seq<int>, data: seq<Dist>, start: nat, end: Option<nat>,
                     d: map<int, Dist>, q: map<int, Dist>, pred: map<int, int>, rank: map<int, nat>,
                     via: map<int, int>, v: int, count: nat)
    requires Shaped(n, indptr, indices) && |data| == |indices| && start < n
    requires Searching(n, indptr, indices, data, start, d, q, pred, rank, via, count)
    requires v in q && (forall u :: u in q ==> AtMost(q[v], q[u])) && end == Some(v)
    ensures Outcome(n, indptr, indices, data, start, end, d[v := q[v]], pred, rank[v := count], via)
  {
    FinalizeStep(n, indptr, indices, data, start, d, q, pred, rank, via, v, count);
    FinalReachable(n, indptr, indices, data, start, d[v := q[v]], pred, rank[v := count], via);
  }

  /** One round of the search loop, from the head state through
    * finalizing v and relaxing its out-edges, back to the head state. */
  lemma RelaxStep(n: nat, indptr: seq<int>, indices: seq<int>, data: seq<Dist>, start: nat,
                  d: map<int, Dist>, q: map<int, Dist>, pred: map<int, int>, rank: map<int, nat>,
                  via: map<int, int>, v: nat, count: nat, q': map<int, Dist>, pred': map<int, int>, via': map<int, int>)
    requires Shaped(n, indptr, indices) && |data| == |indices| && start < n && v < n && v in q && v !in d
    requires Searching(n, indptr, indices, data, start, d, q, pred, rank, via, count)
    requires forall u :: u in q ==> AtMost(q[v], q[u])
    requires RelaxedFrom(n, indptr, indices, data, v, d[v := q[v]], q - {v}, pred, via, q', pred', via')
    ensures Searching(n, indptr, indices, data, start, d[v := q[v]], q', pred', rank[v := count], via', count + 1)
  {
    FinalizeStep(n, indptr, indices, data, start, d, q, pred, rank, via, v, count);
    var d1, q1, rank1 := d[v := q[v]], q - {v}, rank[v := count];
    RelaxTree(n, indptr, indices, data, start, d1, q1, pred, rank1, via, v, q', pred', via');
    if NonNegative(data) {
      RelaxOrdered(n, indptr, indices, data, start, d1, q1, pred, rank1, via, v, q', pred', via');
    }
    FrontierStep(n, indptr, indices, d, q, v, q[v], q');
  }

  /** After finalizing v and relaxing its out-edges, every final node,
    * v included, has relaxed edges again. */
  lemma RelaxRelaxed(n: nat, indptr: seq<int>, indices: seq<int>, data: seq<Dist>,
                     d: map<int, Dist>, q: map<int, Dist>, pred: map<int, int>, via: map<int, int>,
                     v: nat, q': map<int, Dist>, pred': map<int, int>, via': map<int, int>)
    requires Shaped(n, indptr, indices) && |data| == |indices| && v < n && v in q && v !in d
    requires Frontier(n, indptr, indices, d, q) && Relaxed(n, indptr, indices, data, d, q)
    requires RelaxedFrom(n, indptr, indices, data, v, d[v := q[v]], q - {v}, pred, via, q', pred', via')
    ensures Relaxed(n, indptr, indices, data, d[v := q[v]], q')
  {
    var d1, q1 := d[v := q[v]], q - {v};
    forall u, p | u in d1 && 0 <= u < n && indptr[u] <= p < indptr[u + 1] && p < |data|
      ensures indices[p] in d1 ==> AtMost(d1[indices[p]], Add(d1[u], data[p]))
      ensures indices[p] in q' ==> AtMost(q'[indices[p]], Add(d1[u], data[p]))
    {
      var w := indices[p];
      if u != v {
        assert d1[u] == d[u];
        if w in q' {
          assert w in q && w != v;
          assert AtMost(q'[w], q1[w]);
        }
      }
    }
  }

  /** Finalizing v and queueing its unfinished successors keeps every
    * out-edge of a final node inside the final and queued nodes. */
  lemma FrontierStep(n: nat, indptr: seq<int>, indices: seq<int>, d: map<int, Dist>, q: map<int, Dist>,
                     v: int, x: Dist, q': map<int, Dist>)
    requires Shaped(n, indptr, indices) && v in q && 0 <= v < n
    requires Frontier(n, indptr, indices, d, q)
    requires forall w :: w in q && w != v ==> w in q'
    requires forall p :: indptr[v] <= p < indptr[v + 1] && indices[p] !in d[v := x] ==> indices[p] in q'
    ensures Frontier(n, indptr, indices, d[v := x], q')
  {
  }

  /** The least queued node is a node of the matrix not yet final, and
    * with non-negative lengths no final distance exceeds its estimate. */
  lemma LeastFinal(n: nat, indptr: seq<int>, indices: seq<int>, data: seq<Dist>, start: nat,
                   d: map<int, Dist>, q: map<int, Dist>, pred: map<int, int>, rank: map<int, nat>,
                   via: map<int, int>, v: int, count: nat)
    requires Shaped(n, indptr, indices) && |data| == |indices| && start < n
    requires Searching(n, indptr, indices, data, start, d, q, pred, rank, via, count)
    requires v in q && forall u :: u in q ==> AtMost(q[v], q[u])
    ensures 0 <= v < n && v !in d && forall w :: w in q ==> w !in d
    ensures NonNegative(data) ==> forall u :: u in d ==> AtMost(d[u], q[v])
  {
  }

  /** Relaxing the edges out of v keeps the tree and the queue
    * bookkeeping: only queued entries gained a predecessor. */
  lemma RelaxTree(n: nat, indptr: seq<int>, indices: seq<int>, data: seq<Dist>, start: nat,
                  d: map<int, Dist>, q: map<int, Dist>, pred: map<int, int>, rank: map<int, nat>,
                  via: map<int, int>, v: nat, q': map<int, Dist>, pred': map<int, int>, via': map<int, int>)
    requires Shaped(n, indptr, indices) && |data| == |indices| && v < n && v in d
    requires Tree(n, indptr, indices, data, start, d, pred, rank, via)
    requires Tentative(n, indptr, indices, data, start, d, q, pred, via)
    requires NonNegative(data) ==> Ordered(d, q, rank) && forall u :: u in d ==> AtMost(d[u], d[v])
    requires RelaxedFrom(n, indptr, indices, data, v, d, q, pred, via, q', pred', via')
    ensures Tree(n, indptr, indices, data, start, d, pred', rank, via')
    ensures Tentative(n, indptr, indices, data, start, d, q', pred', via')
  {
    forall w | w in d && w != start
      ensures w in pred' && w in via' && pred'[w] == pred[w] && via'[w] == via[w]
    {
      assert w !in q';
    }
  }

  /** With non-negative lengths, relaxing the edges out of the latest
    * final node v keeps every queued estimate above every final distance. */
  lemma RelaxOrdered(n: nat, indptr: seq<int>, indices: seq<int>, data: seq<Dist>, start: nat,
                  d: map<int, Dist>, q: map<int, Dist>, pred: map<int, int>, rank: map<int, nat>,
                  via: map<int, int>, v: nat, q': map<int, Dist>, pred': map<int, int>, via': map<int, int>)
    requires Shaped(n, indptr, indices) && |data| == |indices| && v < n && v in d
    requires Tree(n, indptr, indices, data, start, d, pred, rank, via)
    requires Tentative(n, indptr, indices, data, start, d, q, pred, via)
    requires NonNegative(data) ==> Ordered(d, q, rank) && forall u :: u in d ==> AtMost(d[u], d[v])
    requires RelaxedFrom(n, indptr, indices, data, v, d, q, pred, via, q', pred', via')
    requires NonNegative(data)
    ensures Ordered(d, q', rank)
  {
    forall u, w | u in d && w in q' ensures AtMost(d[u], q'[w]) {
      if !(w in q && q'[w] == q[w]) {
        assert AtMost(Fin(0.0), data[via'[w]]);
      }
    }
  }

  /** Every final node lies in each edge-closed set holding the start:
    * follow its predecessors back to the start. */
  lemma {:induction false} FinalInClosed(n: nat, indptr: seq<int>, indices: seq<int>, data: seq<Dist>, start: nat,
                                         d: map<int, Dist>, pred: map<int, int>, rank: map<int, nat>,
                                         via: map<int, int>, s: set<int>, w: int)
    requires Shaped(n, indptr, indices) && Tree(n, indptr, indices, data, start, d, pred, rank, via)
    requires start in s && ClosedSet(n, indptr, indices, s) && w in d
    ensures w in s
    decreases rank[w]
  {
    if w != start {
      FinalInClosed(n, indptr, indices, data, start, d, pred, rank, via, s, pred[w]);
      assert indices[via[w]] == w;
    }
  }

  /** Every final node is reachable from the start. */
  lemma FinalReachable(n: nat, indptr: seq<int>, indices: seq<int>, data: seq<Dist>, start: nat,
                       d: map<int, Dist>, pred: map<int, int>, rank: map<int, nat>, via: map<int, int>)
    requires Shaped(n, indptr, indices) && Tree(n, indptr, indices, data, start, d, pred, rank, via)
    ensures forall w :: w in d ==> Reachable(n, indptr, indices, start, w)
  {
    forall w, s | w in d && start in s && ClosedSet(n, indptr, indices, s)
      ensures w in s
    {
      FinalInClosed(n, indptr, indices, data, start, d, pred, rank, via, s, w);
    }
  }

  /** Nothing outside an edge-closed set holding the start is reachable. */
  lemma ClosedExcludes(n: nat, indptr: seq<int>, indices: seq<int>, start: int, s: set<int>)
    requires Shaped(n, indptr, indices) && start in s && ClosedSet(n, indptr, indices, s)
    ensures forall w :: Reachable(n, indptr, indices, start, w) ==> w in s
  {
  }

  /** Every stored edge of finite length out of a node of s ends in s. */
  ghost predicate FinClosed(n: nat, indptr: seq<int>, indices: seq<int>, data: seq<Dist>, s: set<int>)
    requires Shaped(n, indptr, indices)
  {
    forall u, p :: u in s && 0 <= u < n && indptr[u] <= p < indptr[u + 1] && p < |data| && data[p].Fin? ==>
      indices[p] in s
  }

  /** w is reached from the start along stored edges of finite length. */
  ghost predicate FinReachable(n: nat, indptr: seq<int>, indices: seq<int>, data: seq<Dist>, start: int, w: int)
    requires Shaped(n, indptr, indices)
  {
    forall s: set<int> {:trigger FinClosed(n, indptr, indices, data, s)} ::
      start in s && FinClosed(n, indptr, indices, data, s) ==> w in s
  }

  /** A search that ran to exhaustion gives a node a finite distance
    * exactly when it is reached along edges of finite length. */
  lemma FiniteDistances(n: nat, indptr: seq<int>, indices: seq<int>, data: seq<Dist>, start: nat,
                        d: map<int, Dist>, pred: map<int, int>, rank: map<int, nat>, via: map<int, int>)
    requires Shaped(n, indptr, indices) && |data| == |indices|
    requires Outcome(n, indptr, indices, data, start, None, d, pred, rank, via)
    ensures forall w :: FinReachable(n, indptr, indices, data, start, w) <==> w in d && d[w].Fin?
  {
    var fin := set w | w in d && d[w].Fin?;
    assert FinClosed(n, indptr, indices, data, fin);
    forall w | w in d && d[w].Fin? ensures FinReachable(n, indptr, indices, data, start, w) {
      forall s | start in s && FinClosed(n, indptr, indices, data, s) ensures w in s {
        FiniteInClosed(n, indptr, indices, data, start, d, pred, rank, via, s, w);
      }
    }
  }

  /** A final node at finite distance lies in each set holding the start
    * that is closed under edges of finite length. */
  lemma {:induction false} FiniteInClosed(n: nat, indptr: seq<int>, indices: seq<int>, data: seq<Dist>, start: nat,
                                          d: map<int, Dist>, pred: map<int, int>, rank: map<int, nat>,
                                          via: map<int, int>, s: set<int>, w: int)
    requires Shaped(n, indptr, indices) && Tree(n, indptr, indices, data, start, d, pred, rank, via)
    requires start in s && FinClosed(n, indptr, indices, data, s) && w in d && d[w].Fin?
    ensures w in s
    decreases rank[w]
  {
    if w != start {
      FiniteInClosed(n, indptr, indices, data, start, d, pred, rank, via, s, pred[w]);
      assert indices[via[w]] == w && data[via[w]].Fin?;
    }
  }

  /** With non-negative lengths, no final distance is negative. */
  lemma {:induction false} DistancesNonNegative(n: nat, indptr: seq<int>, indices: seq<int>, data: seq<Dist>,
                                                start: nat, d: map<int, Dist>, pred: map<int, int>,
                                                rank: map<int, nat>, via: map<int, int>, w: int)
    requires Tree(n, indptr, indices, data, start, d, pred, rank, via) && NonNegative(data)
    requires w in d && d[w].Fin?
    ensures d[w].v >= 0.0
    decreases rank[w]
  {
    if w != start {
      DistancesNonNegative(n, indptr, indices, data, start, d, pred, rank, via, pred[w]);
    }
  }

  /** The matrix stores an edge from u to w. */
  ghost predicate Edge(indptr: seq<int>, indices: seq<int>, u: int, w: int)
  {
    exists p :: Step(indptr, indices, u, w, p)
  }

  /** Consecutive nodes of the path are joined by stored edges. */
  ghost predicate Walk(indptr: seq<int>, indices: seq<int>, path: seq<int>)
  {
    forall i :: 0 <= i < |path| - 1 ==> Edge(indptr, indices, path[i], path[i + 1])
  }

  /** The end of a walk from the start is reachable from it. */
  lemma {:induction false} WalkReachable(n: nat, indptr: seq<int>, indices: seq<int>, path: seq<int>)
    requires Shaped(n, indptr, indices) && |path| > 0 && Walk(indptr, indices, path)
    ensures Reachable(n, indptr, indices, path[0], path[|path| - 1])
    decreases |path|
  {
    if |path| > 1 {
      var prefix := path[..|path| - 1];
      assert Walk(indptr, indices, prefix) by {
        forall i | 0 <= i < |prefix| - 1
          ensures Edge(indptr, indices, prefix[i], prefix[i + 1])
        {
          assert prefix[i] == path[i] && prefix[i + 1] == path[i + 1];
        }
      }
      WalkReachable(n, indptr, indices, prefix);
      var k := |path| - 2;
      assert Edge(indptr, indices, path[k], path[k + 1]);
      var p :| Step(indptr, indices, path[k], path[k + 1], p);
      forall s | path[0] in s && ClosedSet(n, indptr, indices, s)
        ensures path[k + 1] in s
      {
        assert prefix[0] == path[0] && prefix[|prefix| - 1] == path[k];
      }
    }
  }

  /** `shortest_path(LM, start, end)`: the nodes from start to end, read
    * backwards along the predecessors from the search that stops at end. */
  method ShortestPath(n: nat, indptr: seq<int>, indices: seq<int>, data: seq<Dist>, start: nat, end: nat)
    returns (r: Result<seq<int>>)
    requires Shaped(n, indptr, indices) && |data| == |indices|
    ensures r.Ok? ==> |r.value| > 0 && r.value[0] == start && r.value[|r.value| - 1] == end
    ensures r.Ok? ==> Walk(indptr, indices, r.value)
    ensures start < n && NonNegative(data) ==> (r.Ok? <==> Reachable(n, indptr, indices, start, end))
  {
    var res, rank, via := Dijkstra(n, indptr, indices, data, start, Some(end));
    if res.Err? {
      return Err(res.error);
    }
    var d, pred := res.value.0, res.value.1;
    ChainOf(n, indptr, indices, data, start, end, d, pred, rank, via);
    r := FollowPredecessors(indptr, indices, start, end, pred, rank, via, d.Keys);
    if r.Ok? && start < n {
      WalkReachable(n, indptr, indices, r.value);
    }
  }

  /** The predecessors of the final nodes `fin` lead back to the start
    * along stored edges, each to a node finalized earlier. */
  ghost predicate Chain(indptr: seq<int>, indices: seq<int>, start: int, pred: map<int, int>,
                        rank: map<int, nat>, via: map<int, int>, fin: set<int>)
  {
    && start in fin
    && forall w :: w in fin && w != start ==>
         && w in pred && pred[w] in fin && w in via && w in rank && pred[w] in rank
         && rank[pred[w]] < rank[w] && Step(indptr, indices, pred[w], w, via[w])
  }

  /** The search that stops at end leaves a predecessor chain over its
    * final nodes, and no predecessor for an end it did not finalize. */
  lemma ChainOf(n: nat, indptr: seq<int>, indices: seq<int>, data: seq<Dist>, start: nat, end: nat,
                d: map<int, Dist>, pred: map<int, int>, rank: map<int, nat>, via: map<int, int>)
    requires Shaped(n, indptr, indices)
    requires start < n ==> Outcome(n, indptr, indices, data, start, Some(end), d, pred, rank, via)
    requires start >= n ==> d == map[start := Fin(0.0)] && pred == map[]
    ensures Chain(indptr, indices, start, pred, rank, via, d.Keys)
    ensures end in d || end !in pred
  {
  }

  /** The loop of `shortest_path`: from end, step to the predecessor until
    * the start; a node without a predecessor is a missing key. */
  method FollowPredecessors(indptr: seq<int>, indices: seq<int>, start: int, end: int, pred: map<int, int>,
                            ghost rank: map<int, nat>, ghost via: map<int, int>, ghost fin: set<int>)
    returns (r: Result<seq<int>>)
    requires Chain(indptr, indices, start, pred, rank, via, fin)
    requires end in fin || end !in pred
    ensures r.Ok? <==> end in fin
    ensures r.Ok? ==> |r.value| > 0 && r.value[0] == start && r.value[|r.value| - 1] == end
    ensures r.Ok? ==> Walk(indptr, indices, r.value)
  {
    var path: seq<int> := [];
    var cur: int := end;
    while true
      invariant cur in fin || (path == [] && cur == end && cur !in pred)
      invariant path == [] ==> cur == end
      invariant path != [] ==> end in fin && path[|path| - 1] == end && path[0] in via
                               && Step(indptr, indices, cur, path[0], via[path[0]])
      invariant Walk(indptr, indices, path)
      decreases if cur in rank then rank[cur] + 1 else 0
    {
      WalkPrepend(indptr, indices, cur, path, if path == [] then 0 else via[path[0]]);
      path := [cur] + path;
      if cur == start {
        break;
      }
      if cur !in pred {
        return Err("KeyError");
      }
      cur := pred[cur];
    }
    return Ok(path);
  }

  /** A node with a stored edge into the head of a walk extends it. */
  lemma WalkPrepend(indptr: seq<int>, indices: seq<int>, u: int, path: seq<int>, p: int)
    requires Walk(indptr, indices, path)
    requires path != [] ==> Step(indptr, indices, u, path[0], p)
    ensures Walk(indptr, indices, [u] + path)
  {
    var path' := [u] + path;
    forall i | 0 <= i < |path'| - 1
      ensures Edge(indptr, indices, path'[i], path'[i + 1])
    {
      if i > 0 {
        assert path'[i] == path[i - 1] && path'[i + 1] == path[i];
      } else {
        assert Step(indptr, indices, path'[0], path'[1], p);
      }
    }
  }
}
