/** Building a dictionary from a list's positions, as the graphs and the
  * gene tables do with `dict((x, i) for i, x in enumerate(xs))`. */
module Indexing {
  import opened Wrappers

  /** Each element maps to its last position in the list: a later
    * duplicate overwrites the entry of an earlier one. */
  function Enumerated<T(!new)>(xs: seq<T>): (m: map<T, nat>)
    ensures forall x :: x in m <==> x in xs
    ensures forall x :: x in m ==> m[x] < |xs| && xs[m[x]] == x
    ensures forall x, k :: x in m && m[x] < k < |xs| ==> xs[k] != x
  {
    if xs == [] then map[]
    else
      var init := xs[..|xs| - 1];
      assert xs == init + [xs[|xs| - 1]];
      Enumerated(init)[xs[|xs| - 1] := |xs| - 1]
  }

  /** No element occurs twice. */
  predicate Distinct<T(==)>(xs: seq<T>)
  {
    forall i, j :: 0 <= i < j < |xs| ==> xs[i] != xs[j]
  }

  /** Without duplicates the dictionary inverts the list. */
  lemma EnumeratedInverts<T(!new)>(xs: seq<T>, i: nat)
    requires Distinct(xs) && i < |xs|
    ensures xs[i] in Enumerated(xs) && Enumerated(xs)[xs[i]] == i
  {
    var m := Enumerated(xs);
    assert xs[m[xs[i]]] == xs[i];
  }

  /** `m[k]` of a `defaultdict(set)`: the empty set when the key is absent. */
  function Lookup<K, V>(m: map<K, set<V>>, k: K): set<V>
  {
    if k in m then m[k] else {}
  }

  /** The position Python's `xs[i]` reads in a list of length `n`: a
    * negative index counts from the end; anything else is an IndexError. */
  function PyIndex(i: int, n: nat): (r: Option<nat>)
    ensures r.Some? <==> -(n as int) <= i < n
    ensures r.Some? ==> r.value < n && (0 <= i ==> r.value == i) && (i < 0 ==> r.value == i + n)
  {
    if 0 <= i < n then Some(i) else if -(n as int) <= i < 0 then Some(i + n) else None
  }

  /** Appending an element records its position, overwriting an earlier
    * one. */
  lemma EnumeratedSnoc<T(!new)>(xs: seq<T>, x: T)
    ensures Enumerated(xs + [x]) == Enumerated(xs)[x := |xs|]
  {
    assert (xs + [x])[..|xs|] == xs;
  }

  /** Entering the element at position `i` of a list as the loop over it
    * reaches it. */
  lemma EnumeratedNext<T(!new)>(xs: seq<T>, i: nat)
    requires i < |xs|
    ensures Enumerated(xs[..i])[xs[i] := i] == Enumerated(xs[..i + 1])
  {
    EnumeratedSnoc(xs[..i], xs[i]);
    assert xs[..i + 1] == xs[..i] + [xs[i]];
  }

  /** Iterating over a set: its elements once each, in an order the set
    * decides. */
  method Arrange<T(==)>(s: set<T>) returns (xs: seq<T>)
    ensures Distinct(xs) && |xs| == |s|
    ensures forall x :: x in xs <==> x in s
  {
    xs := [];
    var todo := s;
    while todo != {}
      invariant Distinct(xs) && |xs| + |todo| == |s|
      invariant todo <= s && forall x :: x in xs <==> x in s - todo
      decreases |todo|
    {
      var x :| x in todo;
      assert x !in xs;
      assert |todo - {x}| == |todo| - 1;
      xs := xs + [x];
      todo := todo - {x};
    }
  }
}
