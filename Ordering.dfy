/** Python's ordering of strings (code point by code point, a proper
  * prefix first) and `sorted` applied to a set of strings. */
module Ordering {

  /** `a < b` on Python strings. */
  predicate Less(a: string, b: string)
  {
    if a == [] then b != []
    else if b == [] then false
    else a[0] < b[0] || (a[0] == b[0] && Less(a[1..], b[1..]))
  }

  lemma {:induction false} LessIrreflexive(a: string)
    ensures !Less(a, a)
  {
    if a != [] {
      LessIrreflexive(a[1..]);
    }
  }

  lemma {:induction false} LessTotal(a: string, b: string)
    ensures a == b || Less(a, b) || Less(b, a)
  {
    if a != [] && b != [] && a[0] == b[0] {
      LessTotal(a[1..], b[1..]);
      if a[1..] == b[1..] {
        assert a == [a[0]] + a[1..] && b == [b[0]] + b[1..];
      }
    }
  }

  lemma {:induction false} LessAsymmetric(a: string, b: string)
    ensures !(Less(a, b) && Less(b, a))
  {
    if a != [] && b != [] && a[0] == b[0] {
      LessAsymmetric(a[1..], b[1..]);
    }
  }

  lemma {:induction false} LessTransitive(a: string, b: string, c: string)
    requires Less(a, b) && Less(b, c)
    ensures Less(a, c)
  {
    if a != [] && a[0] == b[0] && b[0] == c[0] {
      LessTransitive(a[1..], b[1..], c[1..]);
    }
  }

  /** `m` is the least element of `s`. */
  predicate IsLeast(s: set<string>, m: string)
  {
    m in s && forall x :: x in s && x != m ==> Less(m, x)
  }

  lemma {:induction false} LeastExists(s: set<string>)
    requires s != {}
    ensures exists m :: IsLeast(s, m)
    decreases |s|
  {
    var x :| x in s;
    if s != {x} {
      LeastExists(s - {x});
      var m :| IsLeast(s - {x}, m);
      LessTotal(x, m);
      if Less(x, m) {
        forall y | y in s && y != x ensures Less(x, y) {
          if y != m {
            LessTransitive(x, m, y);
          }
        }
        assert IsLeast(s, x);
      } else {
        assert IsLeast(s, m);
      }
    } else {
      assert IsLeast(s, x);
    }
  }

  lemma LeastUnique(s: set<string>, a: string, b: string)
    requires IsLeast(s, a) && IsLeast(s, b)
    ensures a == b
  {
    if a != b {
      LessAsymmetric(a, b);
    }
  }

  function Least(s: set<string>): (m: string)
    requires s != {}
    ensures IsLeast(s, m)
  {
    LeastExists(s);
    forall a, b | IsLeast(s, a) && IsLeast(s, b) ensures a == b {
      LeastUnique(s, a, b);
    }
    var m :| IsLeast(s, m);
    m
  }

  /** Strictly ascending, hence without repetitions. */
  predicate Ascending(r: seq<string>)
  {
    forall i, j :: 0 <= i < j < |r| ==> Less(r[i], r[j])
  }

  /** `sorted(s)` for a set of strings: its elements in ascending order. */
  function Sorted(s: set<string>): (r: seq<string>)
    ensures Ascending(r)
    ensures |r| == |s| && forall x :: x in r <==> x in s
    decreases |s|
  {
    if s == {} then []
    else
      var m := Least(s);
      var rest := Sorted(s - {m});
      assert forall x :: x in rest ==> Less(m, x);
      [m] + rest
  }

  /** The head of a non-empty ascending arrangement of `s` is its least
    * element, and its tail arranges the rest. */
  lemma AscendingHead(r: seq<string>, s: set<string>)
    requires r != [] && Ascending(r) && forall x :: x in r <==> x in s
    ensures s != {} && r[0] == Least(s)
    ensures forall x :: x in r[1..] <==> x in s - {r[0]}
  {
    assert r[0] in s;
    assert IsLeast(s, r[0]) by {
      forall x | x in s && x != r[0] ensures Less(r[0], x) {
        var k :| 0 <= k < |r| && r[k] == x;
      }
    }
    LeastUnique(s, r[0], Least(s));
    forall x ensures x in r[1..] <==> x in s - {r[0]} {
      if x in r[1..] {
        var k :| 1 <= k < |r| && r[k] == x;
        LessIrreflexive(x);
      }
    }
  }

  /** An ascending sequence is determined by its elements: `Sorted` is
    * the only arrangement of a set that `sorted` could return. */
  lemma {:induction false} AscendingUnique(r: seq<string>, s: set<string>)
    requires Ascending(r) && forall x :: x in r <==> x in s
    ensures r == Sorted(s)
    decreases |r|
  {
    if r != [] {
      AscendingHead(r, s);
      AscendingUnique(r[1..], s - {r[0]});
      assert Sorted(s) == [r[0]] + Sorted(s - {r[0]});
      assert r == [r[0]] + r[1..];
    } else {
      assert forall x :: x !in s;
    }
  }

  /** Strictly increasing numbers. */
  predicate Increasing(xs: seq<nat>)
  {
    forall i, j :: 0 <= i < j < |xs| ==> xs[i] < xs[j]
  }

  /** `sorted(s)` for a set of numbers below `n`: its elements in
    * increasing order. */
  function SortedBelow(s: set<nat>, n: nat): (r: seq<nat>)
    ensures Increasing(r)
    ensures forall x :: x in r <==> x in s && x < n
    ensures forall k :: 0 <= k < |r| ==> r[k] < n
  {
    if n == 0 then []
    else SortedBelow(s, n - 1) + (if n - 1 in s then [n - 1] else [])
  }

  /** A non-empty set of numbers has a largest element. */
  lemma {:induction false} LargestExists(s: set<nat>)
    requires s != {}
    ensures exists x :: x in s && forall y :: y in s ==> y <= x
    decreases |s|
  {
    var x :| x in s;
    if s != {x} {
      LargestExists(s - {x});
      var m :| m in s - {x} && forall y :: y in s - {x} ==> y <= m;
      var top := if x <= m then m else x;
      forall y | y in s ensures y <= top {
        if y != x {
          assert y in s - {x};
        }
      }
    } else {
      assert forall y :: y in s ==> y <= x;
    }
  }

  /** A number above every element of `s`. */
  function UpperBound(s: set<nat>): (n: nat)
    ensures forall x :: x in s ==> x < n
  {
    if s == {} then 0
    else
      LargestExists(s);
      var x :| x in s && forall y :: y in s ==> y <= x;
      x + 1
  }

  /** `sorted(s)` for any set of numbers: its elements in increasing
    * order. */
  function SortedNats(s: set<nat>): (r: seq<nat>)
    ensures Increasing(r)
    ensures forall x :: x in r <==> x in s
  {
    SortedBelow(s, UpperBound(s))
  }

  /** `p < q` on Python pairs of strings: by the first component, then by
    * the second. */
  predicate PairLess(p: (string, string), q: (string, string))
  {
    Less(p.0, q.0) || (p.0 == q.0 && Less(p.1, q.1))
  }

  predicate PairsAscending(r: seq<(string, string)>)
  {
    forall i, j :: 0 <= i < j < |r| ==> PairLess(r[i], r[j])
  }

  /** The pairs of `s` whose first component is `f`, by second component. */
  function Group(s: set<(string, string)>, f: string): (r: seq<(string, string)>)
    ensures forall e :: e in r <==> e in s && e.0 == f
    ensures forall k :: 0 <= k < |r| ==> r[k].0 == f
    ensures PairsAscending(r)
  {
    var ys := Seconds(s, f);
    var seconds := Sorted(ys);
    var r := seq(|seconds|, k requires 0 <= k < |seconds| => (f, seconds[k]));
    forall e | e in s && e.0 == f ensures e in r {
      var k :| 0 <= k < |seconds| && seconds[k] == e.1;
      assert r[k] == e;
    }
    forall e | e in r ensures e in s && e.0 == f {
      var k :| 0 <= k < |r| && r[k] == e;
      assert seconds[k] in ys;
    }
    r
  }

  /** The second components of the pairs of `s` whose first is `f`. */
  function Seconds(s: set<(string, string)>, f: string): (ys: set<string>)
    ensures forall y :: y in ys <==> (f, y) in s
  {
    set e | e in s && e.0 == f :: e.1
  }

  /** The groups of the first components `fs`, one after the other. */
  function Grouped(s: set<(string, string)>, fs: seq<string>): (r: seq<(string, string)>)
    requires Ascending(fs)
    ensures forall e :: e in r <==> e in s && e.0 in fs
    ensures forall k :: 0 <= k < |r| ==> r[k].0 in fs
    ensures PairsAscending(r)
  {
    if fs == [] then []
    else
      var head := Group(s, fs[0]);
      var rest := Grouped(s, fs[1..]);
      assert forall k :: 0 <= k < |rest| ==> Less(fs[0], rest[k].0) by {
        forall k | 0 <= k < |rest| ensures Less(fs[0], rest[k].0) {
          var j :| 1 <= j < |fs| && fs[j] == rest[k].0;
        }
      }
      PairsAppend(head, rest, fs[0]);
      head + rest
  }

  /** Pairs led by `f`, then pairs led by larger strings, stay ascending. */
  lemma PairsAppend(head: seq<(string, string)>, rest: seq<(string, string)>, f: string)
    requires PairsAscending(head) && PairsAscending(rest)
    requires forall k :: 0 <= k < |head| ==> head[k].0 == f
    requires forall k :: 0 <= k < |rest| ==> Less(f, rest[k].0)
    ensures PairsAscending(head + rest)
  {
    var r := head + rest;
    forall i, j | 0 <= i < j < |r| ensures PairLess(r[i], r[j]) {
      if j >= |head| && i < |head| {
        assert r[i] == head[i] && r[j] == rest[j - |head|];
      }
    }
  }

  /** `sorted(s)` for a set of pairs of strings: its elements in ascending
    * order. */
  function SortedPairs(s: set<(string, string)>): (r: seq<(string, string)>)
    ensures PairsAscending(r)
    ensures forall e :: e in r <==> e in s
  {
    Grouped(s, Sorted(set e | e in s :: e.0))
  }
}
