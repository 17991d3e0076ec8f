/** The row-of-lists sparse matrix (scipy's `lil_matrix`) that a mutable
  * directed graph grows one entry at a time, its conversion to the CSR
  * layout (`tocsr`) and back, and its transpose. */
module Lil {
  import opened Csr

  /** One row: (column, value) pairs by increasing column. A stored value
    * may be zero when it was placed in the row directly. */
  type Row = seq<(nat, real)>

  ghost predicate SortedRow(row: Row)
  {
    forall p, q :: 0 <= p < q < |row| ==> row[p].0 < row[q].0
  }

  ghost predicate RowBelow(row: Row, n: nat)
  {
    forall p :: 0 <= p < |row| ==> row[p].0 < n
  }

  /** A well-formed matrix of order n: n sorted rows of columns below n. */
  ghost predicate IsLil(rows: seq<Row>, n: nat)
  {
    |rows| == n && forall i :: 0 <= i < n ==> SortedRow(rows[i]) && RowBelow(rows[i], n)
  }

  /** The columns stored in a row. */
  function Cols(row: Row): (c: set<nat>)
    ensures forall j :: j in c <==> exists p :: 0 <= p < |row| && row[p].0 == j
  {
    set p | 0 <= p < |row| :: row[p].0
  }

  /** `A[i, j]`: the value stored in column j, or zero. */
  function Get(row: Row, j: nat): real
  {
    if row == [] then 0.0 else if row[0].0 == j then row[0].1 else Get(row[1..], j)
  }

  /** In a sorted row the value read at a stored column is the one stored
    * there. */
  lemma {:induction false} GetAt(row: Row, p: nat)
    requires SortedRow(row) && p < |row|
    ensures Get(row, row[p].0) == row[p].1
  {
    if p > 0 {
      assert row[1..][p - 1] == row[p];
      GetAt(row[1..], p - 1);
    }
  }

  /** A column that is not stored reads as zero. */
  lemma {:induction false} GetAbsent(row: Row, j: nat)
    requires j !in Cols(row)
    ensures Get(row, j) == 0.0
  {
    if row != [] {
      assert row[0].0 != j;
      assert Cols(row[1..]) <= Cols(row) by {
        forall k | k in Cols(row[1..]) ensures k in Cols(row) {
          var p :| 0 <= p < |row[1..]| && row[1..][p].0 == k;
          assert row[p + 1].0 == k;
        }
      }
      GetAbsent(row[1..], j);
    }
  }

  /** Reading past a prefix: a column stored in the prefix is read there. */
  lemma {:induction false} GetAppend(a: Row, b: Row, j: nat)
    ensures Get(a + b, j) == if j in Cols(a) then Get(a, j) else Get(b, j)
  {
    if a != [] {
      assert (a + b)[1..] == a[1..] + b;
      if a[0].0 != j {
        assert j in Cols(a) <==> j in Cols(a[1..]) by {
          if j in Cols(a) {
            var p :| 0 <= p < |a| && a[p].0 == j;
            assert a[1..][p - 1].0 == j;
          }
          if j in Cols(a[1..]) {
            var p :| 0 <= p < |a[1..]| && a[1..][p].0 == j;
            assert a[p + 1].0 == j;
          }
        }
        GetAppend(a[1..], b, j);
      } else {
        assert a[0].0 in Cols(a);
      }
    } else {
      assert a + b == b;
    }
  }

  /** `A[i, j] = x` on one row (scipy's `_insertat2`): a non-zero value
    * replaces the stored one or is inserted in column order; a zero
    * deletes the stored entry, if any. */
  function Put(row: Row, j: nat, x: real): (r: Row)
    requires SortedRow(row)
    ensures SortedRow(r)
    ensures Cols(r) == if x == 0.0 then Cols(row) - {j} else Cols(row) + {j}
    ensures forall k :: Get(r, k) == if k == j then x else Get(row, k)
  {
    if row == [] then
      ColsEmpty(row);
      ColsCons([(j, x)]);
      ColsEmpty([(j, x)][1..]);
      if x == 0.0 then [] else [(j, x)]
    else if row[0].0 == j then
      PutReplace(row, j, x);
      if x == 0.0 then row[1..] else [(j, x)] + row[1..]
    else if row[0].0 > j then
      PutBefore(row, j, x);
      if x == 0.0 then row else [(j, x)] + row
    else
      ColsCons(row);
      var rest := Put(row[1..], j, x);
      PutHead(row, rest, j, x);
      [row[0]] + rest
  }

  /** `A[i, j] += x` on one row: the stored value (zero when absent) plus
    * x is put back, so a sum of zero deletes the entry. */
  function AddAt(row: Row, j: nat, x: real): (r: Row)
    requires SortedRow(row)
    ensures SortedRow(r) && Cols(r) <= Cols(row) + {j}
    ensures forall k :: Get(r, k) == if k == j then Get(row, j) + x else Get(row, k)
  {
    Put(row, j, Get(row, j) + x)
  }

  /** Replacing a row by a sorted one that stores no new column other
    * than j < n keeps the matrix well formed. */
  lemma SetRowKeepsLil(rows: seq<Row>, n: nat, i: nat, j: nat, r: Row)
    requires IsLil(rows, n) && i < n && j < n
    requires SortedRow(r) && Cols(r) <= Cols(rows[i]) + {j}
    ensures IsLil(rows[i := r], n)
  {
    assert RowBelow(rows[i], n);
    forall p | 0 <= p < |r| ensures r[p].0 < n {
      assert r[p].0 in Cols(r);
    }
  }

  /** Put at the column stored first. */
  lemma PutReplace(row: Row, j: nat, x: real)
    requires SortedRow(row) && row != [] && row[0].0 == j
    ensures x == 0.0 ==> && SortedRow(row[1..]) && Cols(row[1..]) == Cols(row) - {j}
                         && forall k :: Get(row[1..], k) == if k == j then x else Get(row, k)
    ensures x != 0.0 ==> && SortedRow([(j, x)] + row[1..]) && Cols([(j, x)] + row[1..]) == Cols(row) + {j}
                         && forall k :: Get([(j, x)] + row[1..], k) == if k == j then x else Get(row, k)
  {
    ColsCons(row);
    SortedTail(row);
    GetAbsentFrom(row[1..], j);
    if x == 0.0 {
      forall k ensures Get(row[1..], k) == if k == j then 0.0 else Get(row, k) {
      }
    } else {
      PrependBelow(row[1..], j, x);
      var s := [(j, x)] + row[1..];
      forall k ensures Get(s, k) == if k == j then x else Get(row, k) {
        assert s[1..] == row[1..];
      }
    }
  }

  /** Put at a column below every stored one. */
  lemma PutBefore(row: Row, j: nat, x: real)
    requires SortedRow(row) && row != [] && row[0].0 > j
    ensures x == 0.0 ==> && SortedRow(row) && Cols(row) == Cols(row) - {j}
                         && forall k :: Get(row, k) == if k == j then x else Get(row, k)
    ensures x != 0.0 ==> && SortedRow([(j, x)] + row) && Cols([(j, x)] + row) == Cols(row) + {j}
                         && forall k :: Get([(j, x)] + row, k) == if k == j then x else Get(row, k)
  {
    ColsCons(row);
    SortedTail(row);
    assert j !in Cols(row);
    GetAbsentFrom(row, j);
    if x != 0.0 {
      PrependBelow(row, j, x);
      var s := [(j, x)] + row;
      forall k ensures Get(s, k) == if k == j then x else Get(row, k) {
        assert s[1..] == row;
      }
    }
  }

  /** Prepending a column below every stored one keeps the row sorted. */
  lemma PrependBelow(row: Row, j: nat, x: real)
    requires SortedRow(row) && forall k :: k in Cols(row) ==> j < k
    ensures SortedRow([(j, x)] + row) && Cols([(j, x)] + row) == {j} + Cols(row)
  {
    var s := [(j, x)] + row;
    assert s[1..] == row;
    ColsCons(s);
    forall p, q | 0 <= p < q < |s| ensures s[p].0 < s[q].0 {
      assert s[q] == row[q - 1];
      assert row[q - 1].0 in Cols(row);
      if p > 0 {
        assert s[p] == row[p - 1];
      }
    }
  }

  lemma GetAbsentFrom(row: Row, j: nat)
    requires j !in Cols(row)
    ensures Get(row, j) == 0.0
  {
    GetAbsent(row, j);
  }

  lemma ColsCons(row: Row)
    requires row != []
    ensures Cols(row) == {row[0].0} + Cols(row[1..])
  {
    forall k | k in Cols(row) ensures k in {row[0].0} + Cols(row[1..]) {
      var p :| 0 <= p < |row| && row[p].0 == k;
      if p > 0 {
        assert row[1..][p - 1].0 == k;
      }
    }
    forall k | k in Cols(row[1..]) ensures k in Cols(row) {
      var p :| 0 <= p < |row[1..]| && row[1..][p].0 == k;
      assert row[p + 1].0 == k;
    }
  }

  /** The head of a sorted row is below every later column. */
  lemma SortedTail(row: Row)
    requires SortedRow(row) && row != []
    ensures SortedRow(row[1..])
    ensures forall k :: k in Cols(row[1..]) ==> row[0].0 < k
  {
    forall k | k in Cols(row[1..]) ensures row[0].0 < k {
      var p :| 0 <= p < |row[1..]| && row[1..][p].0 == k;
      assert row[p + 1].0 == k;
    }
  }

  lemma PutHead(row: Row, rest: Row, j: nat, x: real)
    requires SortedRow(row) && row != [] && row[0].0 < j
    requires SortedRow(rest)
    requires Cols(rest) == if x == 0.0 then Cols(row[1..]) - {j} else Cols(row[1..]) + {j}
    requires forall k :: Get(rest, k) == if k == j then x else Get(row[1..], k)
    requires Cols(row) == {row[0].0} + Cols(row[1..])
    ensures SortedRow([row[0]] + rest)
    ensures Cols([row[0]] + rest) == if x == 0.0 then Cols(row) - {j} else Cols(row) + {j}
    ensures forall k :: Get([row[0]] + rest, k) == if k == j then x else Get(row, k)
  {
    var r := [row[0]] + rest;
    assert r[1..] == rest;
    PutHeadSorted(row, rest, j, x);
    ColsCons(r);
    forall k ensures Get(r, k) == if k == j then x else Get(row, k) {
      PutHeadGet(row, rest, j, x, k);
    }
  }

  lemma PutHeadSorted(row: Row, rest: Row, j: nat, x: real)
    requires SortedRow(row) && row != [] && row[0].0 < j
    requires SortedRow(rest)
    requires Cols(rest) <= Cols(row[1..]) + {j}
    ensures SortedRow([row[0]] + rest)
  {
    var r := [row[0]] + rest;
    SortedTail(row);
    forall q | 0 < q < |r| ensures row[0].0 < r[q].0 {
      assert r[q] == rest[q - 1];
      assert rest[q - 1].0 in Cols(rest);
    }
  }

  lemma PutHeadGet(row: Row, rest: Row, j: nat, x: real, k: nat)
    requires row != [] && row[0].0 < j
    requires Get(rest, k) == if k == j then x else Get(row[1..], k)
    ensures Get([row[0]] + rest, k) == if k == j then x else Get(row, k)
  {
    assert ([row[0]] + rest)[1..] == rest;
  }

  /** Two sorted rows with the same stored columns and the same values
    * there are the same row. */
  lemma {:induction false} RowExtensional(a: Row, b: Row)
    requires SortedRow(a) && SortedRow(b) && Cols(a) == Cols(b)
    requires forall j :: j in Cols(a) ==> Get(a, j) == Get(b, j)
    ensures a == b
  {
    if a != [] {
      assert b != [] by { assert a[0].0 in Cols(b); }
      ColsCons(a);
      ColsCons(b);
      SortedTail(a);
      SortedTail(b);
      assert a[0].0 in Cols(b) && b[0].0 in Cols(a);
      assert a[0].0 == b[0].0;
      assert a[0].0 !in Cols(a[1..]) && b[0].0 !in Cols(b[1..]);
      assert Cols(a[1..]) == Cols(b[1..]);
      forall j | j in Cols(a[1..]) ensures Get(a[1..], j) == Get(b[1..], j) {
        assert j != a[0].0;
      }
      RowExtensional(a[1..], b[1..]);
    } else {
      ColsEmpty(a);
      ColsEmpty(b);
    }
  }

  lemma ColsEmpty(row: Row)
    ensures Cols(row) == {} <==> row == []
  {
    if row != [] {
      assert row[0].0 in Cols(row);
    }
  }

  // ---------------------------------------------------------------------
  // tocsr

  /** The stored columns of a row, in order. */
  function ColSeq(row: Row): (c: seq<int>)
    ensures |c| == |row| && forall p :: 0 <= p < |row| ==> c[p] == row[p].0
  {
    seq(|row|, p requires 0 <= p < |row| => row[p].0)
  }

  function ValSeq(row: Row): (v: seq<real>)
    ensures |v| == |row| && forall p :: 0 <= p < |row| ==> v[p] == row[p].1
  {
    seq(|row|, p requires 0 <= p < |row| => row[p].1)
  }

  /** The CSR column indices: the rows' columns laid end to end. */
  function FlatCols(rows: seq<Row>): seq<int>
  {
    if rows == [] then [] else FlatCols(rows[..|rows| - 1]) + ColSeq(rows[|rows| - 1])
  }

  /** The CSR values, laid out like `FlatCols`. */
  function FlatVals(rows: seq<Row>): (v: seq<real>)
    ensures |v| == |FlatCols(rows)|
  {
    if rows == [] then [] else FlatVals(rows[..|rows| - 1]) + ValSeq(rows[|rows| - 1])
  }

  /** The CSR row pointers: where each row starts in `FlatCols`. */
  function Pointers(rows: seq<Row>): (ip: seq<int>)
    ensures |ip| == |rows| + 1
  {
    seq(|rows| + 1, i requires 0 <= i <= |rows| => |FlatCols(rows[..i])|)
  }

  /** The layout of one more row appended. */
  lemma FlatStep(rows: seq<Row>, i: nat)
    requires i < |rows|
    ensures FlatCols(rows[..i + 1]) == FlatCols(rows[..i]) + ColSeq(rows[i])
    ensures FlatVals(rows[..i + 1]) == FlatVals(rows[..i]) + ValSeq(rows[i])
  {
    assert rows[..i + 1][..i] == rows[..i];
  }

  /** The layout of a prefix of the rows is a prefix of the layout. */
  lemma {:induction false} FlatPrefix(rows: seq<Row>, i: nat)
    requires i <= |rows|
    ensures FlatCols(rows[..i]) <= FlatCols(rows)
    ensures FlatVals(rows[..i]) <= FlatVals(rows)
    decreases |rows| - i
  {
    if i < |rows| {
      FlatPrefix(rows, i + 1);
      FlatStep(rows, i);
    } else {
      assert rows[..i] == rows;
    }
  }

  /** Where row i sits in the layout: positions `Pointers[i] ..
    * Pointers[i + 1]` hold exactly its columns and values. */
  lemma FlatLayout(rows: seq<Row>, i: nat, k: nat)
    requires i < |rows| && k < |rows[i]|
    ensures var ip := Pointers(rows);
            && ip[i + 1] == ip[i] + |rows[i]|
            && 0 <= ip[i] + k < |FlatCols(rows)|
            && FlatCols(rows)[ip[i] + k] == rows[i][k].0
            && FlatVals(rows)[ip[i] + k] == rows[i][k].1
  {
    FlatStep(rows, i);
    FlatPrefix(rows, i + 1);
    var pre := FlatCols(rows[..i]);
    assert FlatCols(rows[..i + 1])[|pre| + k] == rows[i][k].0;
    assert FlatVals(rows[..i + 1])[|pre| + k] == rows[i][k].1;
  }

  lemma RowLength(rows: seq<Row>, i: nat)
    requires i < |rows|
    ensures Pointers(rows)[i + 1] == Pointers(rows)[i] + |rows[i]|
  {
    FlatStep(rows, i);
  }

  /** `tocsr` of a well-formed matrix gives a canonical CSR pattern of the
    * same order. */
  lemma ToCsrCanonical(rows: seq<Row>, n: nat)
    requires IsLil(rows, n)
    ensures Canonical(n, Pointers(rows), FlatCols(rows))
  {
    ToCsrShaped(rows, n);
    forall i | 0 <= i < n ensures RowSorted(Pointers(rows), FlatCols(rows), i) {
      ToCsrRowSorted(rows, n, i);
    }
  }

  lemma ToCsrShaped(rows: seq<Row>, n: nat)
    requires IsLil(rows, n)
    ensures Shaped(n, Pointers(rows), FlatCols(rows))
  {
    var ip, ix := Pointers(rows), FlatCols(rows);
    assert rows[..0] == [] && rows[..n] == rows;
    forall i, j | 0 <= i <= j <= n ensures ip[i] <= ip[j] {
      FlatPrefix(rows[..j], i);
      assert rows[..j][..i] == rows[..i];
    }
    forall p | 0 <= p < |ix| ensures 0 <= ix[p] < n {
      var i := RowOf(n, ip, p);
      RowLength(rows, i);
      FlatLayout(rows, i, p - ip[i]);
    }
  }

  lemma ToCsrRowSorted(rows: seq<Row>, n: nat, i: nat)
    requires IsLil(rows, n) && i < n
    ensures RowSorted(Pointers(rows), FlatCols(rows), i)
  {
    var ip, ix := Pointers(rows), FlatCols(rows);
    RowLength(rows, i);
    forall p, q | ip[i] <= p < q < ip[i + 1] && 0 <= p && q < |ix| ensures ix[p] < ix[q] {
      FlatOrdered(rows, i, p - ip[i], q - ip[i]);
    }
  }

  /** Two entries of a sorted row keep their order in the flat layout. */
  lemma FlatOrdered(rows: seq<Row>, i: nat, kp: nat, kq: nat)
    requires i < |rows| && SortedRow(rows[i]) && kp < kq < |rows[i]|
    ensures var ip := Pointers(rows);
            && ip[i] + kq < |FlatCols(rows)|
            && FlatCols(rows)[ip[i] + kp] < FlatCols(rows)[ip[i] + kq]
  {
    FlatLayout(rows, i, kp);
    FlatLayout(rows, i, kq);
  }

  /** Row i of a CSR matrix as a row of the list form. */
  function RowOfCsr(indptr: seq<int>, indices: seq<int>, data: seq<real>, i: nat): (row: Row)
    requires i + 1 < |indptr| && 0 <= indptr[i] <= indptr[i + 1] <= |indices| == |data|
    requires forall p :: indptr[i] <= p < indptr[i + 1] ==> indices[p] >= 0
    ensures |row| == indptr[i + 1] - indptr[i]
    ensures forall k :: 0 <= k < |row| ==> row[k] == (indices[indptr[i] + k] as nat, data[indptr[i] + k])
  {
    seq(indptr[i + 1] - indptr[i], k requires 0 <= k < indptr[i + 1] - indptr[i] =>
      (indices[indptr[i] + k] as nat, data[indptr[i] + k]))
  }

  /** A CSR matrix in list form. */
  function RowsOf(n: nat, indptr: seq<int>, indices: seq<int>, data: seq<real>): (rows: seq<Row>)
    requires Shaped(n, indptr, indices) && |data| == |indices|
    ensures |rows| == n
  {
    seq(n, i requires 0 <= i < n => RowOfCsr(indptr, indices, data, i))
  }

  /** The list form of a canonical CSR matrix is well formed. */
  lemma RowsOfIsLil(n: nat, indptr: seq<int>, indices: seq<int>, data: seq<real>)
    requires Canonical(n, indptr, indices) && |data| == |indices|
    ensures IsLil(RowsOf(n, indptr, indices, data), n)
  {
    var rows := RowsOf(n, indptr, indices, data);
    forall i | 0 <= i < n ensures SortedRow(rows[i]) && RowBelow(rows[i], n) {
      assert RowSorted(indptr, indices, i);
    }
  }

  /** `tocsr` undone: converting the list form to CSR and reading the rows
    * back gives the same rows. */
  lemma LilRoundTrip(rows: seq<Row>, n: nat)
    requires IsLil(rows, n)
    ensures Shaped(n, Pointers(rows), FlatCols(rows))
    ensures RowsOf(n, Pointers(rows), FlatCols(rows), FlatVals(rows)) == rows
  {
    ToCsrCanonical(rows, n);
    var back := RowsOf(n, Pointers(rows), FlatCols(rows), FlatVals(rows));
    forall i | 0 <= i < n ensures back[i] == rows[i] {
      RowLength(rows, i);
      forall k | 0 <= k < |rows[i]| ensures back[i][k] == rows[i][k] {
        FlatLayout(rows, i, k);
      }
    }
  }

  /** And the other way: the list form of a CSR matrix lays out back to the
    * same pointers, columns and values. */
  lemma CsrRoundTrip(n: nat, indptr: seq<int>, indices: seq<int>, data: seq<real>)
    requires Shaped(n, indptr, indices) && |data| == |indices|
    ensures var rows := RowsOf(n, indptr, indices, data);
            Pointers(rows) == indptr && FlatCols(rows) == indices && FlatVals(rows) == data
  {
    var rows := RowsOf(n, indptr, indices, data);
    forall i | 0 <= i <= n
      ensures FlatCols(rows[..i]) == indices[..indptr[i]] && FlatVals(rows[..i]) == data[..indptr[i]]
    {
      CsrPrefix(n, indptr, indices, data, i);
    }
    assert rows[..n] == rows;
    assert indices[..indptr[n]] == indices && data[..indptr[n]] == data;
  }

  lemma {:induction false} CsrPrefix(n: nat, indptr: seq<int>, indices: seq<int>, data: seq<real>, i: nat)
    requires Shaped(n, indptr, indices) && |data| == |indices| && i <= n
    ensures var rows := RowsOf(n, indptr, indices, data);
            FlatCols(rows[..i]) == indices[..indptr[i]] && FlatVals(rows[..i]) == data[..indptr[i]]
  {
    var rows := RowsOf(n, indptr, indices, data);
    if i == 0 {
      assert rows[..0] == [];
    } else {
      CsrPrefix(n, indptr, indices, data, i - 1);
      FlatStep(rows, i - 1);
      CsrRowSlice(n, indptr, indices, data, i - 1);
      PrefixSplit(indices, indptr[i - 1], indptr[i]);
      PrefixSplit(data, indptr[i - 1], indptr[i]);
    }
  }

  /** Row i of the list form is the slice of the CSR arrays its pointers
    * delimit. */
  lemma CsrRowSlice(n: nat, indptr: seq<int>, indices: seq<int>, data: seq<real>, i: nat)
    requires Shaped(n, indptr, indices) && |data| == |indices| && i < n
    ensures 0 <= indptr[i] <= indptr[i + 1] <= |indices|
    ensures var row := RowsOf(n, indptr, indices, data)[i];
            ColSeq(row) == indices[indptr[i]..indptr[i + 1]] && ValSeq(row) == data[indptr[i]..indptr[i + 1]]
  {
    assert indptr[0] <= indptr[i] <= indptr[i + 1] <= indptr[n];
  }

  lemma PrefixSplit<T>(s: seq<T>, a: int, b: int)
    requires 0 <= a <= b <= |s|
    ensures s[..b] == s[..a] + s[a..b]
  {
  }

  // ---------------------------------------------------------------------
  // Transpose

  /** Column j of the first rows as a row of the transpose: (i, value) for
    * every row i storing column j, by increasing i. */
  function ColumnOf(rows: seq<Row>, j: nat): (c: Row)
    ensures SortedRow(c) && RowBelow(c, |rows|)
    ensures forall i :: i in Cols(c) <==> 0 <= i < |rows| && j in Cols(rows[i])
  {
    if rows == [] then []
    else
      var pre := ColumnOf(rows[..|rows| - 1], j);
      var last := |rows| - 1;
      if j in Cols(rows[last]) then
        ColumnAppend(pre, last, Get(rows[last], j));
        pre + [(last, Get(rows[last], j))]
      else pre
  }

  lemma ColumnAppend(pre: Row, last: nat, v: real)
    requires SortedRow(pre) && RowBelow(pre, last)
    ensures SortedRow(pre + [(last, v)]) && RowBelow(pre + [(last, v)], last + 1)
    ensures Cols(pre + [(last, v)]) == Cols(pre) + {last}
  {
    var c := pre + [(last, v)];
    forall k | k in Cols(c) ensures k in Cols(pre) + {last} {
      var p :| 0 <= p < |c| && c[p].0 == k;
      if p < |pre| {
        assert pre[p].0 == k;
      }
    }
    forall k | k in Cols(pre) ensures k in Cols(c) {
      var p :| 0 <= p < |pre| && pre[p].0 == k;
      assert c[p].0 == k;
    }
    assert c[|pre|].0 == last;
  }

  /** The transpose of an n-square matrix in list form. */
  function Transpose(rows: seq<Row>, n: nat): (t: seq<Row>)
    ensures |t| == n
  {
    seq(n, j requires 0 <= j < n => ColumnOf(rows, j))
  }

  /** The values of the transpose are those of the matrix, mirrored. */
  lemma {:induction false} ColumnValues(rows: seq<Row>, j: nat, i: nat)
    requires forall r :: 0 <= r < |rows| ==> SortedRow(rows[r])
    requires i < |rows|
    ensures Get(ColumnOf(rows, j), i) == Get(rows[i], j)
  {
    var last := |rows| - 1;
    var init := rows[..last];
    var pre := ColumnOf(init, j);
    if i < last {
      ColumnValues(init, j, i);
      if j in Cols(rows[last]) {
        GetAppend(pre, [(last, Get(rows[last], j))], i);
        if i !in Cols(pre) {
          GetAbsent(pre, i);
          assert Get(rows[i], j) == 0.0 by { GetAbsent(rows[i], j); }
          assert Get([(last, Get(rows[last], j))], i) == 0.0 by {
            assert [(last, Get(rows[last], j))][1..] == [];
          }
        }
      }
    } else {
      if j in Cols(rows[last]) {
        GetAppend(pre, [(last, Get(rows[last], j))], i);
        assert i !in Cols(pre);
      } else {
        GetAbsent(pre, i);
        GetAbsent(rows[i], j);
      }
    }
  }

  /** The transpose is well formed and mirrors every stored entry. */
  lemma TransposeMirrors(rows: seq<Row>, n: nat, i: nat, j: nat)
    requires IsLil(rows, n) && i < n && j < n
    ensures IsLil(Transpose(rows, n), n)
    ensures i in Cols(Transpose(rows, n)[j]) <==> j in Cols(rows[i])
    ensures Get(Transpose(rows, n)[j], i) == Get(rows[i], j)
  {
    ColumnValues(rows, j, i);
  }

  /** Transposing twice gives the matrix back. */
  lemma TransposeInvolution(rows: seq<Row>, n: nat)
    requires IsLil(rows, n)
    ensures Transpose(Transpose(rows, n), n) == rows
  {
    var t := Transpose(rows, n);
    var tt := Transpose(t, n);
    assert IsLil(t, n) by {
      forall j | 0 <= j < n ensures SortedRow(t[j]) && RowBelow(t[j], n) {
      }
    }
    forall i | 0 <= i < n ensures tt[i] == rows[i] {
      forall j: nat ensures j in Cols(tt[i]) <==> j in Cols(rows[i]) {
        if j < n {
          TransposeMirrors(rows, n, i, j);
          TransposeMirrors(t, n, j, i);
        } else {
          assert j !in Cols(rows[i]);
        }
      }
      forall j | j in Cols(tt[i]) ensures Get(tt[i], j) == Get(rows[i], j) {
        TransposeMirrors(rows, n, i, j);
        TransposeMirrors(t, n, j, i);
      }
      RowExtensional(tt[i], rows[i]);
    }
  }
}
