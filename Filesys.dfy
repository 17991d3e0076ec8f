/** Length-prefixed string lists in binary files (common/utils/filesys.py).
  * A list is stored as an optional little-endian u32 item count, then the
  * u32 length of a buffer, then the buffer: the strings joined by NUL with
  * one more NUL at the end. A file is a sequence of bytes and a string is a
  * byte string, as in the Python 2 source. */
module Filesys {
  import opened Wrappers

  newtype byte = x: int | 0 <= x < 256

  type Bytes = seq<byte>

  const NUL: byte := 0
  const U32Range: nat := 0x1_0000_0000

  /** A string that the NUL-separated format can carry. */
  predicate NulFree(s: Bytes)
  {
    NUL !in s
  }

  /** A non-negative number as a little-endian unsigned 32-bit integer; a
    * larger number wraps modulo 2^32 as numpy's `'<u4'` cast does. */
  function U32(x: nat): (r: Bytes)
    ensures |r| == 4
    ensures FromU32(r) == x % U32Range
  {
    var v := x % U32Range;
    var q1 := v / 256;
    var q2 := q1 / 256;
    var q3 := q2 / 256;
    assert v == v % 256 + 256 * q1 && q1 == q1 % 256 + 256 * q2 && q2 == q2 % 256 + 256 * q3;
    [(v % 256) as byte, (q1 % 256) as byte, (q2 % 256) as byte, q3 as byte]
  }

  /** The number a little-endian u32 encodes. */
  function FromU32(b: Bytes): (x: nat)
    requires |b| == 4
    ensures x < U32Range
  {
    b[0] as nat + 256 * (b[1] as nat + 256 * (b[2] as nat + 256 * b[3] as nat))
  }

  /** `sep.join(items)`. */
  function Join<T>(items: seq<seq<T>>, sep: T): (r: seq<T>)
    ensures items == [] ==> r == []
    ensures |items| == 1 ==> r == items[0]
  {
    if items == [] then []
    else if |items| == 1 then items[0]
    else items[0] + [sep] + Join(items[1..], sep)
  }

  /** `s.split(sep)`: the pieces between separators, one more piece than
    * there are separators, none containing the separator. */
  function Split<T(==)>(s: seq<T>, sep: T): (r: seq<seq<T>>)
    ensures |r| >= 1
    ensures forall k :: 0 <= k < |r| ==> sep !in r[k]
    ensures sep !in s ==> r == [s]
  {
    if s == [] then [[]]
    else if s[0] == sep then [[]] + Split(s[1..], sep)
    else
      var tail := Split(s[1..], sep);
      assert sep !in s ==> sep !in s[1..] && s == [s[0]] + s[1..];
      [[s[0]] + tail[0]] + tail[1..]
  }

  /** `write_string_list`, as written: the bytes appended to the file. */
  function WriteStringList(items: seq<Bytes>, writeListLength: bool): (r: Bytes)
  {
    var buf := Join(items, NUL) + [NUL];
    (if writeListLength then U32(|items|) else []) + U32(|buf|) + buf
  }

  /** `read_string_list`: the list read from the front of the stream and
    * the bytes left after it. A stream too short to hold the buffer length
    * is an error (numpy reads an empty or partial u32); a buffer shorter
    * than its announced length is read as far as the stream goes. */
  function ReadStringList(stream: Bytes, readListLength: bool): (r: Result<(seq<Bytes>, Bytes)>)
    ensures var s := if readListLength then stream[Min(4, |stream|)..] else stream;
            r.Err? <==> |s| < 4
    ensures r.Ok? ==> forall k :: 0 <= k < |r.value.0| ==> NulFree(r.value.0[k])
    ensures r.Ok? ==> |r.value.1| <= |stream|
  {
    var s := if readListLength then stream[Min(4, |stream|)..] else stream;
    if |s| < 4 then Err("ValueError")
    else
      var blen := FromU32(s[..4]);
      var end := Min(4 + blen, |s|);
      var pieces := Split(s[4..end], NUL);
      Ok((pieces[..|pieces| - 1], s[end..]))
  }

  function Min(a: int, b: int): int
  {
    if a < b then a else b
  }

  /** Splitting a piece free of the separator, the separator, and the rest,
    * yields the piece followed by the pieces of the rest. */
  lemma {:induction false} SplitAfterPiece<T>(a: seq<T>, b: seq<T>, sep: T)
    requires sep !in a
    ensures Split(a + [sep] + b, sep) == [a] + Split(b, sep)
  {
    if a == [] {
      assert a + [sep] + b == [sep] + b;
      assert ([sep] + b)[1..] == b;
    } else {
      assert (a + [sep] + b)[1..] == a[1..] + [sep] + b;
      SplitAfterPiece(a[1..], b, sep);
      assert [a[0]] + a[1..] == a;
    }
  }

  /** Splitting a join of separator-free pieces gives the pieces back. */
  lemma {:induction false} SplitJoin<T>(items: seq<seq<T>>, sep: T)
    requires items != []
    requires forall k :: 0 <= k < |items| ==> sep !in items[k]
    ensures Split(Join(items, sep), sep) == items
  {
    if |items| > 1 {
      SplitJoin(items[1..], sep);
      SplitAfterPiece(items[0], Join(items[1..], sep), sep);
      assert [items[0]] + items[1..] == items;
    }
  }

  /** The written buffer is the join of the items with an empty last piece. */
  lemma {:induction false} JoinTerminated<T>(items: seq<seq<T>>, sep: T)
    requires items != []
    ensures Join(items, sep) + [sep] == Join(items + [[]], sep)
  {
    if |items| > 1 {
      JoinTerminated(items[1..], sep);
      assert (items + [[]])[1..] == items[1..] + [[]];
    } else if |items| == 1 {
      var t := items + [[]];
      assert |t| == 2 && t[0] == items[0] && t[1..] == [[]];
      assert Join(t, sep) == t[0] + [sep] + Join(t[1..], sep);
    }
  }

  /** The layout of the written bytes: the item count when asked for, then
    * the buffer length, then the buffer, which splits on NUL into the items
    * followed by one empty piece. */
  lemma WriteLayout(items: seq<Bytes>, writeListLength: bool)
    requires items != []
    requires forall k :: 0 <= k < |items| ==> NulFree(items[k])
    ensures var w := WriteStringList(items, writeListLength);
            var off := if writeListLength then 4 else 0;
            && |w| >= off + 4
            && (writeListLength ==> FromU32(w[..4]) == |items| % U32Range)
            && FromU32(w[off..off + 4]) == |w[off + 4..]| % U32Range
            && Split(w[off + 4..], NUL) == items + [[]]
  {
    var buf := Join(items, NUL) + [NUL];
    JoinTerminated(items, NUL);
    SplitJoin(items + [[]], NUL);
    var w := WriteStringList(items, writeListLength);
    var off := if writeListLength then 4 else 0;
    assert w[off..off + 4] == U32(|buf|);
    assert w[off + 4..] == buf;
  }

  /** The reader ignores the four count bytes: what follows is read as if
    * there were no count at all. */
  lemma DiscardedCount(count: Bytes, rest: Bytes)
    requires |count| == 4
    ensures ReadStringList(count + rest, true) == ReadStringList(rest, false)
  {
    assert (count + rest)[4..] == rest;
  }

  /** Reading a buffer announced by its exact length: the NUL-separated
    * pieces of the buffer but the last, and the bytes after the buffer. */
  lemma ReadBuffer(buf: Bytes, rest: Bytes)
    requires |buf| < U32Range
    ensures var pieces := Split(buf, NUL);
            ReadStringList(U32(|buf|) + buf + rest, false) == Ok((pieces[..|pieces| - 1], rest))
  {
    var s := U32(|buf|) + buf + rest;
    assert s[..4] == U32(|buf|);
    assert FromU32(s[..4]) == |buf|;
    assert Min(4 + |buf|, |s|) == 4 + |buf|;
    assert s[4..4 + |buf|] == buf;
    assert s[4 + |buf|..] == rest;
  }

  /** Reading a written buffer, without a count, gives the items back. */
  lemma ReadWrittenBuffer(items: seq<Bytes>, rest: Bytes)
    requires items != []
    requires forall k :: 0 <= k < |items| ==> NulFree(items[k])
    requires |Join(items, NUL)| + 1 < U32Range
    ensures var buf := Join(items, NUL) + [NUL];
            ReadStringList(U32(|buf|) + buf + rest, false) == Ok((items, rest))
  {
    var buf := Join(items, NUL) + [NUL];
    JoinTerminated(items, NUL);
    SplitJoin(items + [[]], NUL);
    ReadBuffer(buf, rest);
    assert (items + [[]])[..|items|] == items;
  }

  /** The written bytes followed by the rest of the stream: the count, if
    * any, before the buffer length, the buffer and the rest. */
  lemma WrittenThenRest(items: seq<Bytes>, flag: bool, rest: Bytes)
    ensures var buf := Join(items, NUL) + [NUL];
            WriteStringList(items, flag) + rest == (if flag then U32(|items|) else []) + (U32(|buf|) + buf + rest)
  {
    var buf := Join(items, NUL) + [NUL];
    if flag {
      Regroup(U32(|items|), U32(|buf|), buf, rest);
    }
  }

  /** Reading back what was written, with matching flags, gives back a
    * non-empty list of NUL-free strings and leaves the rest of the stream,
    * as long as the buffer length fits in 32 bits. */
  lemma RoundTrip(items: seq<Bytes>, flag: bool, rest: Bytes)
    requires items != []
    requires forall k :: 0 <= k < |items| ==> NulFree(items[k])
    requires |Join(items, NUL)| + 1 < U32Range
    ensures ReadStringList(WriteStringList(items, flag) + rest, flag) == Ok((items, rest))
  {
    var buf := Join(items, NUL) + [NUL];
    var tail := U32(|buf|) + buf + rest;
    ReadWrittenBuffer(items, rest);
    WrittenThenRest(items, flag, rest);
    if flag {
      DiscardedCount(U32(|items|), tail);
    } else {
      assert [] + tail == tail;
    }
  }

  lemma Regroup(a: Bytes, b: Bytes, c: Bytes, d: Bytes)
    ensures a + b + c + d == a + (b + c + d)
  {
  }

  /** Writing the empty list stores a single NUL, which reads back as a list
    * holding one empty string. */
  lemma EmptyListReadsAsOneEmptyString(flag: bool)
    ensures WriteStringList([], flag) == (if flag then U32(0) else []) + U32(1) + [NUL]
    ensures ReadStringList(WriteStringList([], flag), flag) == Ok(([[]], []))
  {
    var w := WriteStringList([], flag);
    var off := if flag then 4 else 0;
    assert w[off..][..4] == U32(1);
    assert w[off..][4..] == [NUL];
    assert Split([NUL], NUL) == [[]] + Split([], NUL);
  }

  /** The writer with every string terminated by NUL instead of joined:
    * the same bytes for a non-empty list, and an empty buffer for the empty
    * list, which the reader turns back into the empty list. */
  function WriteTerminated(items: seq<Bytes>, writeListLength: bool): (r: Bytes)
    ensures items != [] ==> r == WriteStringList(items, writeListLength)
  {
    var buf := Terminated(items);
    TerminatedIsJoin(items);
    (if writeListLength then U32(|items|) else []) + U32(|buf|) + buf
  }

  /** Each string followed by NUL, concatenated. */
  function Terminated(items: seq<Bytes>): (r: Bytes)
    ensures |r| >= |items|
  {
    if items == [] then [] else items[0] + [NUL] + Terminated(items[1..])
  }

  lemma {:induction false} TerminatedIsJoin(items: seq<Bytes>)
    ensures items != [] ==> Terminated(items) == Join(items, NUL) + [NUL]
  {
    if |items| > 1 {
      TerminatedIsJoin(items[1..]);
    } else if |items| == 1 {
      assert Terminated(items[1..]) == [];
    }
  }

  /** The terminated writer round-trips every list of NUL-free strings,
    * the empty list included. */
  lemma RoundTripTerminated(items: seq<Bytes>, flag: bool, rest: Bytes)
    requires forall k :: 0 <= k < |items| ==> NulFree(items[k])
    requires |Terminated(items)| < U32Range
    ensures ReadStringList(WriteTerminated(items, flag) + rest, flag) == Ok((items, rest))
  {
    if items == [] {
      var w := WriteTerminated(items, flag);
      var off := if flag then 4 else 0;
      var s := (w + rest)[off..];
      assert s[..4] == U32(0);
      assert s[4..4] == [];
      assert s[4..] == rest;
    } else {
      TerminatedIsJoin(items);
      RoundTrip(items, flag, rest);
    }
  }
}
