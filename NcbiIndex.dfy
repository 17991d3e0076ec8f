/** The binary index of one species' gene_info block
  * (common/db_parsers/ncbi_gene.py, `_write_index_1200900292` and
  * `_read_index_1200900292`): the separator and version magic, the metadata
  * strings, the checksum and taxonomy id, the gene ids and offsets as u32
  * arrays, the symbol lists and descriptions as string lists, and the two
  * conflict tables. The strings are Python 2 byte strings. */
module NcbiIndex {
  import opened Wrappers
  import opened Filesys
  import opened Indexing
  import opened NcbiGene

  /** `NCBIGENE_MAGIC`: the version of the layout. */
  const Magic: nat := 1200900292
  const Separator: string := "NCBIGENE"
  /** `NCBIGENE_URL_FMT`, stored as the second metadata string. */
  const UrlFormat: string :=
    "http://www.ncbi.nlm.nih.gov" + "/sites/entrez?db=gene" + "&cmd=Retrieve&dopt=" + "Graphics&list_uids=%ld"

  /** A Python 2 string is a byte string: character `c` is the byte `ord(c)`. */
  function Encode(s: string): (b: Bytes)
    ensures |b| == |s|
  {
    seq(|s|, k requires 0 <= k < |s| => (s[k] as int % 256) as byte)
  }

  function Decode(b: Bytes): (s: string)
    ensures |s| == |b|
  {
    seq(|b|, k requires 0 <= k < |b| => b[k] as int as char)
  }

  /** A string the NUL-separated lists can carry: bytes other than NUL. */
  predicate Storable(s: string)
  {
    forall k :: 0 <= k < |s| ==> 0 < s[k] as int < 256
  }

  lemma DecodeEncode(s: string)
    requires Storable(s)
    ensures NulFree(Encode(s)) && Decode(Encode(s)) == s
  {
    assert forall k :: 0 <= k < |s| ==> Encode(s)[k] as int == s[k] as int;
  }

  function EncodeAll(items: seq<string>): seq<Bytes>
  {
    seq(|items|, k requires 0 <= k < |items| => Encode(items[k]))
  }

  function DecodeAll(items: seq<Bytes>): seq<string>
  {
    seq(|items|, k requires 0 <= k < |items| => Decode(items[k]))
  }

  /** Every string is storable and the buffer's length fits a u32. */
  predicate Fits(items: seq<string>)
  {
    && (forall k :: 0 <= k < |items| ==> Storable(items[k]))
    && |Terminated(EncodeAll(items))| < U32Range
  }

  /** `write_string_list(fp, items, False)`, with the empty list written as
    * an empty buffer (the corrected writer; the bytes of any other list are
    * the source's). */
  function WriteTexts(items: seq<string>): Bytes
  {
    WriteTerminated(EncodeAll(items), false)
  }

  /** `read_string_list(fp, False)`. */
  function ReadTexts(s: Bytes): Result<(seq<string>, Bytes)>
  {
    var r :- ReadStringList(s, false);
    Ok((DecodeAll(r.0), r.1))
  }

  lemma TextsRoundTrip(items: seq<string>, rest: Bytes)
    requires Fits(items)
    ensures ReadTexts(WriteTexts(items) + rest) == Ok((items, rest))
  {
    var enc := EncodeAll(items);
    forall k | 0 <= k < |enc| ensures NulFree(enc[k]) {
      DecodeEncode(items[k]);
    }
    RoundTripTerminated(enc, false, rest);
    DecodeAllEncodeAll(items);
  }

  lemma DecodeAllEncodeAll(items: seq<string>)
    requires forall k :: 0 <= k < |items| ==> Storable(items[k])
    ensures DecodeAll(EncodeAll(items)) == items
  {
    forall k | 0 <= k < |items| ensures DecodeAll(EncodeAll(items))[k] == items[k] {
      DecodeEncode(items[k]);
    }
  }

  /** `np.array(xs, dtype='<u4')` as bytes: each number wraps modulo 2^32. */
  function U32s(xs: seq<nat>): (r: Bytes)
    ensures |r| == 4 * |xs|
  {
    if xs == [] then [] else U32(xs[0]) + U32s(xs[1..])
  }

  /** The numbers in a buffer of whole u32s. */
  function FromU32s(b: Bytes): (xs: seq<nat>)
    requires |b| % 4 == 0
    ensures |xs| == |b| / 4
  {
    if b == [] then [] else [FromU32(b[..4])] + FromU32s(b[4..])
  }

  /** `np.frombuffer(fp.read(4 * n), '<u4')`: the u32s in the next `4n`
    * bytes, fewer when the stream ends early; a partial u32 is a
    * ValueError. */
  function ReadU32s(s: Bytes, n: nat): (r: Result<(seq<nat>, Bytes)>)
    ensures r.Err? <==> Min(4 * n, |s|) % 4 != 0
    ensures r.Ok? ==> |r.value.0| <= n && |r.value.1| <= |s|
  {
    var m := Min(4 * n, |s|);
    if m % 4 != 0 then Err("ValueError") else Ok((FromU32s(s[..m]), s[m..]))
  }

  /** `int(np.frombuffer(fp.read(4), '<u4')[0])`: an empty read is an
    * IndexError. */
  function ReadU32(s: Bytes): (r: Result<(nat, Bytes)>)
    ensures r.Ok? ==> |s| >= 4 && r.value.1 == s[4..]
  {
    var a :- ReadU32s(s, 1);
    if a.0 == [] then Err("IndexError") else Ok((a.0[0], a.1))
  }

  /** Every number is a u32 as it stands. */
  predicate Below(xs: seq<nat>)
  {
    forall k :: 0 <= k < |xs| ==> xs[k] < U32Range
  }

  lemma {:induction false} FromU32sOf(xs: seq<nat>)
    requires Below(xs)
    ensures FromU32s(U32s(xs)) == xs
  {
    if xs != [] {
      var b := U32s(xs);
      assert b[..4] == U32(xs[0]) && b[4..] == U32s(xs[1..]);
      FromU32sOf(xs[1..]);
    }
  }

  lemma U32sRoundTrip(xs: seq<nat>, rest: Bytes)
    requires Below(xs)
    ensures ReadU32s(U32s(xs) + rest, |xs|) == Ok((xs, rest))
  {
    var s := U32s(xs) + rest;
    assert s[..4 * |xs|] == U32s(xs) && s[4 * |xs|..] == rest;
    FromU32sOf(xs);
  }

  lemma U32RoundTrip(x: nat, rest: Bytes)
    requires x < U32Range
    ensures ReadU32(U32(x) + rest) == Ok((x, rest))
  {
    assert U32s([x]) == U32(x) + U32s([]);
    U32sRoundTrip([x], rest);
  }

  /** A symbol list or a conflict list: a name and the names filed under
    * it. */
  type Group = (string, seq<string>)

  /** `[1 + len(v) ...]`: the number of names in each group. */
  function Counts(groups: seq<Group>): seq<nat>
  {
    seq(|groups|, i requires 0 <= i < |groups| => 1 + |groups[i].1|)
  }

  /** `[s for k, v in ... for s in [k] + v]`: the groups one after the
    * other. */
  function Flatten(groups: seq<Group>): seq<string>
  {
    if groups == [] then [] else [groups[0].0] + groups[0].1 + Flatten(groups[1..])
  }

  /** `xs[lo:hi]`, with Python's clamping to the list's bounds. */
  function Slice<T>(xs: seq<T>, lo: nat, hi: nat): (r: seq<T>)
    ensures lo <= hi <= |xs| ==> r == xs[lo..hi]
    ensures hi <= lo ==> r == []
  {
    var a := Min(lo, |xs|);
    var b := Min(hi, |xs|);
    if b <= a then [] else xs[a..b]
  }

  /** The reading loop: `n` groups cut from `flat` from position `k` on,
    * the next taking `counts[0]` names (its name and the rest); a missing
    * name or count is an IndexError. */
  function Regroup(n: nat, counts: seq<nat>, flat: seq<string>, k: nat): Result<seq<Group>>
    decreases n
  {
    if n == 0 then Ok([])
    else if k >= |flat| || counts == [] then Err("IndexError")
    else
      var rest :- Regroup(n - 1, counts[1..], flat, k + counts[0]);
      Ok([(flat[k], Slice(flat, k + 1, k + counts[0]))] + rest)
  }

  /** Cutting the flattened groups by their counts gives the groups back. */
  lemma {:induction false} RegroupFlatten(groups: seq<Group>, pre: seq<string>)
    ensures Regroup(|groups|, Counts(groups), pre + Flatten(groups), |pre|) == Ok(groups)
  {
    if groups != [] {
      var g := groups[0];
      var c := Counts(groups);
      var flat := pre + Flatten(groups);
      var pre' := pre + [g.0] + g.1;
      Reassoc(pre, [g.0] + g.1, Flatten(groups[1..]));
      Reassoc(pre, [g.0], g.1);
      assert c[1..] == Counts(groups[1..]);
      RegroupFlatten(groups[1..], pre');
      assert flat[|pre|] == g.0;
      assert flat[|pre| + 1..|pre| + c[0]] == g.1;
      RegroupStep(|groups|, c, flat, |pre|);
      assert groups == [g] + groups[1..];
    }
  }

  /** One turn of the loop: the next group in front of the rest. */
  lemma RegroupStep(n: nat, counts: seq<nat>, flat: seq<string>, k: nat)
    requires n > 0 && k < |flat| && counts != []
    ensures Regroup(n, counts, flat, k)
            == Prepend([(flat[k], Slice(flat, k + 1, k + counts[0]))], Regroup(n - 1, counts[1..], flat, k + counts[0]))
  {
  }

  lemma PrependTwice(a: seq<Group>, b: seq<Group>, r: Result<seq<Group>>)
    ensures Prepend(a, Prepend(b, r)) == Prepend(a + b, r)
  {
    if r.Ok? {
      Reassoc(a, b, r.value);
    }
  }

  /** The groups read so far in front of the outcome of the rest. */
  function Prepend(groups: seq<Group>, r: Result<seq<Group>>): Result<seq<Group>>
  {
    if r.Ok? then Ok(groups + r.value) else r
  }

  /** The loop of the reader that cuts a list of names into `n` groups. */
  method ReadGroups(n: nat, counts: seq<nat>, flat: seq<string>) returns (r: Result<seq<Group>>)
    ensures r == Regroup(n, counts, flat, 0)
  {
    var groups: seq<Group> := [];
    var k: nat := 0;
    assert counts[0..] == counts;
    assert Prepend([], Regroup(n, counts, flat, 0)) == Regroup(n, counts, flat, 0) by {
      var r := Regroup(n, counts, flat, 0);
      if r.Ok? {
        assert [] + r.value == r.value;
      }
    }
    for i := 0 to n
      invariant i <= |counts|
      invariant Regroup(n, counts, flat, 0) == Prepend(groups, Regroup(n - i, counts[i..], flat, k))
    {
      if k >= |flat| || i >= |counts| {
        return Err("IndexError");
      }
      var g := (flat[k], Slice(flat, k + 1, k + counts[i]));
      assert counts[i..][1..] == counts[i + 1..];
      RegroupStep(n - i, counts[i..], flat, k);
      PrependTwice(groups, [g], Regroup(n - i - 1, counts[i + 1..], flat, k + counts[i]));
      groups := groups + [g];
      k := k + counts[i];
    }
    assert groups + [] == groups;
    return Ok(groups);
  }

  /** The names of the groups. */
  function Heads(groups: seq<Group>): seq<string>
  {
    seq(|groups|, i requires 0 <= i < |groups| => groups[i].0)
  }

  /** The dictionary the loop fills: a later group overwrites an earlier
    * one of the same name. */
  function Dict(groups: seq<Group>): (m: map<string, seq<string>>)
    ensures forall x :: x in m <==> x in Heads(groups)
  {
    if groups == [] then map[]
    else
      var init := groups[..|groups| - 1];
      assert Heads(groups) == Heads(init) + [groups[|groups| - 1].0];
      Dict(init)[groups[|groups| - 1].0 := groups[|groups| - 1].1]
  }

  /** With distinct names each group is its name's entry. */
  lemma {:induction false} DictOfDistinct(groups: seq<Group>, i: nat)
    requires Distinct(Heads(groups)) && i < |groups|
    ensures groups[i].0 in Dict(groups) && Dict(groups)[groups[i].0] == groups[i].1
  {
    assert Heads(groups)[i] == groups[i].0;
    var last := |groups| - 1;
    var init := groups[..last];
    if i < last {
      assert Heads(init) == Heads(groups)[..last];
      assert Heads(groups)[i] != Heads(groups)[last];
      DictOfDistinct(init, i);
    }
  }

  function Members(xs: seq<string>): set<string>
  {
    set x | x in xs
  }

  /** `conflict[smb] = set(...)`: the dictionary with each list made a
    * set. */
  function SetDict(groups: seq<Group>): map<string, set<string>>
  {
    var d := Dict(groups);
    map x | x in d :: Members(d[x])
  }

  /** `symbols` with each symbol's aliases, as the writer stores them. */
  function SymbolGroups(symbols: seq<string>, s2a: map<string, seq<string>>): seq<Group>
    requires forall k :: 0 <= k < |symbols| ==> symbols[k] in s2a
  {
    seq(|symbols|, k requires 0 <= k < |symbols| => (symbols[k], s2a[symbols[k]]))
  }

  /** Reading the symbol groups back gives the symbols in order and the
    * dictionary of aliases. */
  lemma SymbolGroupsRead(symbols: seq<string>, s2a: map<string, seq<string>>)
    requires Distinct(symbols) && forall smb :: smb in s2a <==> smb in symbols
    ensures Heads(SymbolGroups(symbols, s2a)) == symbols
    ensures Dict(SymbolGroups(symbols, s2a)) == s2a
  {
    var g := SymbolGroups(symbols, s2a);
    assert Heads(g) == symbols;
    forall smb | smb in s2a ensures Dict(g)[smb] == s2a[smb] {
      var k :| 0 <= k < |symbols| && symbols[k] == smb;
      DictOfDistinct(g, k);
    }
  }

  /** `l` is an order in which `iteritems` may list `c`: each name once,
    * with the members of its set listed once each. */
  predicate Lists(l: seq<Group>, c: map<string, set<string>>)
  {
    && Distinct(Heads(l))
    && (forall i :: 0 <= i < |l| ==> Distinct(l[i].1))
    && SetDict(l) == c
  }

  lemma {:induction false} DistinctCard(xs: seq<string>)
    requires Distinct(xs)
    ensures |Members(xs)| == |xs|
  {
    if xs != [] {
      var init := xs[..|xs| - 1];
      var x := xs[|xs| - 1];
      assert Members(xs) == Members(init) + {x};
      assert x !in Members(init);
      DistinctCard(init);
    }
  }

  /** A listing of a dictionary has one group per key. */
  lemma ListsCount(l: seq<Group>, c: map<string, set<string>>)
    requires Lists(l, c)
    ensures |c| == |l|
  {
    assert c.Keys == Members(Heads(l));
    DistinctCard(Heads(l));
  }

  /** A conflict table: its size, the group counts and the names of the
    * groups as one string list. */
  function WriteConflicts(c: map<string, set<string>>, l: seq<Group>): Bytes
    requires Lists(l, c)
  {
    U32(|c|) + (U32s(Counts(l)) + WriteTexts(Flatten(l)))
  }

  /** The counts, the string list and the `n` groups cut from it. */
  function ReadConflictLists(n: nat, s: Bytes): Result<(map<string, set<string>>, Bytes)>
  {
    var counts :- ReadU32s(s, n);
    var flat :- ReadTexts(counts.1);
    var groups :- Regroup(n, counts.0, flat.0, 0);
    Ok((SetDict(groups), flat.1))
  }

  /** A conflict table as the source reads it: an empty table is read as
    * its size alone, though the writer also stored an (empty) string list
    * after it. */
  function ReadConflictsAsWritten(s: Bytes): Result<(map<string, set<string>>, Bytes)>
  {
    var n :- ReadU32(s);
    if n.0 == 0 then Ok((map[], n.1)) else ReadConflictLists(n.0, n.1)
  }

  /** A conflict table read in the layout it was written in: the counts and
    * the string list follow the size even when it is 0. */
  function ReadConflicts(s: Bytes): Result<(map<string, set<string>>, Bytes)>
  {
    var n :- ReadU32(s);
    ReadConflictLists(n.0, n.1)
  }

  /** The bytes the source writes for an empty conflict table: the size 0,
    * no counts, and `write_string_list` of the empty list. */
  function EmptyTableAsWritten(): Bytes
  {
    U32(0) + U32s([]) + WriteStringList([], false)
  }

  /** With both conflict tables empty, the first is read as its size alone,
    * so the second is read from the first one's string list: it comes back
    * as the table `{"": set()}`. */
  lemma EmptyConflictsMisread()
    ensures var s := EmptyTableAsWritten() + EmptyTableAsWritten();
            && ReadConflictsAsWritten(s) == Ok((map[], s[4..]))
            && ReadConflictsAsWritten(s[4..]) == Ok((map["" := {}], []))
  {
    var s3: Bytes := [0, 1, 0, 0, 0, 0];
    var s2 := U32(0) + s3;
    var s1 := U32(1) + s2;
    TwoEmptyTables();
    U32RoundTrip(0, s1);
    U32RoundTrip(1, s2);
    assert U32s([0]) == U32(0) + U32s([]);
    U32sRoundTrip([0], s3);
    MisreadList();
    MisreadGroups();
  }

  /** The bytes of two empty tables, cut where the reader cuts them. */
  lemma TwoEmptyTables()
    ensures EmptyTableAsWritten() + EmptyTableAsWritten() == U32(0) + (U32(1) + (U32(0) + [0, 1, 0, 0, 0, 0]))
  {
    EmptyListReadsAsOneEmptyString(false);
    SmallU32s();
    assert EmptyTableAsWritten() == [0, 0, 0, 0] + [] + ([] + [1, 0, 0, 0] + [NUL]);
  }

  lemma SmallU32s()
    ensures U32(0) == [0, 0, 0, 0] && U32(1) == [1, 0, 0, 0]
  {
  }

  /** A buffer announced as 256 bytes long of which two are left. */
  lemma MisreadList()
    ensures ReadTexts([0, 1, 0, 0, 0, 0]) == Ok((["", ""], []))
  {
    var s3: Bytes := [0, 1, 0, 0, 0, 0];
    assert s3[..4] == [0, 1, 0, 0] && FromU32([0, 1, 0, 0]) == 256;
    assert s3[4..6] == [0, 0];
    assert Split([0, 0], NUL) == [[]] + Split([0], NUL);
    assert Split([0], NUL) == [[]] + Split([], NUL);
    var pieces: seq<Bytes> := [[], [], []];
    assert Split(s3[4..6], NUL) == pieces;
    assert Min(4 + 256, |s3|) == 6 && s3[6..] == [];
    assert pieces[..2] == [[], []];
    assert ReadStringList(s3, false) == Ok(([[], []], []));
    assert DecodeAll([[], []]) == ["", ""];
  }

  lemma MisreadGroups()
    ensures Regroup(1, [0], ["", ""], 0) == Ok([("", [])])
    ensures SetDict([("", [])]) == map["" := {}]
  {
    var groups: seq<Group> := [("", [])];
    var flat := ["", ""];
    assert [0][1..] == [];
    assert Regroup(0, [], flat, 0) == Ok([]);
    assert Slice(flat, 1, 0) == [];
    assert [("", Slice(flat, 1, 0))] + [] == groups;
    assert groups[..0] == [];
    assert Dict(groups) == map["" := []];
    assert Members([]) == {};
  }

  lemma Reassoc<T>(a: seq<T>, b: seq<T>, c: seq<T>)
    ensures (a + b) + c == a + (b + c)
  {
  }

  /** Every conflict table, the empty one included, reads back as written
    * and leaves the rest of the stream. */
  lemma ConflictsRoundTrip(c: map<string, set<string>>, l: seq<Group>, rest: Bytes)
    requires Lists(l, c) && |l| < U32Range && Below(Counts(l)) && Fits(Flatten(l))
    ensures ReadConflicts(WriteConflicts(c, l) + rest) == Ok((c, rest))
  {
    ListsCount(l, c);
    var texts := WriteTexts(Flatten(l));
    var tail := U32s(Counts(l)) + (texts + rest);
    Reassoc(U32s(Counts(l)), texts, rest);
    Reassoc(U32(|l|), U32s(Counts(l)) + texts, rest);
    U32RoundTrip(|l|, tail);
    ConflictListsRoundTrip(c, l, rest);
  }

  lemma ConflictListsRoundTrip(c: map<string, set<string>>, l: seq<Group>, rest: Bytes)
    requires Lists(l, c) && Below(Counts(l)) && Fits(Flatten(l))
    ensures ReadConflictLists(|l|, U32s(Counts(l)) + (WriteTexts(Flatten(l)) + rest)) == Ok((c, rest))
  {
    var texts := WriteTexts(Flatten(l));
    U32sRoundTrip(Counts(l), texts + rest);
    TextsRoundTrip(Flatten(l), rest);
    RegroupFlatten(l, []);
    assert [] + Flatten(l) == Flatten(l);
  }

  /** The index as read: the gene_info file name, its checksum, the
    * taxonomy id and the tables of `_parse_gene_info`. */
  datatype Index = Index(file: string, checksum: nat, tax: nat, info: GeneInfo)

  /** `np.array(xs, dtype='<u4')` of Python integers: each wraps modulo
    * 2^32. */
  function Wrapped(xs: seq<int>): seq<nat>
  {
    seq(|xs|, k requires 0 <= k < |xs| => (xs[k] % U32Range) as nat)
  }

  /** The descriptions and the two conflict tables. */
  function WriteTables(descriptions: seq<string>, c1: map<string, set<string>>, l1: seq<Group>,
                       c2: map<string, set<string>>, l2: seq<Group>): Bytes
    requires Lists(l1, c1) && Lists(l2, c2)
  {
    WriteTexts(descriptions) + (WriteConflicts(c1, l1) + WriteConflicts(c2, l2))
  }

  /** The symbol lists: their counts, then the lists as one string list. */
  function WriteNames(info: GeneInfo, l1: seq<Group>, l2: seq<Group>): Bytes
    requires forall k :: 0 <= k < |info.symbols| ==> info.symbols[k] in info.symbol2aliases
    requires Lists(l1, info.conflict1) && Lists(l2, info.conflict2)
  {
    var groups := SymbolGroups(info.symbols, info.symbol2aliases);
    U32s(Counts(groups)) + (WriteTexts(Flatten(groups)) +
      WriteTables(info.descriptions, info.conflict1, l1, info.conflict2, l2))
  }

  /** The gene table after the taxonomy id: the count, ids, offsets, symbol
    * lists, descriptions and the two conflict tables. */
  function WriteGenes(info: GeneInfo, l1: seq<Group>, l2: seq<Group>): Bytes
    requires forall k :: 0 <= k < |info.symbols| ==> info.symbols[k] in info.symbol2aliases
    requires Lists(l1, info.conflict1) && Lists(l2, info.conflict2)
  {
    U32(|info.geneIds|) + (U32s(Wrapped(info.geneIds)) + (U32s(info.offsets) + WriteNames(info, l1, l2)))
  }

  /** `_write_index_1200900292`: the separator, the magic, the metadata
    * list, the checksum, the taxonomy id and the gene table; `l1` and `l2`
    * are the orders in which the conflict tables are listed. */
  function WriteIndex(file: string, checksum: int, tax: int, info: GeneInfo, l1: seq<Group>, l2: seq<Group>): Bytes
    requires forall k :: 0 <= k < |info.symbols| ==> info.symbols[k] in info.symbol2aliases
    requires Lists(l1, info.conflict1) && Lists(l2, info.conflict2)
  {
    Encode(Separator) + (U32(Magic) + (WriteTexts([file, UrlFormat]) +
      (U32(checksum % U32Range) + (U32(tax % U32Range) + WriteGenes(info, l1, l2)))))
  }

  /** The descriptions and the two conflict tables. */
  function ReadTables(s: Bytes): Result<(seq<string>, map<string, set<string>>, map<string, set<string>>)>
  {
    var descriptions :- ReadTexts(s);
    var c1 :- ReadConflicts(descriptions.1);
    var c2 :- ReadConflicts(c1.1);
    Ok((descriptions.0, c1.0, c2.0))
  }

  /** The symbol lists of `n` genes, cut into groups before the rest is
    * read, then the descriptions and conflict tables. */
  function ReadNames(n: nat, s: Bytes): Result<GeneInfo>
  {
    var counts :- ReadU32s(s, n);
    var flat :- ReadTexts(counts.1);
    var groups :- Regroup(n, counts.0, flat.0, 0);
    var tables :- ReadTables(flat.1);
    Ok(GeneInfo([], [], Heads(groups), Dict(groups), tables.0, tables.1, tables.2))
  }

  /** The gene table. */
  function ReadGenes(s: Bytes): Result<GeneInfo>
  {
    var n :- ReadU32(s);
    var ids :- ReadU32s(n.1, n.0);
    var offsets :- ReadU32s(ids.1, n.0 + 1);
    var names :- ReadNames(n.0, offsets.1);
    Ok(names.(geneIds := ids.0, offsets := offsets.0))
  }

  /** `_read_index_1200900292`: the magic is read before the header is
    * checked, so a stream too short for it fails as numpy does; a wrong
    * separator or magic is a RuntimeError and metadata other than two
    * strings a ValueError. Bytes after the index are ignored. The conflict
    * tables are read with the corrected `ReadConflicts` (through
    * `ReadTables`), not with `ReadConflictsAsWritten`, so the round trips
    * below are those of the corrected reader; the two readers differ only
    * on an empty table (see `EmptyConflictsMisread`). */
  function ReadIndex(s: Bytes): Result<Index>
  {
    var header := s[..Min(8, |s|)];
    var m :- ReadU32(s[Min(8, |s|)..]);
    if header != Encode(Separator) || m.0 != Magic then Err("RuntimeError")
    else ReadBody(m.1)
  }

  /** What follows the magic: the metadata, which must be two strings, the
    * checksum, the taxonomy id and the gene table. */
  function ReadBody(s: Bytes): Result<Index>
  {
    var meta :- ReadTexts(s);
    if |meta.0| != 2 then Err("ValueError")
    else
      var checksum :- ReadU32(meta.1);
      var tax :- ReadU32(checksum.1);
      var info :- ReadGenes(tax.1);
      Ok(Index(meta.0[0], checksum.0, tax.0, info))
  }

  /** What the layout holds without loss: one offset more than there are
    * genes, ids and offsets that are u32s, one symbol per gene, distinct
    * symbols each with its alias list, byte strings, and buffer lengths
    * and counts that fit a u32; `l1` and `l2` list the conflict tables. */
  ghost predicate Writable(info: GeneInfo, l1: seq<Group>, l2: seq<Group>)
  {
    && |info.geneIds| < U32Range
    && |info.symbols| == |info.geneIds| && |info.offsets| == |info.geneIds| + 1
    && (forall k :: 0 <= k < |info.geneIds| ==> 0 <= info.geneIds[k] < U32Range)
    && Below(info.offsets)
    && Distinct(info.symbols)
    && (forall smb :: smb in info.symbol2aliases <==> smb in info.symbols)
    && Below(Counts(SymbolGroups(info.symbols, info.symbol2aliases)))
    && Fits(Flatten(SymbolGroups(info.symbols, info.symbol2aliases)))
    && Fits(info.descriptions)
    && Lists(l1, info.conflict1) && |l1| < U32Range && Below(Counts(l1)) && Fits(Flatten(l1))
    && Lists(l2, info.conflict2) && |l2| < U32Range && Below(Counts(l2)) && Fits(Flatten(l2))
  }

  lemma TablesRoundTrip(info: GeneInfo, l1: seq<Group>, l2: seq<Group>)
    requires Writable(info, l1, l2)
    ensures ReadTables(WriteTables(info.descriptions, info.conflict1, l1, info.conflict2, l2))
            == Ok((info.descriptions, info.conflict1, info.conflict2))
  {
    var c2b := WriteConflicts(info.conflict2, l2);
    var c1b := WriteConflicts(info.conflict1, l1) + c2b;
    TextsRoundTrip(info.descriptions, c1b);
    ConflictsRoundTrip(info.conflict1, l1, c2b);
    ConflictsRoundTrip(info.conflict2, l2, []);
    assert c2b + [] == c2b;
  }

  lemma NamesRoundTrip(info: GeneInfo, l1: seq<Group>, l2: seq<Group>)
    requires Writable(info, l1, l2)
    ensures ReadNames(|info.symbols|, WriteNames(info, l1, l2))
            == Ok(GeneInfo([], [], info.symbols, info.symbol2aliases, info.descriptions, info.conflict1, info.conflict2))
  {
    var groups := SymbolGroups(info.symbols, info.symbol2aliases);
    var db := WriteTables(info.descriptions, info.conflict1, l1, info.conflict2, l2);
    var fb := WriteTexts(Flatten(groups)) + db;
    U32sRoundTrip(Counts(groups), fb);
    TextsRoundTrip(Flatten(groups), db);
    RegroupFlatten(groups, []);
    assert [] + Flatten(groups) == Flatten(groups);
    SymbolGroupsRead(info.symbols, info.symbol2aliases);
    TablesRoundTrip(info, l1, l2);
  }

  lemma WrappedInRange(xs: seq<int>)
    requires forall k :: 0 <= k < |xs| ==> 0 <= xs[k] < U32Range
    ensures Wrapped(xs) == xs
  {
    forall k | 0 <= k < |xs| ensures Wrapped(xs)[k] == xs[k] {
    }
  }

  /** The gene table reads back as written. */
  lemma GenesRoundTrip(info: GeneInfo, l1: seq<Group>, l2: seq<Group>)
    requires Writable(info, l1, l2)
    ensures ReadGenes(WriteGenes(info, l1, l2)) == Ok(info)
  {
    var n := |info.geneIds|;
    var ob := U32s(info.offsets) + WriteNames(info, l1, l2);
    var ib := U32s(Wrapped(info.geneIds)) + ob;
    U32RoundTrip(n, ib);
    WrappedInRange(info.geneIds);
    U32sRoundTrip(Wrapped(info.geneIds), ob);
    U32sRoundTrip(info.offsets, WriteNames(info, l1, l2));
    NamesRoundTrip(info, l1, l2);
  }

  lemma Printable(s: string)
    requires forall c :: c in s ==> ' ' <= c <= '~'
    ensures Storable(s)
  {
    forall k | 0 <= k < |s| ensures 0 < s[k] as int < 256 {
      assert s[k] in s;
    }
  }

  lemma UrlFormatStorable()
    ensures Storable(UrlFormat)
  {
    UrlHostStorable();
    UrlQueryStorable();
    StorableConcat("http://www.ncbi.nlm.nih.gov" + "/sites/entrez?db=gene",
                   "&cmd=Retrieve&dopt=" + "Graphics&list_uids=%ld");
  }

  lemma UrlHostStorable()
    ensures Storable("http://www.ncbi.nlm.nih.gov" + "/sites/entrez?db=gene")
  {
    Printable("http://www.ncbi.nlm.nih.gov");
    Printable("/sites/entrez?db=gene");
    StorableConcat("http://www.ncbi.nlm.nih.gov", "/sites/entrez?db=gene");
  }

  lemma UrlQueryStorable()
    ensures Storable("&cmd=Retrieve&dopt=" + "Graphics&list_uids=%ld")
  {
    Printable("&cmd=Retrieve&dopt=");
    Printable("Graphics&list_uids=%ld");
    StorableConcat("&cmd=Retrieve&dopt=", "Graphics&list_uids=%ld");
  }

  lemma StorableConcat(a: string, b: string)
    requires Storable(a) && Storable(b)
    ensures Storable(a + b)
  {
    forall k | 0 <= k < |a + b| ensures 0 < (a + b)[k] as int < 256 {
      if k >= |a| {
        assert (a + b)[k] == b[k - |a|];
      }
    }
  }

  lemma MetadataFits(file: string)
    requires Storable(file) && |file| + |UrlFormat| + 2 < U32Range
    ensures Fits([file, UrlFormat])
  {
    UrlFormatStorable();
    var enc := EncodeAll([file, UrlFormat]);
    assert |enc[0]| == |file| && |enc[1]| == |UrlFormat| && enc[1..][1..] == [];
    assert |Terminated(enc[1..])| == |UrlFormat| + 1;
    assert |Terminated(enc)| == |file| + |UrlFormat| + 2;
  }

  lemma AsU32(x: int)
    requires 0 <= x < U32Range
    ensures x % U32Range == x
  {
  }

  lemma HeaderSplit(rest: Bytes)
    ensures var s := Encode(Separator) + (U32(Magic) + rest);
            s[..Min(8, |s|)] == Encode(Separator) && s[Min(8, |s|)..] == U32(Magic) + rest
  {
    assert |Encode(Separator)| == 8;
  }

  lemma BodyRoundTrip(file: string, checksum: nat, tax: nat, info: GeneInfo, l1: seq<Group>, l2: seq<Group>)
    requires Storable(file) && |file| + |UrlFormat| + 2 < U32Range
    requires checksum < U32Range && tax < U32Range
    requires Writable(info, l1, l2)
    ensures ReadBody(WriteTexts([file, UrlFormat]) + (U32(checksum) + (U32(tax) + WriteGenes(info, l1, l2))))
            == Ok(Index(file, checksum, tax, info))
  {
    var meta := [file, UrlFormat];
    MetadataFits(file);
    var gb := U32(tax) + WriteGenes(info, l1, l2);
    var tb := U32(checksum) + gb;
    TextsRoundTrip(meta, tb);
    U32RoundTrip(checksum, gb);
    U32RoundTrip(tax, WriteGenes(info, l1, l2));
    GenesRoundTrip(info, l1, l2);
  }

  /** Writing an index and reading it back gives the file name, checksum,
    * taxonomy id and tables that were written. */
  lemma IndexRoundTrip(file: string, checksum: int, tax: int, info: GeneInfo, l1: seq<Group>, l2: seq<Group>)
    requires Storable(file) && |file| + |UrlFormat| + 2 < U32Range
    requires 0 <= checksum < U32Range && 0 <= tax < U32Range
    requires Writable(info, l1, l2)
    ensures ReadIndex(WriteIndex(file, checksum, tax, info, l1, l2)) == Ok(Index(file, checksum, tax, info))
  {
    AsU32(checksum);
    AsU32(tax);
    var mb := WriteTexts([file, UrlFormat]) + (U32(checksum) + (U32(tax) + WriteGenes(info, l1, l2)));
    HeaderSplit(mb);
    U32RoundTrip(Magic, mb);
    BodyRoundTrip(file, checksum, tax, info, l1, l2);
  }
}
