/** The binary layout of the extended term database that standalone
  * SaddleSum reads (common/db_parsers/etermdb.py, `write_header` and
  * `write_namespace`). The header names the database and its namespaces; a
  * namespace section stores, term by term, the slim flags, the hits to
  * genes, the ids, the descriptions and the relationships to parents, each
  * field for all terms before the next field. String lists are written as
  * in common/utils/filesys.py (the bytes of every non-empty list are the
  * source's; the empty list is the corrected one of `Filesys`), numbers as
  * little-endian u32s. The readers here are the layout the section
  * comments describe, read back; they are the partners of the writers. */
module EtermLayout {
  import opened Wrappers
  import opened Filesys
  import opened NcbiIndex

  /** `EXTERMDB_MAGIC`, `KEGGTERMDB_MAGIC` and `GOTERMDB_MAGIC`: CRC32s of
    * fixed names, the last two stored as negative Python integers. */
  const ExtermdbMagic: int := 1644632861
  const KeggTermdbMagic: int := -2030228893
  const GoTermdbMagic: int := -2107916768
  const HeaderSeparator: string := "EXTERMDB"
  const SectionSeparator: string := "TERMDBNS"

  /** `np.array([x], dtype='<u4')`: a negative magic number wraps modulo
    * 2^32 as the unsigned cast does. */
  function Magic32(x: int): (r: Bytes)
    ensures |r| == 4 && FromU32(r) == x % U32Range
  {
    U32(x % U32Range)
  }

  /** `write_string_list(fp, items, True)`: the item count, then the list. */
  function WriteCountedTexts(items: seq<string>): Bytes
  {
    WriteTerminated(EncodeAll(items), true)
  }

  /** `read_string_list(fp, True)`. */
  function ReadCountedTexts(s: Bytes): Result<(seq<string>, Bytes)>
  {
    var r :- ReadStringList(s, true);
    Ok((DecodeAll(r.0), r.1))
  }

  lemma CountedTextsRoundTrip(items: seq<string>, rest: Bytes)
    requires Fits(items)
    ensures ReadCountedTexts(WriteCountedTexts(items) + rest) == Ok((items, rest))
  {
    var enc := EncodeAll(items);
    forall k | 0 <= k < |enc| ensures NulFree(enc[k]) {
      DecodeEncode(items[k]);
    }
    RoundTripTerminated(enc, true, rest);
    DecodeAllEncodeAll(items);
  }

  // ------------------------------------------------------------------
  // The header
  // ------------------------------------------------------------------

  /** `write_header`: the separator, the version magic, the database name
    * as a one-string list without a count, the namespaces with their
    * count. */
  function Header(dbName: string, namespaces: seq<string>): Bytes
  {
    Encode(HeaderSeparator) + (Magic32(ExtermdbMagic) + (WriteTexts([dbName]) + WriteCountedTexts(namespaces)))
  }

  /** The header read back: a wrong separator or magic, or a name list
    * that is not one name, is refused. */
  function ReadHeader(s: Bytes): Result<(string, seq<string>, Bytes)>
  {
    if |s| < 8 || s[..8] != Encode(HeaderSeparator) then Err("separator")
    else
      var magic :- ReadU32(s[8..]);
      if magic.0 != ExtermdbMagic then Err("magic")
      else
        var name :- ReadTexts(magic.1);
        if |name.0| != 1 then Err("name")
        else
          var ns :- ReadCountedTexts(name.1);
          Ok((name.0[0], ns.0, ns.1))
  }

  lemma Assoc4(a: Bytes, b: Bytes, c: Bytes, d: Bytes, rest: Bytes)
    ensures (a + (b + (c + d))) + rest == a + (b + (c + (d + rest)))
  {
  }

  /** The header reads back as written, whatever follows it. */
  lemma HeaderRoundTrip(dbName: string, namespaces: seq<string>, rest: Bytes)
    requires Fits([dbName]) && Fits(namespaces)
    ensures ReadHeader(Header(dbName, namespaces) + rest) == Ok((dbName, namespaces, rest))
  {
    var sep, mg, nm, nss := Encode(HeaderSeparator), Magic32(ExtermdbMagic), WriteTexts([dbName]), WriteCountedTexts(namespaces);
    var s := Header(dbName, namespaces) + rest;
    Assoc4(sep, mg, nm, nss, rest);
    assert s[..8] == sep && s[8..] == mg + (nm + (nss + rest));
    U32RoundTrip(ExtermdbMagic, nm + (nss + rest));
    TextsRoundTrip([dbName], nss + rest);
    CountedTextsRoundTrip(namespaces, rest);
  }

  // ------------------------------------------------------------------
  // Lists of lists of numbers
  // ------------------------------------------------------------------

  /** `[len(xs) for xs in xss]`. */
  function Lengths<T>(xss: seq<seq<T>>): (r: seq<nat>)
    ensures |r| == |xss| && forall k :: 0 <= k < |xss| ==> r[k] == |xss[k]|
  {
    seq(|xss|, k requires 0 <= k < |xss| => |xss[k]|)
  }

  /** The lists one after the other. */
  function Flat<T>(xss: seq<seq<T>>): (r: seq<T>)
    ensures |r| == Sum(Lengths(xss))
  {
    if xss == [] then []
    else
      assert Lengths(xss[1..]) == Lengths(xss)[1..];
      xss[0] + Flat(xss[1..])
  }

  function Sum(xs: seq<nat>): nat
  {
    if xs == [] then 0 else xs[0] + Sum(xs[1..])
  }

  /** The flat list cut into consecutive pieces of the given lengths. */
  function Regroup<T>(flat: seq<T>, counts: seq<nat>): (r: seq<seq<T>>)
    requires Sum(counts) == |flat|
    ensures Lengths(r) == counts
  {
    if counts == [] then []
    else [flat[..counts[0]]] + Regroup(flat[counts[0]..], counts[1..])
  }

  lemma {:induction false} RegroupFlat<T>(xss: seq<seq<T>>)
    ensures Regroup(Flat(xss), Lengths(xss)) == xss
  {
    if xss != [] {
      var f := Flat(xss);
      assert f[..|xss[0]|] == xss[0] && f[|xss[0]|..] == Flat(xss[1..]);
      assert Lengths(xss)[1..] == Lengths(xss[1..]);
      RegroupFlat(xss[1..]);
    }
  }

  lemma {:induction false} FlatSnoc<T>(xss: seq<seq<T>>, xs: seq<T>)
    ensures Flat(xss + [xs]) == Flat(xss) + xs
  {
    if xss == [] {
      assert [xs][1..] == [];
    } else {
      assert (xss + [xs])[1..] == xss[1..] + [xs];
      FlatSnoc(xss[1..], xs);
    }
  }

  lemma {:induction false} U32sAppend(a: seq<nat>, b: seq<nat>)
    ensures U32s(a + b) == U32s(a) + U32s(b)
  {
    if a != [] {
      assert (a + b)[1..] == a[1..] + b;
      U32sAppend(a[1..], b);
    } else {
      assert a + b == b;
    }
  }

  /** The parent indices of each relationship list. */
  function Parents(rels: seq<seq<(nat, nat)>>): (r: seq<seq<nat>>)
    ensures Lengths(r) == Lengths(rels)
  {
    seq(|rels|, k requires 0 <= k < |rels| => ParentsOf(rels[k]))
  }

  /** `[item[0] for item in rel_lst]`. */
  function ParentsOf(rel: seq<(nat, nat)>): (r: seq<nat>)
    ensures |r| == |rel| && forall j :: 0 <= j < |rel| ==> r[j] == rel[j].0
  {
    seq(|rel|, j requires 0 <= j < |rel| => rel[j].0)
  }

  /** `[item[1] for item in rel_lst]`. */
  function EdgeTypesOf(rel: seq<(nat, nat)>): (r: seq<nat>)
    ensures |r| == |rel| && forall j :: 0 <= j < |rel| ==> r[j] == rel[j].1
  {
    seq(|rel|, j requires 0 <= j < |rel| => rel[j].1)
  }

  /** The edge type indices of each relationship list. */
  function EdgeTypes(rels: seq<seq<(nat, nat)>>): (r: seq<seq<nat>>)
    ensures Lengths(r) == Lengths(rels)
  {
    seq(|rels|, k requires 0 <= k < |rels| => EdgeTypesOf(rels[k]))
  }

  /** Two lists of lists of the same shape, paired element by element. */
  function Zip(ps: seq<seq<nat>>, ts: seq<seq<nat>>): (r: seq<seq<(nat, nat)>>)
    requires Lengths(ps) == Lengths(ts)
  {
    seq(|ps|, k requires 0 <= k < |ps| =>
      assert |ps[k]| == Lengths(ps)[k] == Lengths(ts)[k] == |ts[k]|;
      seq(|ps[k]|, j requires 0 <= j < |ps[k]| => (ps[k][j], ts[k][j])))
  }

  lemma ZipUnzips(rels: seq<seq<(nat, nat)>>)
    ensures Zip(Parents(rels), EdgeTypes(rels)) == rels
  {
    var z := Zip(Parents(rels), EdgeTypes(rels));
    assert |z| == |rels|;
    forall k | 0 <= k < |rels| ensures z[k] == rels[k] {
      assert |z[k]| == |rels[k]|;
    }
  }

  /** `np.frombuffer(fp.read(4 * n), '<u4')` where exactly `n` numbers
    * must be there. */
  function ReadExactly(s: Bytes, n: nat): (r: Result<(seq<nat>, Bytes)>)
    ensures r.Ok? ==> |r.value.0| == n
  {
    var r :- ReadU32s(s, n);
    if |r.0| != n then Err("truncated") else Ok(r)
  }

  lemma ExactlyRoundTrip(xs: seq<nat>, rest: Bytes)
    requires Below(xs)
    ensures ReadExactly(U32s(xs) + rest, |xs|) == Ok((xs, rest))
  {
    U32sRoundTrip(xs, rest);
  }

  // ------------------------------------------------------------------
  // A namespace section
  // ------------------------------------------------------------------

  /** The arguments of `write_namespace` after the version magic: the
    * names of the edge types, and per term its slim flag, hits, id,
    * description and (parent index, edge type index) pairs, then the
    * metadata strings. */
  datatype Section = Section(edgetypeNames: seq<string>, slimFlags: seq<nat>, termHits: seq<seq<nat>>,
                             termIds: seq<string>, descriptions: seq<string>,
                             relationships: seq<seq<(nat, nat)>>, metadata: seq<string>)

  /** A section the layout can carry: one hit list and one relationship
    * list per slim flag, every number a u32, every string list storable. */
  predicate WellFormed(sec: Section)
  {
    && |sec.termHits| == |sec.slimFlags| == |sec.relationships| < U32Range
    && Below(sec.slimFlags) && Below(Lengths(sec.termHits)) && Below(Flat(sec.termHits))
    && Below(Lengths(sec.relationships))
    && Below(Flat(Parents(sec.relationships))) && Below(Flat(EdgeTypes(sec.relationships)))
    && Fits(sec.edgetypeNames) && Fits(sec.termIds) && Fits(sec.descriptions) && Fits(sec.metadata)
  }

  /** The bytes of a section followed by `rest`: the separator, the magic,
    * the edge type names with their count, the number of terms M, the M
    * slim flags, the M hit counts then all hits, the ids, the
    * descriptions, the M parent counts then all parents then all edge
    * types, and the metadata. */
  function SectionThen(magic: int, sec: Section, rest: Bytes): Bytes
  {
    Encode(SectionSeparator) + (Magic32(magic) + (WriteCountedTexts(sec.edgetypeNames) +
    (U32(|sec.slimFlags|) + (U32s(sec.slimFlags) +
    (U32s(Lengths(sec.termHits)) + (U32s(Flat(sec.termHits)) +
    (WriteTexts(sec.termIds) + (WriteTexts(sec.descriptions) +
    (U32s(Lengths(sec.relationships)) + (U32s(Flat(Parents(sec.relationships))) +
    (U32s(Flat(EdgeTypes(sec.relationships))) + (WriteTexts(sec.metadata) + rest))))))))))))
  }

  /** What `write_namespace` writes: the pieces of `SectionThen` in the
    * order the writer appends them. */
  function SectionBytes(magic: int, sec: Section): Bytes
  {
    Encode(SectionSeparator) + Magic32(magic) + WriteCountedTexts(sec.edgetypeNames)
    + U32(|sec.slimFlags|) + U32s(sec.slimFlags)
    + U32s(Lengths(sec.termHits)) + U32s(Flat(sec.termHits))
    + WriteTexts(sec.termIds) + WriteTexts(sec.descriptions)
    + U32s(Lengths(sec.relationships)) + U32s(Flat(Parents(sec.relationships)))
    + U32s(Flat(EdgeTypes(sec.relationships))) + WriteTexts(sec.metadata)
  }

  /** A namespace section read back. */
  function ReadSection(s: Bytes): Result<(nat, Section, Bytes)>
  {
    if |s| < 8 || s[..8] != Encode(SectionSeparator) then Err("separator")
    else
      var magic :- ReadU32(s[8..]);
      var et :- ReadCountedTexts(magic.1);
      var m :- ReadU32(et.1);
      var flags :- ReadExactly(m.1, m.0);
      var counts :- ReadExactly(flags.1, m.0);
      var hits :- ReadExactly(counts.1, Sum(counts.0));
      var ids :- ReadTexts(hits.1);
      var descs :- ReadTexts(ids.1);
      var rcounts :- ReadExactly(descs.1, m.0);
      var parents :- ReadExactly(rcounts.1, Sum(rcounts.0));
      var types :- ReadExactly(parents.1, Sum(rcounts.0));
      var meta :- ReadTexts(types.1);
      var ps, ts := Regroup(parents.0, rcounts.0), Regroup(types.0, rcounts.0);
      Ok((magic.0, Section(et.0, flags.0, Regroup(hits.0, counts.0), ids.0, descs.0, Zip(ps, ts), meta.0), meta.1))
  }

  /** The bytes of a section, then more. */
  lemma SectionThenAppends(magic: int, sec: Section, rest: Bytes)
    ensures SectionBytes(magic, sec) + rest == SectionThen(magic, sec, rest)
  {
    var rels := sec.relationships;
    Reassociate(Encode(SectionSeparator), Magic32(magic), WriteCountedTexts(sec.edgetypeNames),
                U32(|sec.slimFlags|), U32s(sec.slimFlags),
                U32s(Lengths(sec.termHits)), U32s(Flat(sec.termHits)),
                WriteTexts(sec.termIds), WriteTexts(sec.descriptions),
                U32s(Lengths(rels)), U32s(Flat(Parents(rels))),
                U32s(Flat(EdgeTypes(rels))), WriteTexts(sec.metadata), rest);
  }

  /** Thirteen pieces appended from the left, then more, are the pieces
    * appended from the right onto the more. */
  lemma Reassociate(a0: Bytes, a1: Bytes, a2: Bytes, a3: Bytes, a4: Bytes, a5: Bytes, a6: Bytes,
                    a7: Bytes, a8: Bytes, a9: Bytes, a10: Bytes, a11: Bytes, a12: Bytes, rest: Bytes)
    ensures a0 + a1 + a2 + a3 + a4 + a5 + a6 + a7 + a8 + a9 + a10 + a11 + a12 + rest
         == a0 + (a1 + (a2 + (a3 + (a4 + (a5 + (a6 + (a7 + (a8 + (a9 + (a10 + (a11 + (a12 + rest))))))))))))
  {
    var l1 := a0 + a1;
    var l2 := l1 + a2;
    var l3 := l2 + a3;
    var l4 := l3 + a4;
    var l5 := l4 + a5;
    var l6 := l5 + a6;
    var l7 := l6 + a7;
    var l8 := l7 + a8;
    var l9 := l8 + a9;
    var l10 := l9 + a10;
    var l11 := l10 + a11;
    var r12 := a12 + rest;
    var r11 := a11 + r12;
    var r10 := a10 + r11;
    var r9 := a9 + r10;
    var r8 := a8 + r9;
    var r7 := a7 + r8;
    var r6 := a6 + r7;
    var r5 := a5 + r6;
    var r4 := a4 + r5;
    var r3 := a3 + r4;
    var r2 := a2 + r3;
    var r1 := a1 + r2;
    assert l11 + a12 + rest == l11 + r12;
    assert l11 + r12 == l10 + r11;
    assert l10 + r11 == l9 + r10;
    assert l9 + r10 == l8 + r9;
    assert l8 + r9 == l7 + r8;
    assert l7 + r8 == l6 + r7;
    assert l6 + r7 == l5 + r6;
    assert l5 + r6 == l4 + r5;
    assert l4 + r5 == l3 + r4;
    assert l3 + r4 == l2 + r3;
    assert l2 + r3 == l1 + r2;
    assert l1 + r2 == a0 + r1;
  }

  /** A well-formed section reads back as written, with its magic as a
    * u32, and leaves what follows it. */
  lemma SectionRoundTrip(magic: int, sec: Section, rest: Bytes)
    requires WellFormed(sec)
    ensures ReadSection(SectionBytes(magic, sec) + rest) == Ok((magic % U32Range, sec, rest))
  {
    SectionThenAppends(magic, sec, rest);
    var rels := sec.relationships;
    var m := |sec.slimFlags|;
    var t12 := WriteTexts(sec.metadata) + rest;
    var t11 := U32s(Flat(EdgeTypes(rels))) + t12;
    var t10 := U32s(Flat(Parents(rels))) + t11;
    var t9 := U32s(Lengths(rels)) + t10;
    var t8 := WriteTexts(sec.descriptions) + t9;
    var t7 := WriteTexts(sec.termIds) + t8;
    var t6 := U32s(Flat(sec.termHits)) + t7;
    var t5 := U32s(Lengths(sec.termHits)) + t6;
    var t4 := U32s(sec.slimFlags) + t5;
    var t3 := U32(m) + t4;
    var t2 := WriteCountedTexts(sec.edgetypeNames) + t3;
    var t1 := Magic32(magic) + t2;
    var s := Encode(SectionSeparator) + t1;
    assert s == SectionThen(magic, sec, rest);
    assert s[..8] == Encode(SectionSeparator) && s[8..] == t1;
    U32RoundTrip(magic % U32Range, t2);
    CountedTextsRoundTrip(sec.edgetypeNames, t3);
    U32RoundTrip(m, t4);
    ExactlyRoundTrip(sec.slimFlags, t5);
    assert |Lengths(sec.termHits)| == m;
    ExactlyRoundTrip(Lengths(sec.termHits), t6);
    ExactlyRoundTrip(Flat(sec.termHits), t7);
    TextsRoundTrip(sec.termIds, t8);
    TextsRoundTrip(sec.descriptions, t9);
    ExactlyRoundTrip(Lengths(rels), t10);
    assert Lengths(Parents(rels)) == Lengths(rels) == Lengths(EdgeTypes(rels));
    ExactlyRoundTrip(Flat(Parents(rels)), t11);
    ExactlyRoundTrip(Flat(EdgeTypes(rels)), t12);
    TextsRoundTrip(sec.metadata, rest);
    RegroupFlat(sec.termHits);
    RegroupFlat(Parents(rels));
    RegroupFlat(EdgeTypes(rels));
    ZipUnzips(rels);
  }

  /** `write_namespace`: writes the fields in turn, each list of lists as
    * one loop over the terms for the counts and another for the items. */
  method WriteNamespace(versionMagic: int, sec: Section) returns (out: Bytes)
    ensures out == SectionBytes(versionMagic, sec)
  {
    var hitCounts := WriteLengths(sec.termHits);
    var hits := WriteItems(sec.termHits);
    var relCounts := WriteLengths(sec.relationships);
    var parentBytes := WriteRelationColumn(sec.relationships, true);
    var typeBytes := WriteRelationColumn(sec.relationships, false);
    out := Encode(SectionSeparator) + Magic32(versionMagic);
    out := out + WriteCountedTexts(sec.edgetypeNames);
    out := out + U32(|sec.slimFlags|);
    out := out + U32s(sec.slimFlags);
    out := out + hitCounts + hits;
    out := out + WriteTexts(sec.termIds);
    out := out + WriteTexts(sec.descriptions);
    out := out + relCounts + parentBytes + typeBytes;
    out := out + WriteTexts(sec.metadata);
  }

  /** The loop writing `len(xs)` for each list. */
  method WriteLengths<T>(xss: seq<seq<T>>) returns (out: Bytes)
    ensures out == U32s(Lengths(xss))
  {
    out := [];
    for i := 0 to |xss|
      invariant out == U32s(Lengths(xss[..i]))
    {
      LengthsSnoc(xss, i);
      U32sAppend(Lengths(xss[..i]), [|xss[i]|]);
      out := out + U32(|xss[i]|);
    }
    assert xss[..|xss|] == xss;
  }

  /** The loop writing each list of numbers in turn. */
  method WriteItems(xss: seq<seq<nat>>) returns (out: Bytes)
    ensures out == U32s(Flat(xss))
  {
    out := [];
    for i := 0 to |xss|
      invariant out == U32s(Flat(xss[..i]))
    {
      assert xss[..i + 1] == xss[..i] + [xss[i]];
      FlatSnoc(xss[..i], xss[i]);
      U32sAppend(Flat(xss[..i]), xss[i]);
      out := out + U32s(xss[i]);
    }
    assert xss[..|xss|] == xss;
  }

  /** One of the last two loops of `write_namespace`: the parent indices
    * (`parents`) or the edge type indices of every relationship list. */
  method WriteRelationColumn(rels: seq<seq<(nat, nat)>>, parents: bool) returns (out: Bytes)
    ensures out == U32s(Flat(if parents then Parents(rels) else EdgeTypes(rels)))
  {
    ghost var col := if parents then Parents(rels) else EdgeTypes(rels);
    out := [];
    for i := 0 to |rels|
      invariant out == U32s(Flat(col[..i]))
    {
      var items := if parents then ParentsOf(rels[i]) else EdgeTypesOf(rels[i]);
      assert col[..i + 1] == col[..i] + [col[i]];
      FlatSnoc(col[..i], col[i]);
      U32sAppend(Flat(col[..i]), items);
      out := out + U32s(items);
    }
    assert col[..|rels|] == col;
  }

  lemma LengthsSnoc<T>(xss: seq<seq<T>>, i: nat)
    requires i < |xss|
    ensures Lengths(xss[..i + 1]) == Lengths(xss[..i]) + [|xss[i]|]
  {
  }
}
