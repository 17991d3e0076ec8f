/** Reading the genes of one species from an NCBI Gene `gene_info` file
  * (common/db_parsers/ncbi_gene.py, `_parse_gene_info`): the contiguous
  * block of lines of the species, one gene per line; primary symbols that
  * several genes share replaced by the gene id; and every other name
  * either attached to the one symbol it stands for or set aside as a
  * conflict. The file arrives as its lines, already split into fields;
  * reading it and its CRC32 checksum are not part of this model. */
module NcbiGene {
  import opened Wrappers
  import opened Indexing
  import opened Text
  import Filesys

  // ------------------------------------------------------------------
  // The species block
  // ------------------------------------------------------------------

  /** A line of the file: its length in bytes, whether it starts with '#',
    * and its tab-separated fields after stripping. */
  datatype Line = Line(size: nat, comment: bool, fields: seq<string>)

  /** The tax id column; splitting always yields a first field, so the
    * empty default never applies to a real line. */
  function TaxOf(l: Line): string
  {
    if l.fields == [] then "" else l.fields[0]
  }

  /** A line of the species. */
  predicate Opens(l: Line, tax: string)
  {
    !l.comment && TaxOf(l) == tax
  }

  /** A line of another species. */
  predicate Closes(l: Line, tax: string)
  {
    !l.comment && TaxOf(l) != tax
  }

  /** The first line of the species at or after `from`. */
  function BlockStart(lines: seq<Line>, tax: string, from: nat): (s: nat)
    requires from <= |lines|
    ensures from <= s <= |lines|
    ensures s < |lines| ==> Opens(lines[s], tax)
    ensures forall j :: from <= j < s ==> !Opens(lines[j], tax)
    decreases |lines| - from
  {
    if from == |lines| || Opens(lines[from], tax) then from else BlockStart(lines, tax, from + 1)
  }

  /** The first line of another species at or after `from`. */
  function BlockEnd(lines: seq<Line>, tax: string, from: nat): (e: nat)
    requires from <= |lines|
    ensures from <= e <= |lines|
    ensures e < |lines| ==> Closes(lines[e], tax)
    ensures forall j :: from <= j < e ==> !Closes(lines[j], tax)
    decreases |lines| - from
  {
    if from == |lines| || Closes(lines[from], tax) then from else BlockEnd(lines, tax, from + 1)
  }

  /** The byte offset of line `j`: the sizes of the lines before it. */
  function Offset(lines: seq<Line>, j: nat): nat
    requires j <= |lines|
  {
    if j == 0 then 0 else Offset(lines, j - 1) + lines[j - 1].size
  }

  /** One gene as its line gives it. */
  datatype Gene = Gene(geneId: int, symbol: string, synonyms: seq<string>, description: string, geneType: string)

  /** The gene on a line: the id, symbol, locus tag and '|'-separated
    * synonyms, description and type columns, '-' standing for none.
    * Too few columns is an IndexError, an id that is no integer a
    * ValueError, in the order the columns are read. */
  function ParseRecord(f: seq<string>): Result<Gene>
  {
    if |f| < 2 then Err("IndexError")
    else
      match ParseInt(f[1])
      case None => Err("ValueError")
      case Some(id) =>
        if |f| < 10 then Err("IndexError")
        else
          var locusTag := if f[3] != "-" then [f[3]] else [];
          var aliases := if f[4] != "-" then Filesys.Split(f[4], '|') else [];
          Ok(Gene(id, f[2], locusTag + aliases, if f[8] != "-" then f[8] else "", f[9]))
  }

  /** What the lines from `s` up to `e` give: for each line that is not
    * a comment, in order, its gene and the byte offset just after it; or
    * the error of the first such line that does not parse. */
  function Collect(lines: seq<Line>, s: nat, e: nat, parse: seq<string> -> Result<Gene>): Result<(seq<Gene>, seq<nat>)>
    requires s <= e <= |lines|
    decreases e - s
  {
    if e == s then Ok(([], []))
    else
      match Collect(lines, s, e - 1, parse)
      case Err(m) => Err(m)
      case Ok(acc) =>
        if lines[e - 1].comment then Ok(acc)
        else
          match parse(lines[e - 1].fields)
          case Err(m) => Err(m)
          case Ok(g) => Ok((acc.0 + [g], acc.1 + [Offset(lines, e)]))
  }

  /** The number of lines from `s` up to `e` that are not comments. */
  function GeneLines(lines: seq<Line>, s: nat, e: nat): nat
    requires s <= e <= |lines|
    decreases e - s
  {
    if e == s then 0 else GeneLines(lines, s, e - 1) + if lines[e - 1].comment then 0 else 1
  }

  /** The lines give their genes exactly when each line that is not a
    * comment parses, and then one gene and one offset per such line. */
  lemma {:induction false} CollectOk(lines: seq<Line>, s: nat, e: nat, parse: seq<string> -> Result<Gene>)
    requires s <= e <= |lines|
    ensures Collect(lines, s, e, parse).Ok? <==>
              forall j :: s <= j < e && !lines[j].comment ==> parse(lines[j].fields).Ok?
    ensures Collect(lines, s, e, parse).Ok? ==>
              |Collect(lines, s, e, parse).value.0| == |Collect(lines, s, e, parse).value.1| == GeneLines(lines, s, e)
    decreases e - s
  {
    if e > s {
      CollectOk(lines, s, e - 1, parse);
    }
  }

  /** The error is that of the first line that does not parse: lines after
    * it change nothing. */
  lemma {:induction false} CollectFails(lines: seq<Line>, s: nat, i: nat, e: nat, parse: seq<string> -> Result<Gene>)
    requires s <= i < e <= |lines|
    requires Collect(lines, s, i, parse).Ok? && !lines[i].comment && parse(lines[i].fields).Err?
    ensures Collect(lines, s, e, parse) == Err(parse(lines[i].fields).error)
    decreases e - i
  {
    if e > i + 1 {
      CollectFails(lines, s, i, e - 1, parse);
    }
  }

  lemma {:induction false} OffsetMonotone(lines: seq<Line>, i: nat, j: nat)
    requires i <= j <= |lines|
    ensures Offset(lines, i) <= Offset(lines, j)
    decreases j - i
  {
    if i < j {
      OffsetMonotone(lines, i, j - 1);
    }
  }

  /** The offsets ascend and lie between the offsets of the first and the
    * last line scanned. */
  lemma {:induction false} CollectOffsets(lines: seq<Line>, s: nat, e: nat, parse: seq<string> -> Result<Gene>)
    requires s <= e <= |lines| && Collect(lines, s, e, parse).Ok?
    ensures var os := Collect(lines, s, e, parse).value.1;
            && (forall k :: 0 <= k < |os| ==> Offset(lines, s) <= os[k] <= Offset(lines, e))
            && (forall k, l :: 0 <= k < l < |os| ==> os[k] <= os[l])
    decreases e - s
  {
    if e > s {
      CollectOffsets(lines, s, e - 1, parse);
      OffsetMonotone(lines, s, e - 1);
    }
  }

  /** The genes of the block and the byte offsets around them. */
  datatype Block = Block(genes: seq<Gene>, offsets: seq<nat>)

  /** The lines from the start `s` of the block up to `i` hold no other
    * species, and `genes` and `offsets` are what they give, after the
    * offset of the block. */
  ghost predicate Scanned(lines: seq<Line>, tax: string, s: nat, i: nat, genes: seq<Gene>, offsets: seq<nat>, parse: seq<string> -> Result<Gene>)
    requires s <= i <= |lines|
  {
    && (forall j :: s <= j < i ==> !Closes(lines[j], tax))
    && Collect(lines, s, i, parse).Ok?
    && genes == Collect(lines, s, i, parse).value.0
    && offsets == [Offset(lines, s)] + Collect(lines, s, i, parse).value.1
  }

  /** The loop's state after line `i`: the byte count so far; before the
    * block nothing collected, inside it what `Scanned` says. */
  ghost predicate Scanning(lines: seq<Line>, tax: string, i: nat, inBlock: bool, bytecount: nat,
                           genes: seq<Gene>, offsets: seq<nat>, parse: seq<string> -> Result<Gene>)
  {
    var s := BlockStart(lines, tax, 0);
    && i <= |lines| && bytecount == Offset(lines, i)
    && (!inBlock ==> i <= s && genes == [] && offsets == [])
    && (inBlock ==> s < i && Scanned(lines, tax, s, i, genes, offsets, parse))
  }

  /** A comment line changes nothing but the byte count. */
  lemma StepComment(lines: seq<Line>, tax: string, i: nat, inBlock: bool, bytecount: nat,
                    genes: seq<Gene>, offsets: seq<nat>, parse: seq<string> -> Result<Gene>)
    requires Scanning(lines, tax, i, inBlock, bytecount, genes, offsets, parse)
    requires i < |lines| && lines[i].comment
    ensures Scanning(lines, tax, i + 1, inBlock, bytecount + lines[i].size, genes, offsets, parse)
  {
  }

  /** A line of another species before the block is passed over. */
  lemma StepSkip(lines: seq<Line>, tax: string, i: nat, bytecount: nat, parse: seq<string> -> Result<Gene>)
    requires Scanning(lines, tax, i, false, bytecount, [], [], parse)
    requires i < |lines| && Closes(lines[i], tax)
    ensures Scanning(lines, tax, i + 1, false, bytecount + lines[i].size, [], [], parse)
  {
  }

  /** A gene line of the species, the first one opening the block, adds its
    * gene and the offset after it; `start` is the offsets once the block is
    * open. */
  lemma StepGene(lines: seq<Line>, tax: string, i: nat, inBlock: bool, bytecount: nat,
                 genes: seq<Gene>, offsets: seq<nat>, start: seq<nat>, parse: seq<string> -> Result<Gene>,
                 bytecount': nat, genes': seq<Gene>, offsets': seq<nat>)
    requires Scanning(lines, tax, i, inBlock, bytecount, genes, offsets, parse)
    requires i < |lines| && Opens(lines[i], tax) && parse(lines[i].fields).Ok?
    requires start == if inBlock then offsets else [bytecount]
    requires bytecount' == bytecount + lines[i].size
    requires genes' == genes + [parse(lines[i].fields).value] && offsets' == start + [bytecount']
    ensures Scanning(lines, tax, i + 1, true, bytecount', genes', offsets', parse)
  {
  }

  /** A gene line of the species that does not parse: the block's first
    * failing line is this one. */
  lemma StepFails(lines: seq<Line>, tax: string, i: nat, inBlock: bool, bytecount: nat,
                  genes: seq<Gene>, offsets: seq<nat>, parse: seq<string> -> Result<Gene>)
    requires Scanning(lines, tax, i, inBlock, bytecount, genes, offsets, parse)
    requires i < |lines| && Opens(lines[i], tax) && parse(lines[i].fields).Err?
    ensures var s := BlockStart(lines, tax, 0);
            Collect(lines, s, BlockEnd(lines, tax, s), parse) == Err(parse(lines[i].fields).error)
  {
    var s := BlockStart(lines, tax, 0);
    assert BlockEnd(lines, tax, s) > i;
    CollectFails(lines, s, i, BlockEnd(lines, tax, s), parse);
  }

  /** Once a line of another species follows the block, or the lines run
    * out, what was collected is the whole block. */
  lemma StepEnd(lines: seq<Line>, tax: string, i: nat, inBlock: bool, bytecount: nat,
                genes: seq<Gene>, offsets: seq<nat>, parse: seq<string> -> Result<Gene>)
    requires Scanning(lines, tax, i, inBlock, bytecount, genes, offsets, parse)
    requires i == |lines| || (inBlock && i < |lines| && Closes(lines[i], tax))
    ensures var s := BlockStart(lines, tax, 0);
            var c := Collect(lines, s, BlockEnd(lines, tax, s), parse);
            && c == Ok((genes, if s == |lines| then [] else offsets[1..]))
            && offsets == if s == |lines| then [] else [Offset(lines, s)] + c.value.1
  {
    var s := BlockStart(lines, tax, 0);
    if inBlock {
      assert BlockEnd(lines, tax, s) == i;
    }
  }

  /** The parsing loop of `_parse_gene_info`: comment lines are skipped,
    * lines before the species are passed over, and the first line of
    * another species after it ends the block. The genes are those of the
    * block's lines in order; the offsets are where the block starts and
    * where each gene line ends; a malformed gene line is an error. */
  method ParseBlock(lines: seq<Line>, tax: string) returns (r: Result<Block>)
    ensures var s := BlockStart(lines, tax, 0);
            var c := Collect(lines, s, BlockEnd(lines, tax, s), ParseRecord);
            && (r.Err? <==> c.Err?)
            && (r.Err? ==> r.error == c.error)
            && (r.Ok? ==> r.value.genes == c.value.0)
            && (r.Ok? ==> r.value.offsets == if s == |lines| then [] else [Offset(lines, s)] + c.value.1)
  {
    var genes: seq<Gene> := [];
    var offsets: seq<nat> := [];
    var bytecount: nat := 0;
    var inBlock := false;
    var i := 0;
    while i < |lines|
      invariant Scanning(lines, tax, i, inBlock, bytecount, genes, offsets, ParseRecord)
    {
      var line := lines[i];
      if line.comment {
        StepComment(lines, tax, i, inBlock, bytecount, genes, offsets, ParseRecord);
        bytecount, i := bytecount + line.size, i + 1;
        continue;
      }
      ghost var wasInBlock, offsetsBefore := inBlock, offsets;
      if !inBlock {
        if TaxOf(line) == tax {
          inBlock := true;
          offsets := [bytecount];
        } else {
          StepSkip(lines, tax, i, bytecount, ParseRecord);
          bytecount, i := bytecount + line.size, i + 1;
          continue;
        }
      }
      if TaxOf(line) != tax {
        break;
      }
      var rec := ParseRecord(line.fields);
      if rec.Err? {
        StepFails(lines, tax, i, wasInBlock, bytecount, genes, offsetsBefore, ParseRecord);
        return Err(rec.error);
      }
      ghost var bytecountBefore, genesBefore, start := bytecount, genes, offsets;
      bytecount := bytecount + line.size;
      genes, offsets := genes + [rec.value], offsets + [bytecount];
      StepGene(lines, tax, i, wasInBlock, bytecountBefore, genesBefore, offsetsBefore, start, ParseRecord,
               bytecount, genes, offsets);
      i := i + 1;
    }
    StepEnd(lines, tax, i, inBlock, bytecount, genes, offsets, ParseRecord);
    return Ok(Block(genes, offsets));
  }

  // ------------------------------------------------------------------
  // Primary symbols shared by several genes
  // ------------------------------------------------------------------

  /** The ids of the genes with symbol `smb`, in order. */
  function IdsOf(genes: seq<Gene>, smb: string): (r: seq<int>)
    ensures |r| <= |genes|
  {
    if genes == [] then []
    else IdsOf(genes[..|genes| - 1], smb) + (if genes[|genes| - 1].symbol == smb then [genes[|genes| - 1].geneId] else [])
  }

  /** `smb2gid[smb]` of a `defaultdict(list)`. */
  function Listed(m: map<string, seq<int>>, smb: string): seq<int>
  {
    if smb in m then m[smb] else []
  }

  /** A symbol more than one gene carries. */
  predicate Shared(genes: seq<Gene>, smb: string)
  {
    |IdsOf(genes, smb)| > 1
  }

  /** The gene under its id in decimal, its old symbol the first synonym. */
  function Renamed(g: Gene): Gene
  {
    g.(symbol := IntToString(g.geneId), synonyms := [g.symbol] + g.synonyms)
  }

  /** The genes with every shared symbol replaced. */
  function Disambiguated(genes: seq<Gene>): seq<Gene>
  {
    seq(|genes|, k requires 0 <= k < |genes| => if Shared(genes, genes[k].symbol) then Renamed(genes[k]) else genes[k])
  }

  /** The two loops of `_parse_gene_info` that collect the ids of each
    * symbol and rename the genes whose symbol is shared. */
  method Disambiguate(genes: seq<Gene>) returns (r: seq<Gene>)
    ensures r == Disambiguated(genes)
  {
    var smb2gid: map<string, seq<int>> := map[];
    for i := 0 to |genes|
      invariant forall smb :: Listed(smb2gid, smb) == IdsOf(genes[..i], smb)
    {
      assert genes[..i + 1][..i] == genes[..i];
      smb2gid := smb2gid[genes[i].symbol := Listed(smb2gid, genes[i].symbol) + [genes[i].geneId]];
    }
    assert genes[..|genes|] == genes;
    r := genes;
    for i := 0 to |genes|
      invariant |r| == |genes|
      invariant forall k :: 0 <= k < |genes| ==> r[k] == if k < i then Disambiguated(genes)[k] else genes[k]
    {
      if |Listed(smb2gid, genes[i].symbol)| > 1 {
        r := r[i := Renamed(genes[i])];
      }
    }
  }

  /** Two genes with one symbol make it shared. */
  lemma {:induction false} TwoMakeShared(genes: seq<Gene>, j: nat, k: nat)
    requires j < k < |genes| && genes[j].symbol == genes[k].symbol
    ensures Shared(genes, genes[k].symbol)
  {
    var smb := genes[k].symbol;
    IdsOfPrefix(genes, k + 1, smb);
    assert genes[..k + 1][..k] == genes[..k];
    IdsOfPrefix(genes[..k], j + 1, smb);
    assert genes[..k][..j + 1][..j] == genes[..j];
  }

  /** A prefix has no more ids of a symbol than the whole. */
  lemma {:induction false} IdsOfPrefix(genes: seq<Gene>, n: nat, smb: string)
    requires n <= |genes|
    ensures |IdsOf(genes[..n], smb)| <= |IdsOf(genes, smb)|
    decreases |genes| - n
  {
    if n < |genes| {
      IdsOfPrefix(genes, n + 1, smb);
      assert genes[..n + 1][..n] == genes[..n];
    } else {
      assert genes[..n] == genes;
    }
  }

  /** A symbol only one gene carries stays. */
  lemma {:induction false} AloneNotShared(genes: seq<Gene>, k: nat)
    requires k < |genes| && forall j :: 0 <= j < |genes| && j != k ==> genes[j].symbol != genes[k].symbol
    ensures !Shared(genes, genes[k].symbol)
  {
    AloneIds(genes, genes[k].symbol, k);
  }

  lemma {:induction false} AloneIds(genes: seq<Gene>, smb: string, k: nat)
    requires k < |genes| && forall j :: 0 <= j < |genes| && j != k ==> genes[j].symbol != smb
    ensures |IdsOf(genes, smb)| <= 1
    ensures k < |genes| - 1 ==> IdsOf(genes, smb) == IdsOf(genes[..|genes| - 1], smb)
  {
    if k < |genes| - 1 {
      AloneIds(genes[..|genes| - 1], smb, k);
    } else {
      NoIds(genes[..|genes| - 1], smb);
    }
  }

  lemma {:induction false} NoIds(genes: seq<Gene>, smb: string)
    requires forall j :: 0 <= j < |genes| ==> genes[j].symbol != smb
    ensures IdsOf(genes, smb) == []
  {
    if genes != [] {
      NoIds(genes[..|genes| - 1], smb);
    }
  }

  /** The symbols of the genes. */
  function Symbols(genes: seq<Gene>): (r: seq<string>)
    ensures |r| == |genes| && forall k :: 0 <= k < |genes| ==> r[k] == genes[k].symbol
  {
    seq(|genes|, k requires 0 <= k < |genes| => genes[k].symbol)
  }

  /** The gene ids. */
  function GeneIds(genes: seq<Gene>): (r: seq<int>)
    ensures |r| == |genes| && forall k :: 0 <= k < |genes| ==> r[k] == genes[k].geneId
  {
    seq(|genes|, k requires 0 <= k < |genes| => genes[k].geneId)
  }

  /** With distinct gene ids and no symbol that reads as an integer, the
    * renamed symbols are distinct: a shared symbol becomes an id, which no
    * other gene's symbol is. So the second assertion of `_parse_gene_info`
    * can fail only on symbols that look like numbers. */
  lemma DisambiguatedDistinct(genes: seq<Gene>)
    requires Distinct(GeneIds(genes))
    requires forall k :: 0 <= k < |genes| ==> ParseInt(genes[k].symbol).None?
    ensures Distinct(Symbols(Disambiguated(genes)))
  {
    var r := Disambiguated(genes);
    forall j, k | 0 <= j < k < |genes| ensures r[j].symbol != r[k].symbol {
      if genes[j].symbol == genes[k].symbol {
        TwoMakeShared(genes, j, k);
        assert ParseInt(r[j].symbol) == Some(genes[j].geneId);
      } else if Shared(genes, genes[j].symbol) && Shared(genes, genes[k].symbol) {
        assert ParseInt(r[j].symbol) == Some(genes[j].geneId);
      } else if Shared(genes, genes[j].symbol) || Shared(genes, genes[k].symbol) {
        assert ParseInt(r[j].symbol).Some? != ParseInt(r[k].symbol).Some?;
      }
    }
  }

  /** Renaming keeps every name: a renamed gene lists its old symbol first
    * among its synonyms, and a gene whose symbol no other gene carries is
    * unchanged. */
  lemma DisambiguatedKeepsNames(genes: seq<Gene>, k: nat)
    requires k < |genes|
    ensures var g := Disambiguated(genes)[k];
            && g.geneId == genes[k].geneId && g.description == genes[k].description
            && (g.symbol == genes[k].symbol || g.synonyms == [genes[k].symbol] + genes[k].synonyms)
    ensures (forall j :: 0 <= j < |genes| && j != k ==> genes[j].symbol != genes[k].symbol)
            ==> Disambiguated(genes)[k] == genes[k]
  {
    if forall j :: 0 <= j < |genes| && j != k ==> genes[j].symbol != genes[k].symbol {
      AloneNotShared(genes, k);
    }
  }

  // ------------------------------------------------------------------
  // Names and conflicts
  // ------------------------------------------------------------------

  /** The names a gene answers to: its symbol and its synonyms. */
  function Names(g: Gene): seq<string>
  {
    [g.symbol] + g.synonyms
  }

  /** The symbols of the genes that answer to `name`. */
  function Targets(genes: seq<Gene>, name: string): set<string>
  {
    set k | 0 <= k < |genes| && name in Names(genes[k]) :: genes[k].symbol
  }

  lemma TargetsSnoc(genes: seq<Gene>, g: Gene, name: string)
    ensures Targets(genes + [g], name) == Targets(genes, name) + (if name in Names(g) then {g.symbol} else {})
  {
    var gs := genes + [g];
    forall x | x in Targets(gs, name) ensures x in Targets(genes, name) || (name in Names(g) && x == g.symbol) {
      var k :| 0 <= k < |gs| && name in Names(gs[k]) && gs[k].symbol == x;
      if k < |genes| {
        assert gs[k] == genes[k];
      }
    }
    forall x | x in Targets(genes, name) ensures x in Targets(gs, name) {
      var k :| 0 <= k < |genes| && name in Names(genes[k]) && genes[k].symbol == x;
      assert gs[k] == genes[k];
    }
    if name in Names(g) {
      assert gs[|genes|] == g;
    }
  }

  /** `m` maps each name to the symbols of the genes answering to it,
    * plus `smb` for the names in `names`, and has no empty entry. */
  ghost predicate Collected(m: map<string, set<string>>, genes: seq<Gene>, names: seq<string>, smb: string)
  {
    && (forall name :: Lookup(m, name) == Targets(genes, name) + (if name in names then {smb} else {}))
    && (forall name :: name in m ==> m[name] != {})
  }

  lemma CollectedAdd(m: map<string, set<string>>, genes: seq<Gene>, names: seq<string>, smb: string, name: string,
                     m': map<string, set<string>>)
    requires Collected(m, genes, names, smb) && m' == m[name := Lookup(m, name) + {smb}]
    ensures Collected(m', genes, names + [name], smb)
  {
  }

  lemma CollectedStart(m: map<string, set<string>>, genes: seq<Gene>, g: Gene, m': map<string, set<string>>)
    requires Collected(m, genes, [], "") && m' == m[g.symbol := Lookup(m, g.symbol) + {g.symbol}]
    ensures Collected(m', genes, [g.symbol], g.symbol)
  {
  }

  lemma CollectedGene(m: map<string, set<string>>, genes: seq<Gene>, g: Gene)
    requires Collected(m, genes, Names(g), g.symbol)
    ensures Collected(m, genes + [g], [], "")
  {
    forall name ensures Lookup(m, name) == Targets(genes + [g], name) {
      TargetsSnoc(genes, g, name);
    }
  }

  /** The loop of `_parse_gene_info` that builds `alias_map`: each name
    * maps to the symbols of the genes that answer to it, and only names
    * some gene answers to are keys. */
  method BuildAliasMap(genes: seq<Gene>) returns (m: map<string, set<string>>)
    ensures forall name :: Lookup(m, name) == Targets(genes, name)
    ensures forall name :: name in m ==> m[name] != {}
  {
    m := map[];
    for i := 0 to |genes|
      invariant Collected(m, genes[..i], [], "")
    {
      var g := genes[i];
      ghost var m0 := m;
      m := m[g.symbol := Lookup(m, g.symbol) + {g.symbol}];
      CollectedStart(m0, genes[..i], g, m);
      for j := 0 to |g.synonyms|
        invariant Collected(m, genes[..i], Names(g)[..j + 1], g.symbol)
      {
        ghost var m1 := m;
        m := m[g.synonyms[j] := Lookup(m, g.synonyms[j]) + {g.symbol}];
        CollectedAdd(m1, genes[..i], Names(g)[..j + 1], g.symbol, g.synonyms[j], m);
        assert Names(g)[..j + 2] == Names(g)[..j + 1] + [g.synonyms[j]];
      }
      assert Names(g)[..|g.synonyms| + 1] == Names(g);
      CollectedGene(m, genes[..i], g);
      assert genes[..i + 1] == genes[..i] + [g];
    }
    assert genes[..|genes|] == genes;
  }

  /** How the names are resolved: `symbol2aliases` lists for each symbol
    * the names that stand for it alone; a name that stands for several
    * symbols is a conflict, of the first kind if it is itself a symbol
    * (the other symbols are recorded) and of the second kind otherwise. */
  datatype Resolution = Resolution(
    symbol2aliases: map<string, seq<string>>,
    conflict1: map<string, set<string>>,
    conflict2: map<string, set<string>>)

  /** The resolution loop of `_parse_gene_info`, over the names in whatever
    * order the dictionary yields them. */
  method ResolveConflicts(symbols: seq<string>, aliasMap: map<string, set<string>>) returns (res: Resolution)
    requires forall name :: name in aliasMap ==> aliasMap[name] != {}
    requires forall name, smb :: name in aliasMap && smb in aliasMap[name] ==> smb in symbols
    ensures AliasesResolved(symbols, aliasMap, aliasMap.Keys, res.symbol2aliases)
    ensures ConflictsResolved(symbols, aliasMap, aliasMap.Keys, res.conflict1, res.conflict2)
  {
    var s2a: map<string, seq<string>> := map smb | smb in symbols :: [];
    var c1: map<string, set<string>> := map[];
    var c2: map<string, set<string>> := map[];
    var todo := aliasMap.Keys;
    while todo != {}
      invariant todo <= aliasMap.Keys
      invariant AliasesResolved(symbols, aliasMap, aliasMap.Keys - todo, s2a)
      invariant ConflictsResolved(symbols, aliasMap, aliasMap.Keys - todo, c1, c2)
      decreases |todo|
    {
      var syn :| syn in todo;
      var smbSet := aliasMap[syn];
      ghost var done := aliasMap.Keys - todo;
      todo := todo - {syn};
      assert aliasMap.Keys - todo == done + {syn};
      if |smbSet| > 1 {
        AliasesKept(symbols, aliasMap, done, syn, s2a);
        if syn in s2a {
          ghost var c0 := c1;
          c1 := c1[syn := Lookup(c1, syn) + (smbSet - {syn})];
          ConflictOfSymbol(symbols, aliasMap, done, syn, c0, c2, c1);
        } else {
          ghost var c0 := c2;
          c2 := c2[syn := Lookup(c2, syn) + smbSet];
          ConflictOfOther(symbols, aliasMap, done, syn, c1, c0, c2);
        }
      } else {
        ConflictsKept(symbols, aliasMap, done, syn, c1, c2);
        var smb :| smb in smbSet;
        SingletonOf(smbSet, smb);
        if smb != syn {
          ghost var s0 := s2a;
          s2a := s2a[smb := s2a[smb] + [syn]];
          AliasAdded(symbols, aliasMap, done, syn, smb, s0, s2a);
        } else {
          AliasesKept(symbols, aliasMap, done, syn, s2a);
        }
      }
    }
    assert aliasMap.Keys - todo == aliasMap.Keys;
    res := Resolution(s2a, c1, c2);
  }

  /** The aliases of the names in `done`: each symbol lists, once each,
    * the names that stand for it alone. */
  ghost predicate AliasesResolved(symbols: seq<string>, aliasMap: map<string, set<string>>, done: set<string>,
                                  s2a: map<string, seq<string>>)
  {
    && (forall smb :: smb in s2a <==> smb in symbols)
    && (forall smb, a :: smb in s2a ==> (a in s2a[smb] <==> a in done && a in aliasMap && aliasMap[a] == {smb} && a != smb))
    && (forall smb :: smb in s2a ==> Distinct(s2a[smb]))
  }

  /** The conflicts among the names in `done`. */
  ghost predicate ConflictsResolved(symbols: seq<string>, aliasMap: map<string, set<string>>, done: set<string>,
                                    c1: map<string, set<string>>, c2: map<string, set<string>>)
  {
    && (forall name :: name in c1 <==> name in done && name in aliasMap && |aliasMap[name]| > 1 && name in symbols)
    && (forall name :: name in c1 ==> c1[name] == aliasMap[name] - {name})
    && (forall name :: name in c2 <==> name in done && name in aliasMap && |aliasMap[name]| > 1 && name !in symbols)
    && (forall name :: name in c2 ==> c2[name] == aliasMap[name])
  }

  /** A name that is no alias leaves the aliases as they are. */
  lemma AliasesKept(symbols: seq<string>, aliasMap: map<string, set<string>>, done: set<string>, syn: string,
                    s2a: map<string, seq<string>>)
    requires AliasesResolved(symbols, aliasMap, done, s2a) && syn in aliasMap
    requires |aliasMap[syn]| > 1 || aliasMap[syn] == {syn}
    ensures AliasesResolved(symbols, aliasMap, done + {syn}, s2a)
  {
    forall smb, a | smb in s2a
      ensures a in s2a[smb] <==> a in done + {syn} && a in aliasMap && aliasMap[a] == {smb} && a != smb
    {
      if a == syn {
        assert aliasMap[syn] != {smb} || syn == smb by {
          if |aliasMap[syn]| > 1 {
            assert |{smb}| == 1;
          }
        }
      }
    }
  }

  /** A name that stands for one symbol leaves the conflicts as they are. */
  lemma ConflictsKept(symbols: seq<string>, aliasMap: map<string, set<string>>, done: set<string>, syn: string,
                      c1: map<string, set<string>>, c2: map<string, set<string>>)
    requires ConflictsResolved(symbols, aliasMap, done, c1, c2) && syn in aliasMap && |aliasMap[syn]| <= 1
    ensures ConflictsResolved(symbols, aliasMap, done + {syn}, c1, c2)
  {
  }

  /** A name standing for several symbols that is itself a symbol. */
  lemma ConflictOfSymbol(symbols: seq<string>, aliasMap: map<string, set<string>>, done: set<string>, syn: string,
                         c1: map<string, set<string>>, c2: map<string, set<string>>, c1': map<string, set<string>>)
    requires ConflictsResolved(symbols, aliasMap, done, c1, c2) && syn in aliasMap && syn !in done
    requires |aliasMap[syn]| > 1 && syn in symbols
    requires c1' == c1[syn := Lookup(c1, syn) + (aliasMap[syn] - {syn})]
    ensures ConflictsResolved(symbols, aliasMap, done + {syn}, c1', c2)
  {
  }

  /** A name standing for several symbols that is no symbol. */
  lemma ConflictOfOther(symbols: seq<string>, aliasMap: map<string, set<string>>, done: set<string>, syn: string,
                        c1: map<string, set<string>>, c2: map<string, set<string>>, c2': map<string, set<string>>)
    requires ConflictsResolved(symbols, aliasMap, done, c1, c2) && syn in aliasMap && syn !in done
    requires |aliasMap[syn]| > 1 && syn !in symbols
    requires c2' == c2[syn := Lookup(c2, syn) + aliasMap[syn]]
    ensures ConflictsResolved(symbols, aliasMap, done + {syn}, c1, c2')
  {
  }

  /** A name standing for one symbol other than itself. */
  lemma AliasAdded(symbols: seq<string>, aliasMap: map<string, set<string>>, done: set<string>, syn: string, smb: string,
                   s2a: map<string, seq<string>>, s2a': map<string, seq<string>>)
    requires AliasesResolved(symbols, aliasMap, done, s2a) && syn in aliasMap && syn !in done
    requires aliasMap[syn] == {smb} && smb != syn && smb in s2a
    requires s2a' == s2a[smb := s2a[smb] + [syn]]
    ensures AliasesResolved(symbols, aliasMap, done + {syn}, s2a')
  {
    var l := s2a[smb];
    assert syn !in l;
    forall smb', a | smb' in s2a'
      ensures a in s2a'[smb'] <==> a in done + {syn} && a in aliasMap && aliasMap[a] == {smb'} && a != smb'
    {
      if smb' == smb {
        assert s2a'[smb'] == l + [syn];
        assert a in l + [syn] <==> a in l || a == syn;
      } else {
        assert s2a'[smb'] == s2a[smb'];
        if a == syn {
          assert smb' !in aliasMap[syn];
        }
      }
    }
    assert Distinct(l + [syn]) by {
      forall i, j | 0 <= i < j < |l| + 1 ensures (l + [syn])[i] != (l + [syn])[j] {
        if j == |l| {
          assert (l + [syn])[i] == l[i];
        }
      }
    }
  }

  lemma SingletonOf(s: set<string>, x: string)
    requires |s| <= 1 && x in s
    ensures s == {x}
  {
    var t := s - {x};
    assert s == t + {x};
  }

  // ------------------------------------------------------------------
  // The whole parse
  // ------------------------------------------------------------------

  /** How the names of `genes` are resolved, stated on the genes: a symbol
    * keeps the names that stand for it alone, and a name that stands for
    * several symbols is a conflict. */
  ghost predicate ResolvesNames(genes: seq<Gene>, res: Resolution)
  {
    var symbols := Symbols(genes);
    && (forall smb :: smb in res.symbol2aliases <==> smb in symbols)
    && (forall smb, a :: smb in res.symbol2aliases ==>
          (a in res.symbol2aliases[smb] <==> Targets(genes, a) == {smb} && a != smb))
    && (forall smb :: smb in res.symbol2aliases ==> Distinct(res.symbol2aliases[smb]))
    && (forall name :: name in res.conflict1 <==> |Targets(genes, name)| > 1 && name in symbols)
    && (forall name :: name in res.conflict1 ==> res.conflict1[name] == Targets(genes, name) - {name})
    && (forall name :: name in res.conflict2 <==> |Targets(genes, name)| > 1 && name !in symbols)
    && (forall name :: name in res.conflict2 ==> res.conflict2[name] == Targets(genes, name))
  }

  /** Resolving the names of `alias_map` resolves the names of the genes. */
  lemma ResolvedTargets(genes: seq<Gene>, aliasMap: map<string, set<string>>, res: Resolution)
    requires forall name :: Lookup(aliasMap, name) == Targets(genes, name)
    requires forall name :: name in aliasMap ==> aliasMap[name] != {}
    requires AliasesResolved(Symbols(genes), aliasMap, aliasMap.Keys, res.symbol2aliases)
    requires ConflictsResolved(Symbols(genes), aliasMap, aliasMap.Keys, res.conflict1, res.conflict2)
    ensures ResolvesNames(genes, res)
  {
    var s2a := res.symbol2aliases;
    forall smb, a | smb in s2a ensures a in s2a[smb] <==> Targets(genes, a) == {smb} && a != smb {
      assert Lookup(aliasMap, a) == Targets(genes, a);
    }
    forall name ensures name in res.conflict1 <==> |Targets(genes, name)| > 1 && name in Symbols(genes) {
      assert Lookup(aliasMap, name) == Targets(genes, name);
    }
    forall name ensures name in res.conflict2 <==> |Targets(genes, name)| > 1 && name !in Symbols(genes) {
      assert Lookup(aliasMap, name) == Targets(genes, name);
    }
  }

  /** The targets of a name are symbols, and a symbol is among its own. */
  lemma TargetsOfSymbol(genes: seq<Gene>, k: nat)
    requires k < |genes|
    ensures genes[k].symbol in Targets(genes, genes[k].symbol)
  {
    assert genes[k].symbol in Names(genes[k]);
  }

  lemma TargetsAreSymbols(genes: seq<Gene>, name: string, smb: string)
    requires smb in Targets(genes, name)
    ensures smb in Symbols(genes)
  {
    var k :| 0 <= k < |genes| && name in Names(genes[k]) && genes[k].symbol == smb;
    assert Symbols(genes)[k] == smb;
  }

  /** No symbol is an alias of another: a symbol stands at least for
    * itself. */
  lemma AliasesAreNotSymbols(genes: seq<Gene>, res: Resolution, smb: string, a: string)
    requires ResolvesNames(genes, res) && smb in res.symbol2aliases && a in res.symbol2aliases[smb]
    ensures a !in Symbols(genes)
  {
    if a in Symbols(genes) {
      var k :| 0 <= k < |genes| && Symbols(genes)[k] == a;
      TargetsOfSymbol(genes, k);
    }
  }

  /** An alias belongs to one symbol only. */
  lemma OneSymbolPerAlias(genes: seq<Gene>, res: Resolution, name: string, smb: string, smb': string)
    requires ResolvesNames(genes, res) && smb in res.symbol2aliases && smb' in res.symbol2aliases
    requires name in res.symbol2aliases[smb] && name in res.symbol2aliases[smb']
    ensures smb == smb'
  {
    var t := Targets(genes, name);
    assert t == {smb} && t == {smb'};
    assert smb' in t;
  }

  /** A symbol is neither an alias nor a conflict of the second kind. */
  lemma SymbolResolved(genes: seq<Gene>, res: Resolution, name: string)
    requires ResolvesNames(genes, res) && name in Symbols(genes)
    ensures name !in res.conflict2
    ensures forall smb :: smb in res.symbol2aliases ==> name !in res.symbol2aliases[smb]
  {
    forall s | s in res.symbol2aliases ensures name !in res.symbol2aliases[s] {
      if name in res.symbol2aliases[s] {
        AliasesAreNotSymbols(genes, res, s, name);
      }
    }
  }

  /** Any other name some gene answers to is either an alias of a symbol
    * or a conflict of the second kind. */
  lemma OtherNameResolved(genes: seq<Gene>, res: Resolution, name: string)
    requires ResolvesNames(genes, res) && Targets(genes, name) != {} && name !in Symbols(genes)
    ensures name in res.conflict2 <==> forall smb :: smb in res.symbol2aliases ==> name !in res.symbol2aliases[smb]
  {
    var t := Targets(genes, name);
    var smb :| smb in t;
    TargetsAreSymbols(genes, name, smb);
    if |t| <= 1 {
      SingletonOf(t, smb);
      assert name in res.symbol2aliases[smb];
    } else {
      forall s | s in res.symbol2aliases ensures name !in res.symbol2aliases[s] {
        assert |{s}| == 1;
      }
    }
  }

  /** What `_parse_gene_info` returns besides the file name, checksum and
    * tax id it is given. */
  datatype GeneInfo = GeneInfo(
    geneIds: seq<int>,
    offsets: seq<nat>,
    symbols: seq<string>,
    symbol2aliases: map<string, seq<string>>,
    descriptions: seq<string>,
    conflict1: map<string, set<string>>,
    conflict2: map<string, set<string>>)

  /** The descriptions of the genes. */
  function Descriptions(genes: seq<Gene>): (r: seq<string>)
    ensures |r| == |genes| && forall k :: 0 <= k < |genes| ==> r[k] == genes[k].description
  {
    seq(|genes|, k requires 0 <= k < |genes| => genes[k].description)
  }

  /** `_parse_gene_info` on the lines of a `gene_info` file: the block of
    * the species `str(tax)` parsed, its shared symbols replaced, the
    * two uniqueness assertions checked, and the names resolved. */
  method ParseGeneInfo(lines: seq<Line>, tax: int) returns (r: Result<GeneInfo>)
    ensures var s := BlockStart(lines, IntToString(tax), 0);
            var c := Collect(lines, s, BlockEnd(lines, IntToString(tax), s), ParseRecord);
            var genes := if c.Ok? then Disambiguated(c.value.0) else [];
            && (c.Err? ==> r == Err(c.error))
            && (c.Ok? && !(Distinct(GeneIds(genes)) && Distinct(Symbols(genes))) ==> r == Err("AssertionError"))
            && (r.Ok? ==> c.Ok? && Distinct(GeneIds(genes)) && Distinct(Symbols(genes)))
            && (r.Ok? ==> r.value.geneIds == GeneIds(genes) && r.value.symbols == Symbols(genes)
                          && r.value.descriptions == Descriptions(genes)
                          && r.value.offsets == (if s == |lines| then [] else [Offset(lines, s)] + c.value.1))
            && (r.Ok? ==> ResolvesNames(genes, Resolution(r.value.symbol2aliases, r.value.conflict1, r.value.conflict2)))
  {
    var block := ParseBlock(lines, IntToString(tax));
    if block.Err? {
      return Err(block.error);
    }
    var genes := Disambiguate(block.value.genes);
    if !Distinct(GeneIds(genes)) || !Distinct(Symbols(genes)) {
      return Err("AssertionError");
    }
    var aliasMap := BuildAliasMap(genes);
    forall name, smb | name in aliasMap && smb in aliasMap[name] ensures smb in Symbols(genes) {
      assert smb in Lookup(aliasMap, name);
      TargetsAreSymbols(genes, name, smb);
    }
    var res := ResolveConflicts(Symbols(genes), aliasMap);
    ResolvedTargets(genes, aliasMap, res);
    return Ok(GeneInfo(GeneIds(genes), block.value.offsets, Symbols(genes), res.symbol2aliases,
                       Descriptions(genes), res.conflict1, res.conflict2));
  }
}
