/** The CGI form validators of the web front end (web/validators.py). A
  * validator returns the value it accepts or raises; the exceptions become
  * `Err` carrying the exception class name. `float()` is `Text.ParseFloat`,
  * which reads plain decimal notation. */
module Validators {
  import opened Wrappers
  import opened Text
  import Network

  const ValidationError := "ValidationError"
  const OutOfRangeError := "OutOfRangeError"
  const InsufficientArgsError := "InsufficientArgsError"
  const PathwayError := "PathwayError"
  const KeyError := "KeyError"
  const ValueError := "ValueError"

  // ------------------------------------------------------------------
  // Numbers
  // ------------------------------------------------------------------

  /** `val.isdigit()` on a byte string: non-empty, decimal digits only. */
  predicate IsDigits(s: string)
  {
    s != [] && AllDigits(s)
  }

  /** `int_validator`: a digit string, clamped into `[xmin, xmax]`
    * (web/validators.py:32-44). */
  function IntValidator(val: string, xmin: int, xmax: int): (r: Result<int>)
    ensures r.Ok? <==> IsDigits(val)
    ensures r.Err? ==> r.error == ValidationError
    ensures r.Ok? && xmin <= xmax ==> xmin <= r.value <= xmax
    ensures r.Ok? && xmin <= DigitsValue(val) <= xmax ==> r.value == DigitsValue(val)
    ensures r.Ok? && DigitsValue(val) < xmin ==> r.value == xmin
    ensures r.Ok? && xmin <= DigitsValue(val) && xmax < DigitsValue(val) ==> r.value == xmax
  {
    if !IsDigits(val) then Err(ValidationError)
    else
      var x := DigitsValue(val);
      if x < xmin then Ok(xmin) else if x > xmax then Ok(xmax) else Ok(x)
  }

  /** Validating the decimal text of an accepted value accepts it again,
    * unchanged: clamping is idempotent. */
  lemma IntValidatorIdempotent(val: string, xmin: int, xmax: int)
    requires 0 <= xmin <= xmax && IntValidator(val, xmin, xmax).Ok?
    ensures IntValidator(NatToString(IntValidator(val, xmin, xmax).value), xmin, xmax) ==
            IntValidator(val, xmin, xmax)
  {
    var x := IntValidator(val, xmin, xmax).value;
    var t := NatToString(x);
    assert IsDigits(t) && DigitsValue(t) == x;
  }

  /** The characters `int(s, 16)` reads as digits. */
  predicate IsHexDigit(c: char)
  {
    '0' <= c <= '9' || 'a' <= c <= 'f' || 'A' <= c <= 'F'
  }

  /** What `int(s, 16)` accepts in Python 2: surrounding whitespace, an
    * optional sign, an optional `0x` or `0X` prefix, then one or more hex
    * digits. */
  predicate IsHexLiteral(s: string)
  {
    var t := Strip(s);
    var u := if t != [] && (t[0] == '+' || t[0] == '-') then t[1..] else t;
    var v := if |u| >= 2 && u[0] == '0' && (u[1] == 'x' || u[1] == 'X') then u[2..] else u;
    v != [] && forall k :: 0 <= k < |v| ==> IsHexDigit(v[k])
  }

  /** `hash_validator`: the text itself when it reads as a hexadecimal
    * integer (web/validators.py:46-51). */
  function HashValidator(val: string): (r: Result<string>)
    ensures r.Ok? <==> IsHexLiteral(val)
    ensures r.Ok? ==> r.value == val
    ensures r.Err? ==> r.error == ValidationError
  {
    if IsHexLiteral(val) then Ok(val) else Err(ValidationError)
  }

  /** `'%x' % n`: the hex digits of `n`, with a minus sign when negative. */
  function HexText(n: int): (r: string)
    ensures r != []
  {
    if n < 0 then "-" + HexDigits(-n) else HexDigits(n)
  }

  function HexDigits(n: nat): (r: string)
    ensures r != [] && forall k :: 0 <= k < |r| ==> IsHexDigit(r[k])
  {
    var d := n % 16;
    var c := if d < 10 then ('0' as int + d) as char else ('a' as int + d - 10) as char;
    if n < 16 then [c] else HexDigits(n / 16) + [c]
  }

  /** Every query id the site makes with `'%x' % hash(...)` passes the
    * hash validator. */
  lemma HexTextValid(n: int)
    ensures HashValidator(HexText(n)) == Ok(HexText(n))
  {
    var r := HexText(n);
    var digits := if n < 0 then HexDigits(-n) else HexDigits(n);
    assert r[0] != ' ' && !IsSpace(r[0]);
    assert !IsSpace(r[|r| - 1]);
    assert LeadingSpaces(r) == 0;
    assert TrailingSpaces(r) == 0;
    assert Strip(r) == r;
    if n < 0 {
      assert r[1..] == digits;
    }
    var u := if n < 0 then r[1..] else r;
    assert u == digits;
    assert |u| >= 2 ==> u[1] != 'x' && u[1] != 'X';
  }

  /** `float_validator`: a ValidationError when `float(val)` raises, an
    * OutOfRangeError outside `[xmin, xmax]` (web/validators.py:53-66). */
  function FloatValidator(val: string, xmin: real, xmax: real): (r: Result<real>)
    ensures r.Ok? <==> ParseFloat(val).Some? && xmin <= ParseFloat(val).value <= xmax
    ensures r.Ok? ==> r.value == ParseFloat(val).value
    ensures ParseFloat(val).None? ==> r == Err(ValidationError)
    ensures ParseFloat(val).Some? && !(xmin <= ParseFloat(val).value <= xmax) ==> r == Err(OutOfRangeError)
  {
    match ParseFloat(val)
    case None => Err(ValidationError)
    case Some(y) => if y < xmin || y > xmax then Err(OutOfRangeError) else Ok(y)
  }

  /** `df_validator`: the damping factor is one minus the dissipation typed
    * in, so a dissipation in `[xmin, xmax]` gives a damping factor in
    * `[1 - xmax, 1 - xmin]` (web/validators.py:75-79). */
  function DfValidator(val: string, xmin: real, xmax: real): (r: Result<real>)
    ensures r.Ok? <==> FloatValidator(val, xmin, xmax).Ok?
    ensures r.Ok? ==> r.value + ParseFloat(val).value == 1.0 && 1.0 - xmax <= r.value <= 1.0 - xmin
    ensures r.Err? ==> r == FloatValidator(val, xmin, xmax)
  {
    var y :- FloatValidator(val, xmin, xmax);
    Ok(1.0 - y)
  }

  /** `da_validator`: any non-negative number (web/validators.py:81-92). */
  function DaValidator(val: string): (r: Result<real>)
    ensures r.Ok? <==> ParseFloat(val).Some? && ParseFloat(val).value >= 0.0
    ensures r.Ok? ==> r.value == ParseFloat(val).value
    ensures ParseFloat(val).None? ==> r == Err(ValidationError)
    ensures ParseFloat(val).Some? && ParseFloat(val).value < 0.0 ==> r == Err(OutOfRangeError)
  {
    match ParseFloat(val)
    case None => Err(ValidationError)
    case Some(y) => if y < 0.0 then Err(OutOfRangeError) else Ok(y)
  }

  const DampingCriteria: seq<string> := ["df", "da", "dr", "ap"]

  /** `dfcrit_validator`: one of the four damping criteria
    * (web/validators.py:68-73). */
  function DfcritValidator(val: string): (r: Result<string>)
    ensures r.Ok? <==> val in DampingCriteria
    ensures r.Ok? ==> r.value == val
    ensures r.Err? ==> r.error == ValidationError
  {
    if val in DampingCriteria then Ok(val) else Err(ValidationError)
  }

  // ------------------------------------------------------------------
  // Context groups
  // ------------------------------------------------------------------

  /** The validated fields of one context of the form: `source%d`,
    * `sink%d` and `dfcrit%d`, and the three damping fields `df%d`, `da%d`,
    * `dr%d`, each absent when the form did not hold it. */
  datatype ContextFields = ContextFields(sources: seq<string>, sinks: seq<string>, dfcrit: string,
                                         df: Option<real>, da: Option<real>, dr: Option<real>)

  /** The arguments of one context: the boundary nodes and the damping
    * setting the criterion names (none for `ap`). */
  datatype ContextArgs = ContextArgs(sourceNodes: seq<string>, sinkNodes: seq<string>,
                                     damping: Option<(string, real)>)

  /** The damping field the criterion selects, or a KeyError when the form
    * lacks it. */
  function ChosenDamping(f: ContextFields): (r: Result<Option<(string, real)>>)
    ensures r.Ok? && r.value.Some? ==> r.value.value.0 == f.dfcrit
    ensures r.Ok? && r.value.None? <==> f.dfcrit !in ["df", "da", "dr"]
  {
    if f.dfcrit == "df" then (if f.df.Some? then Ok(Some(("df", f.df.value))) else Err(KeyError))
    else if f.dfcrit == "da" then (if f.da.Some? then Ok(Some(("da", f.da.value))) else Err(KeyError))
    else if f.dfcrit == "dr" then (if f.dr.Some? then Ok(Some(("dr", f.dr.value))) else Err(KeyError))
    else Ok(None)
  }

  /** `context_group_validator`: a context with neither sources nor sinks
    * gives `{}` (here `None`); one with both gives `{'context<n>': args}`;
    * one with only one side is a PathwayError (web/validators.py:95-116). */
  function ContextGroupValidator(context: int, f: ContextFields): (r: Result<Option<(string, ContextArgs)>>)
    ensures r.Ok? && r.value.None? <==> f.sources == [] && f.sinks == []
    ensures (f.sources == []) != (f.sinks == []) ==> r == Err(PathwayError)
    ensures r.Ok? && r.value.Some? ==>
              && f.sources != [] && f.sinks != []
              && r.value.value.0 == "context" + IntToString(context)
              && r.value.value.1.sourceNodes == f.sources
              && r.value.value.1.sinkNodes == f.sinks
              && Ok(r.value.value.1.damping) == ChosenDamping(f)
  {
    if f.sources == [] && f.sinks == [] then Ok(None)
    else if f.sources != [] && f.sinks != [] then
      var damping :- ChosenDamping(f);
      Ok(Some(("context" + IntToString(context), ContextArgs(f.sources, f.sinks, damping))))
    else Err(PathwayError)
  }

  // ------------------------------------------------------------------
  // Protein lists
  // ------------------------------------------------------------------

  /** The characters that separate identifiers: whitespace, commas and
    * semicolons. */
  predicate IsSeparator(c: char)
  {
    IsSpace(c) || c == ',' || c == ';'
  }

  /** `s.translate(table)` with every separator turned into a space. */
  function Blanked(s: string): (r: string)
    ensures |r| == |s|
    ensures forall k :: 0 <= k < |s| ==> r[k] == if IsSeparator(s[k]) then ' ' else s[k]
  {
    seq(|s|, k requires 0 <= k < |s| => if IsSeparator(s[k]) then ' ' else s[k])
  }

  /** `tokenize_protein_list`: the maximal runs of characters that are not
    * separators (web/validators.py:118-124). */
  function TokenizeProteinList(s: string): (ts: seq<string>)
    ensures forall k :: 0 <= k < |ts| ==> ts[k] != [] && forall c :: c in ts[k] ==> !IsSeparator(c)
    ensures ts == [] <==> forall k :: 0 <= k < |s| ==> IsSeparator(s[k])
  {
    var b := Blanked(s);
    var ts := Words(b);
    assert forall c :: c in b && !IsSpace(c) ==> !IsSeparator(c) by {
      forall c | c in b && !IsSpace(c) ensures !IsSeparator(c) {
        var p :| 0 <= p < |b| && b[p] == c;
      }
    }
    ts
  }

  /** One step of `split()`: the first word, then the words after it. */
  lemma WordsStep(s: string)
    requires Words(s) != []
    ensures var i := LeadingSpaces(s);
            var j := WordLength(s[i..]);
            i < |s| && 0 < j && Words(s) == [s[i..][..j]] + Words(s[i..][j..])
  {
  }

  /** Identifiers free of separators, listed with any separator between
    * them, tokenize back to themselves. */
  lemma TokenizeJoined(ts: seq<string>, sep: char)
    requires IsSeparator(sep)
    requires forall k :: 0 <= k < |ts| ==> ts[k] != [] && forall c :: c in ts[k] ==> !IsSeparator(c)
    ensures TokenizeProteinList(Joined(ts, [sep])) == ts
  {
    BlankedJoined(ts, sep);
    WordsJoined(ts);
  }

  lemma {:induction false} BlankedJoined(ts: seq<string>, sep: char)
    requires IsSeparator(sep)
    requires forall k :: 0 <= k < |ts| ==> forall c :: c in ts[k] ==> !IsSeparator(c)
    ensures Blanked(Joined(ts, [sep])) == Joined(ts, " ")
  {
    if |ts| == 1 {
      assert Blanked(ts[0]) == ts[0];
    } else if |ts| > 1 {
      var init := ts[..|ts| - 1];
      var last := ts[|ts| - 1];
      BlankedJoined(init, sep);
      BlankedConcat(Joined(init, [sep]) + [sep], last);
      BlankedConcat(Joined(init, [sep]), [sep]);
      assert Blanked(last) == last;
    }
  }

  lemma BlankedConcat(a: string, b: string)
    ensures Blanked(a + b) == Blanked(a) + Blanked(b)
  {
  }

  /** Words separated by single spaces are split back into those words. */
  lemma {:induction false} WordsJoined(ts: seq<string>)
    requires forall k :: 0 <= k < |ts| ==> ts[k] != [] && forall c :: c in ts[k] ==> !IsSpace(c)
    ensures Words(Joined(ts, " ")) == ts
  {
    if ts == [] {
    } else if |ts| == 1 {
      WordsOfWord(ts[0], "");
      assert ts[0] + "" == ts[0];
    } else {
      var tail := Joined(ts[1..], " ");
      var rest := " " + tail;
      JoinedFront(ts, " ");
      assert Joined(ts, " ") == ts[0] + rest;
      WordsJoined(ts[1..]);
      WordsOfWord(ts[0], rest);
      WordsAfterSpace(tail);
      assert [ts[0]] + ts[1..] == ts;
    }
  }

  /** A word followed by nothing or by a space is split off first. */
  lemma WordsOfWord(w: string, rest: string)
    requires w != [] && forall c :: c in w ==> !IsSpace(c)
    requires rest == [] || IsSpace(rest[0])
    ensures Words(w + rest) == [w] + Words(rest)
  {
    var s := w + rest;
    assert !IsSpace(s[0]);
    assert LeadingSpaces(s) == 0;
    assert s[0..] == s;
    WordLengthOf(w, rest);
    assert s[..|w|] == w && s[|w|..] == rest;
  }

  lemma {:induction false} WordLengthOf(w: string, rest: string)
    requires forall c :: c in w ==> !IsSpace(c)
    requires rest == [] || IsSpace(rest[0])
    ensures WordLength(w + rest) == |w|
  {
    if w != [] {
      assert (w + rest)[1..] == w[1..] + rest;
      WordLengthOf(w[1..], rest);
    } else {
      assert w + rest == rest;
    }
  }

  /** Leading spaces do not make words. */
  lemma WordsAfterSpace(s: string)
    ensures Words(" " + s) == Words(s)
  {
    var t := " " + s;
    assert t[1..] == s;
    LeadingSpacesCons(s);
    assert t[LeadingSpaces(t)..] == s[LeadingSpaces(s)..];
  }

  lemma LeadingSpacesCons(s: string)
    ensures LeadingSpaces(" " + s) == 1 + LeadingSpaces(s)
  {
    assert (" " + s)[1..] == s;
  }

  /** Joining from the front: the first item, the separator, the join of
    * the rest. */
  lemma {:induction false} JoinedFront(ts: seq<string>, sep: string)
    requires |ts| >= 2
    ensures Joined(ts, sep) == ts[0] + sep + Joined(ts[1..], sep)
  {
    if |ts| > 2 {
      var init := ts[..|ts| - 1];
      JoinedFront(init, sep);
      assert init[1..] == ts[1..][..|ts| - 2];
    } else {
      assert ts[1..] == [ts[1]];
      assert ts[..1] == [ts[0]];
    }
  }

  /** `protein_list_validator`: the tokens of the field, as graph nodes;
    * an unknown name raises BadIdentifier (web/validators.py:127-133). */
  method ProteinListValidator(net: Network.ProbeNetwork, field: string, val: string)
    returns (r: Network.Validation)
    requires net.Valid()
    modifies net
    ensures var es := net.genes.Mapped(TokenizeProteinList(val)).0;
            net.Mappable(es) &&
            var missing := Network.FirstMissing(net.Found(es), |es|);
            if missing.Some? then
              r == Network.BadIdentifier(field, TokenizeProteinList(val)[missing.value]) &&
              net.warningMessages == old(net.warningMessages)
            else r == Network.Accepted(Network.ValidIds(net.Found(es), es, |es|))
  {
    r := net.ValidateSymbols(TokenizeProteinList(val), field, false);
  }

  /** `antisink_map_validator`: every valid node of the field mapped to
    * 0.0; unknown names are ignored (web/validators.py:135-145). */
  method AntisinkMapValidator(net: Network.ProbeNetwork, field: string, val: string)
    returns (m: map<string, real>)
    requires net.Valid()
    modifies net
    ensures var es := net.genes.Mapped(TokenizeProteinList(val)).0;
            net.Mappable(es) &&
            (forall x :: x in m <==> x in Network.ValidIds(net.Found(es), es, |es|)) &&
            forall x :: x in m ==> m[x] == 0.0 && x in net.nodes
  {
    var r := net.ValidateSymbols(TokenizeProteinList(val), field, true);
    ghost var es := net.genes.Mapped(TokenizeProteinList(val)).0;
    net.ValidIdsAreNodes(es);
    var ids := r.ids;
    m := map x | x in ids :: 0.0;
  }

  // ------------------------------------------------------------------
  // Options chosen from a list
  // ------------------------------------------------------------------

  /** What `find_input_option` returns: the pair `(allowed[v], v)` for an
    * allowed value `v`, or the caller's default itself. */
  datatype Found<T, D> = Chosen(value: T, key: string) | Fallback(default: D)

  /** `find_input_option`: the allowed option named by the form field; else
    * the default, when it is truthy; else a ValidationError for a value
    * that is not allowed, or an InsufficientArgsError for a missing field
    * (web/validators.py:149-167). A falsy Python default (`None`, `''`,
    * `()`) is passed as `None`. */
  function FindInputOption<T, D>(cgi: map<string, string>, key: string, allowed: map<string, T>,
                                 default: Option<D>): (r: Result<Found<T, D>>)
    ensures r.Ok? && r.value.Chosen? <==> key in cgi && cgi[key] in allowed
    ensures r.Ok? && r.value.Chosen? ==> r.value == Chosen(allowed[cgi[key]], cgi[key])
    ensures r.Ok? && r.value.Fallback? ==> default == Some(r.value.default)
    ensures r.Err? <==> default.None? && !(key in cgi && cgi[key] in allowed)
    ensures r.Err? ==> r.error == if key in cgi then ValidationError else InsufficientArgsError
  {
    if key in cgi then
      var v := cgi[key];
      if v in allowed then Ok(Chosen(allowed[v], v))
      else if default.Some? then Ok(Fallback(default.value))
      else Err(ValidationError)
    else if default.Some? then Ok(Fallback(default.value))
    else Err(InsufficientArgsError)
  }
}
