/** The reader of Open Biomedical Ontologies files (`obo.py`): the file,
  * given as the lines `readline` returns (each with its line break), is
  * read stanza by stanza; tag-value lines are dispatched to handlers;
  * terms and typedefs are stored by id; typedef transitivity is expanded
  * along `is_a`; and the transitive closure of a set of terms follows
  * their relationships. */
module Obo {
  import opened Wrappers
  import opened Text
  import opened Ordering
  import opened Indexing

  // ---------------------------------------------------------------------
  // Escapes

  /** `ESCAPED_CHARS`: each escape sequence and its replacement, in the
    * order they are applied. The last rule deletes line breaks. */
  const EscapedChars: seq<(string, string)> :=
    [("\\n", "\n"), ("\\W", " "), ("\\t", "\t"), ("\\:", ":"), ("\\,", ","), ("\\\"", "\""),
     ("\\\\", "\\"), ("\\(", "("), ("\\)", ")"), ("\\[", "["), ("\\]", "]"), ("\\{", "{"),
     ("\\}", "}"), ("\n", "")]

  predicate PatternsNonEmpty(rules: seq<(string, string)>)
  {
    forall k :: 0 <= k < |rules| ==> rules[k].0 != []
  }

  /** The rules applied one after another, each `str.replace` working on
    * the output of the previous one. */
  function ReplaceAll(s: string, rules: seq<(string, string)>): string
    requires PatternsNonEmpty(rules)
  {
    if rules == [] then s
    else
      var last := rules[|rules| - 1];
      Replace(ReplaceAll(s, rules[..|rules| - 1]), last.0, last.1)
  }

  /** `_replace_escape_chars` as a value: the text never keeps a line
    * break, since the last rule removes them all. */
  function Unescaped(s: string): (r: string)
    ensures '\n' !in r
  {
    assert EscapedChars[..13] + [EscapedChars[13]] == EscapedChars;
    ReplaceAll(s, EscapedChars)
  }

  /** `_replace_escape_chars`: the replacements of `ESCAPED_CHARS` in list
    * order. */
  method ReplaceEscapeChars(s: string) returns (r: string)
    ensures r == Unescaped(s)
  {
    r := s;
    for k := 0 to |EscapedChars|
      invariant r == ReplaceAll(s, EscapedChars[..k])
    {
      assert EscapedChars[..k + 1][..k] == EscapedChars[..k];
      r := Replace(r, EscapedChars[k].0, EscapedChars[k].1);
    }
    assert EscapedChars[..|EscapedChars|] == EscapedChars;
  }

  /** Text with no backslash and no line break is left as it is: every
    * rule's pattern starts with one of the two. */
  lemma {:induction false} PlainUnescaped(s: string, n: nat)
    requires '\\' !in s && '\n' !in s && n <= |EscapedChars|
    ensures ReplaceAll(s, EscapedChars[..n]) == s
  {
    if n > 0 {
      PlainUnescaped(s, n - 1);
      assert EscapedChars[..n][..n - 1] == EscapedChars[..n - 1];
      var pat := EscapedChars[n - 1].0;
      assert pat[0] == '\\' || pat[0] == '\n';
      Absent(s, pat);
    }
  }

  /** A pattern whose first character does not occur in `s` does not
    * occur in `s`. */
  lemma Absent(s: string, pat: string)
    requires pat != [] && pat[0] !in s
    ensures forall k :: !OccursAt(s, pat, k)
  {
    forall k ensures !OccursAt(s, pat, k) {
      if 0 <= k < |s| {
        NotAt(s, pat, k, 0);
      }
    }
  }

  /** A pattern does not occur at `k` when one of its characters differs
    * from the text at the matching place. */
  lemma NotAt(s: string, pat: string, k: int, j: nat)
    requires 0 <= k && j < |pat| && k + j < |s| && s[k + j] != pat[j]
    ensures !OccursAt(s, pat, k)
  {
    if k + |pat| <= |s| {
      assert s[k..k + |pat|][j] == s[k + j];
    }
  }

  /** The rules act in sequence rather than as one decoder: an escaped
    * backslash followed by `n` is first read as a line break escape, whose
    * line break the last rule then deletes, leaving one backslash. */
  lemma EscapedBackslashBeforeN()
    ensures Unescaped("\\\\n") == "\\"
  {
    var s := "\\\\n";
    var t := "\\\n";
    assert Replace(s, "\\n", "\n") == t by {
      assert s[..2] != "\\n";
      assert s[1..][..2] == "\\n";
      assert s[1..][2..] == [];
    }
    PlainAfterNewline(t, 1, 13);
    assert ReplaceAll(s, EscapedChars[..1]) == t by {
      assert EscapedChars[..1][..0] == [];
    }
    assert ReplaceAll(s, EscapedChars[..13]) == t by {
      UnchangedRules(s, t, 1, 13);
    }
    assert Replace(t, "\n", "") == "\\" by {
      assert t[..1] != "\n";
      assert t[1..][..1] == "\n";
    }
    assert EscapedChars[..14] == EscapedChars;
  }

  /** A backslash followed by a line break holds no pattern of rules
    * 1 to 12. */
  lemma PlainAfterNewline(t: string, lo: nat, hi: nat)
    requires t == "\\\n" && 1 <= lo <= hi <= 13
    ensures forall n, k :: lo <= n < hi ==> !OccursAt(t, EscapedChars[n].0, k)
  {
    forall n, k | lo <= n < hi ensures !OccursAt(t, EscapedChars[n].0, k) {
      var pat := EscapedChars[n].0;
      assert |pat| == 2 && pat[0] == '\\' && pat[1] != '\n';
    }
  }

  lemma {:induction false} UnchangedRules(s: string, t: string, lo: nat, hi: nat)
    requires lo <= hi <= |EscapedChars| && ReplaceAll(s, EscapedChars[..lo]) == t
    requires forall n, k :: lo <= n < hi ==> !OccursAt(t, EscapedChars[n].0, k)
    ensures ReplaceAll(s, EscapedChars[..hi]) == t
    decreases hi - lo
  {
    if lo < hi {
      assert EscapedChars[..lo + 1][..lo] == EscapedChars[..lo];
      assert forall k :: !OccursAt(t, EscapedChars[lo].0, k);
      UnchangedRules(s, t, lo + 1, hi);
    }
  }

  // ---------------------------------------------------------------------
  // Lines

  /** A blank line or a '!' comment line, skipped by `_parse_stanza_body`. */
  predicate Skipped(line: string)
  {
    Strip(line) == [] || line[0] == '!'
  }

  /** `SECTCRE.match(line)`: '[', one or more characters other than ']',
    * then ']' open a stanza whose name is the text in between. */
  function HeaderOf(line: string): (r: Option<string>)
    ensures r.None? <==> line == [] || line[0] != '[' || ']' !in line[1..] || line[1] == ']'
  {
    if line == [] || line[0] != '[' then None
    else match Find(line[1..], "]")
      case None => None
      case Some(k) =>
        if k == 0 then None
        else
          assert line[1..][..k] == line[1..k + 1];
          Some(line[1..k + 1])
  }

  /** A stanza name is the non-empty text between the line's leading '['
    * and its first ']'. */
  lemma HeaderShape(line: string)
    ensures HeaderOf(line).Some? ==>
              var h := HeaderOf(line).value;
              h != [] && ']' !in h && ['['] + h + [']'] <= line
  {
    if HeaderOf(line).Some? {
      var h := HeaderOf(line).value;
      var k := Find(line[1..], "]").value;
      assert h == line[1..k + 1];
      assert line[..k + 2] == ['['] + h + [']'];
    }
  }

  /** `line.split(': ', 1)` unpacked into tag and value, the value cut at
    * its first ' ! ' comment. A line without ': ' cannot be unpacked:
    * ValueError. */
  function TagValue(line: string): (r: Result<(string, string)>)
    ensures r.Err? <==> Find(line, ": ").None?
    ensures r.Ok? ==> var tag := r.value.0;
                      && tag + ": " <= line
                      && (forall k :: !OccursAt(tag, ": ", k))
                      && r.value.1 == Before(line[|tag| + 2..], " ! ")
  {
    match Find(line, ": ")
    case None => Err("ValueError")
    case Some(k) =>
      PrefixFree(line, ": ", k);
      assert line[..k + 2] == line[..k] + ": ";
      Ok((line[..k], Before(line[k + 2..], " ! ")))
  }

  /** A pattern that does not start before `k` does not occur in the
    * first `k` characters. */
  lemma PrefixFree(s: string, pat: string, k: nat)
    requires pat != [] && k <= |s| && forall j :: j < k ==> !OccursAt(s, pat, j)
    ensures forall j :: !OccursAt(s[..k], pat, j)
  {
    forall j ensures !OccursAt(s[..k], pat, j) {
      if 0 <= j && j + |pat| <= k {
        assert s[..k][j..j + |pat|] == s[j..j + |pat|];
        assert !OccursAt(s, pat, j);
      }
    }
  }

  /** A tag-value line is read back as its tag and its value, line break
    * included, when the tag holds no ': ' and the value no ' ! '. */
  lemma TagValueRoundTrip(tag: string, value: string)
    requires forall k :: !OccursAt(tag, ": ", k)
    requires (forall k :: !OccursAt(value, " ! ", k)) && '\n' !in value
    ensures TagValue(tag + ": " + value + "\n") == Ok((tag, value + "\n"))
  {
    var line := tag + ": " + value + "\n";
    TagFound(tag, value + "\n");
    assert line == tag + ": " + (value + "\n");
    assert line[..|tag|] == tag;
    assert line[|tag| + 2..] == value + "\n";
    CommentFree(value);
  }

  /** The first ': ' of a line is the one after its tag. */
  lemma TagFound(tag: string, rest: string)
    requires forall k :: !OccursAt(tag, ": ", k)
    ensures Find(tag + ": " + rest, ": ") == Some(|tag|)
  {
    var line := tag + ": " + rest;
    assert line[|tag|..|tag| + 2] == ": ";
    assert OccursAt(line, ": ", |tag|);
    forall k | k < |tag| ensures !OccursAt(line, ": ", k) {
      if 0 <= k && k + 2 <= |tag| {
        assert tag[k..k + 2] == line[k..k + 2];
        assert !OccursAt(tag, ": ", k);
      } else if 0 <= k {
        assert line[k + 1] == ':';
        NotAt(line, ": ", k, 1);
      }
    }
  }

  /** A line break does not start a ' ! ' comment: a value free of them
    * stays free once its line break is appended. */
  lemma CommentFree(value: string)
    requires (forall k :: !OccursAt(value, " ! ", k)) && '\n' !in value
    ensures Before(value + "\n", " ! ") == value + "\n"
  {
    var rest := value + "\n";
    forall k ensures !OccursAt(rest, " ! ", k) {
      if 0 <= k && k + 3 <= |value| {
        assert value[k..k + 3] == rest[k..k + 3];
        assert !OccursAt(value, " ! ", k);
      } else if 0 <= k && k + 2 == |value| {
        assert rest[k + 2] == '\n';
        NotAt(rest, " ! ", k, 2);
      }
    }
  }

  // ---------------------------------------------------------------------
  // Stanza bodies

  /** What `_parse_stanza_body` returns: the tag-value pairs, the name of
    * the next stanza (None at the end of the file), and the line after
    * the header, where reading resumes. */
  datatype Body = Body(pairs: seq<(string, string)>, next: Option<string>, resume: nat)

  /** `_parse_stanza_body` from line `pos`: the tag-value pairs up to the
    * next stanza header or the end of the file. */
  function StanzaBody(lines: seq<string>, pos: nat): (r: Result<Body>)
    requires pos <= |lines|
    ensures r.Ok? ==> pos <= r.value.resume <= |lines|
    ensures r.Ok? && r.value.next.Some? ==> pos < r.value.resume
    ensures r.Ok? && r.value.next.None? ==> r.value.resume == |lines|
    decreases |lines| - pos
  {
    if pos == |lines| then Ok(Body([], None, pos))
    else
      var line := lines[pos];
      if Skipped(line) then StanzaBody(lines, pos + 1)
      else match HeaderOf(line)
        case Some(h) => Ok(Body([], Some(h), pos + 1))
        case None =>
          var tv :- TagValue(line);
          var rest :- StanzaBody(lines, pos + 1);
          Ok(rest.(pairs := [tv] + rest.pairs))
  }

  /** A result with pairs put in front of its pairs; errors pass through. */
  function Prepended(pairs: seq<(string, string)>, r: Result<Body>): Result<Body>
  {
    if r.Err? then r else Ok(r.value.(pairs := pairs + r.value.pairs))
  }

  lemma PrependedTwice(p: seq<(string, string)>, q: seq<(string, string)>, r: Result<Body>)
    ensures Prepended(p, Prepended(q, r)) == Prepended(p + q, r)
  {
    if r.Ok? {
      assert p + (q + r.value.pairs) == (p + q) + r.value.pairs;
    }
  }

  lemma PrependedEnd(pairs: seq<(string, string)>, next: Option<string>, resume: nat)
    ensures Prepended(pairs, Ok(Body([], next, resume))) == Ok(Body(pairs, next, resume))
  {
    assert pairs + [] == pairs;
  }

  lemma PrependedNothing(r: Result<Body>)
    ensures Prepended([], r) == r
  {
    if r.Ok? {
      assert [] + r.value.pairs == r.value.pairs;
    }
  }

  /** One line of `_parse_stanza_body`: skipped, a header that ends the
    * body, a bad line, or a pair put in front of the rest. */
  lemma BodyStep(lines: seq<string>, pos: nat)
    requires pos < |lines|
    ensures Skipped(lines[pos]) ==> StanzaBody(lines, pos) == StanzaBody(lines, pos + 1)
    ensures !Skipped(lines[pos]) && HeaderOf(lines[pos]).Some? ==>
              StanzaBody(lines, pos) == Ok(Body([], HeaderOf(lines[pos]), pos + 1))
    ensures !Skipped(lines[pos]) && HeaderOf(lines[pos]).None? && TagValue(lines[pos]).Err? ==>
              StanzaBody(lines, pos) == Err(TagValue(lines[pos]).error)
    ensures !Skipped(lines[pos]) && HeaderOf(lines[pos]).None? && TagValue(lines[pos]).Ok? ==>
              StanzaBody(lines, pos) == Prepended([TagValue(lines[pos]).value], StanzaBody(lines, pos + 1))
  {
  }

  /** `_parse_stanza_body`: reads lines until a stanza header or the end,
    * collecting the tag-value pairs. */
  method ParseStanzaBody(lines: seq<string>, start: nat) returns (r: Result<Body>)
    requires start <= |lines|
    ensures r == StanzaBody(lines, start)
  {
    var pairs: seq<(string, string)> := [];
    var pos := start;
    ghost var whole := StanzaBody(lines, start);
    PrependedNothing(whole);
    while pos < |lines|
      invariant start <= pos <= |lines|
      invariant whole == Prepended(pairs, StanzaBody(lines, pos))
      decreases |lines| - pos
    {
      var line := lines[pos];
      ghost var here := StanzaBody(lines, pos);
      ghost var next := StanzaBody(lines, pos + 1);
      BodyStep(lines, pos);
      if Skipped(line) {
        assert here == next;
      } else {
        var header := HeaderOf(line);
        if header.Some? {
          assert here == Ok(Body([], header, pos + 1));
          PrependedEnd(pairs, header, pos + 1);
          r := Ok(Body(pairs, header, pos + 1));
          assert r == whole;
          return;
        }
        var tv := TagValue(line);
        if tv.Err? {
          assert here == Err(tv.error);
          r := Err(tv.error);
          assert r == whole;
          return;
        }
        assert here == Prepended([tv.value], next);
        PrependedTwice(pairs, [tv.value], next);
        pairs := pairs + [tv.value];
      }
      pos := pos + 1;
    }
    assert StanzaBody(lines, pos) == Ok(Body([], None, pos));
    PrependedEnd(pairs, None, pos);
    r := Ok(Body(pairs, None, pos));
    assert r == whole;
  }

  /** A well-formed tag-value line: read by `TagValue` as written, and
    * neither skipped nor a header. */
  ghost predicate PlainTagLine(tag: string, value: string)
  {
    && (forall k :: !OccursAt(tag, ": ", k))
    && (forall k :: !OccursAt(value, " ! ", k)) && '\n' !in value
    && (tag == [] || (tag[0] != '!' && tag[0] != '['))
  }

  /** The lines of a stanza body written out, one `tag: value` line per
    * pair. */
  function BodyLines(pairs: seq<(string, string)>): (lines: seq<string>)
    ensures |lines| == |pairs|
  {
    seq(|pairs|, k requires 0 <= k < |pairs| => pairs[k].0 + ": " + pairs[k].1 + "\n")
  }

  /** The pairs as read back: every value keeps the line break that ends
    * its line. */
  function ReadBack(pairs: seq<(string, string)>): (r: seq<(string, string)>)
    ensures |r| == |pairs|
  {
    seq(|pairs|, k requires 0 <= k < |pairs| => (pairs[k].0, pairs[k].1 + "\n"))
  }

  /** Stanza bodies written as lines and followed by a header are read
    * back pair by pair, and the reader stops after the header. */
  lemma StanzaBodyRoundTrip(pairs: seq<(string, string)>, header: string)
    requires forall k :: 0 <= k < |pairs| ==> PlainTagLine(pairs[k].0, pairs[k].1)
    requires header != [] && ']' !in header
    ensures StanzaBody(BodyLines(pairs) + [['['] + header + [']', '\n']], 0) ==
              Ok(Body(ReadBack(pairs), Some(header), |pairs| + 1))
  {
    BodyFrom(pairs, header, BodyLines(pairs) + [['['] + header + [']', '\n']], 0);
    assert pairs[0..] == pairs;
  }

  lemma {:induction false} BodyFrom(pairs: seq<(string, string)>, header: string, lines: seq<string>, i: nat)
    requires forall k :: 0 <= k < |pairs| ==> PlainTagLine(pairs[k].0, pairs[k].1)
    requires header != [] && ']' !in header
    requires lines == BodyLines(pairs) + [['['] + header + [']', '\n']] && i <= |pairs|
    ensures StanzaBody(lines, i) == Ok(Body(ReadBack(pairs[i..]), Some(header), |pairs| + 1))
    decreases |pairs| - i
  {
    if i == |pairs| {
      HeaderLineRead(header);
      assert lines[i] == ['['] + header + [']', '\n'];
      HeaderStep(lines, i);
      assert ReadBack(pairs[i..]) == [];
      assert StanzaBody(lines, i) == Ok(Body([], Some(header), i + 1));
      assert Body([], Some(header), i + 1) == Body(ReadBack(pairs[i..]), Some(header), |pairs| + 1);
    } else {
      var tag, value := pairs[i].0, pairs[i].1;
      assert lines[i] == tag + ": " + value + "\n";
      TagLineRead(tag, value);
      TagStep(lines, i);
      BodyFrom(pairs, header, lines, i + 1);
      ReadBackFront(pairs[i..]);
      assert pairs[i..][1..] == pairs[i + 1..];
      var rest := Body(ReadBack(pairs[i + 1..]), Some(header), |pairs| + 1);
      assert StanzaBody(lines, i) == Prepended([(tag, value + "\n")], Ok(rest));
      assert Prepended([(tag, value + "\n")], Ok(rest)) == Ok(rest.(pairs := [(tag, value + "\n")] + rest.pairs));
      assert rest.(pairs := [(tag, value + "\n")] + rest.pairs) == Body(ReadBack(pairs[i..]), Some(header), |pairs| + 1);
    }
  }

  lemma ReadBackFront(ps: seq<(string, string)>)
    requires ps != []
    ensures ReadBack(ps) == [(ps[0].0, ps[0].1 + "\n")] + ReadBack(ps[1..])
  {
  }

  lemma HeaderStep(lines: seq<string>, pos: nat)
    requires pos < |lines| && !Skipped(lines[pos]) && HeaderOf(lines[pos]).Some?
    ensures StanzaBody(lines, pos) == Ok(Body([], HeaderOf(lines[pos]), pos + 1))
  {
  }

  lemma TagStep(lines: seq<string>, pos: nat)
    requires pos < |lines| && !Skipped(lines[pos]) && HeaderOf(lines[pos]).None? && TagValue(lines[pos]).Ok?
    ensures StanzaBody(lines, pos) == Prepended([TagValue(lines[pos]).value], StanzaBody(lines, pos + 1))
  {
  }

  lemma HeaderLineRead(header: string)
    requires header != [] && ']' !in header
    ensures var line := ['['] + header + [']', '\n'];
            !Skipped(line) && HeaderOf(line) == Some(header)
  {
    var line := ['['] + header + [']', '\n'];
    assert Strip(line) != [] by {
      assert !IsSpace(line[0]);
    }
    assert line[1..] == header + [']', '\n'];
    var f := Find(line[1..], "]");
    assert f == Some(|header|) by {
      assert OccursAt(line[1..], "]", |header|) by {
        assert line[1..][|header|..|header| + 1] == "]";
      }
    }
    assert line[1..|header| + 1] == header;
  }

  lemma TagLineRead(tag: string, value: string)
    requires PlainTagLine(tag, value)
    ensures var line := tag + ": " + value + "\n";
            !Skipped(line) && HeaderOf(line).None? && TagValue(line) == Ok((tag, value + "\n"))
  {
    var line := tag + ": " + value + "\n";
    TagValueRoundTrip(tag, value);
    if tag == [] {
      assert line[0] == ':';
    } else {
      assert line[0] == tag[0];
    }
    assert !IsSpace(line[|tag|]) by {
      assert line[|tag|] == ':';
    }
  }

  // ---------------------------------------------------------------------
  // Definitions

  /** The position of the last `c` in `s`. */
  function LastIndexOf(s: string, c: char): (r: Option<nat>)
    ensures r.Some? ==> r.value < |s| && s[r.value] == c && c !in s[r.value + 1..]
    ensures r.None? ==> c !in s
  {
    if s == [] then None
    else if s[|s| - 1] == c then Some(|s| - 1)
    else
      var r := LastIndexOf(s[..|s| - 1], c);
      if r.Some? then
        assert s[r.value + 1..] == s[..|s| - 1][r.value + 1..] + [s[|s| - 1]];
        r
      else
        assert s == s[..|s| - 1] + [s[|s| - 1]];
        r
  }

  /** `DESCRE.match(value)`: a '"' at the front, then the text up to the
    * last '"' of the first line (`.` stops at a line break). */
  function QuotedText(value: string): (r: Option<string>)
    ensures r.Some? ==> '\n' !in r.value && ['"'] + r.value + ['"'] <= value
  {
    if value == [] || value[0] != '"' then None
    else
      var line := Before(value[1..], "\n");
      match LastIndexOf(line, '"')
      case None => None
      case Some(j) =>
        assert line[..j] + ['"'] == line[..j + 1];
        assert value == ['"'] + value[1..];
        Some(line[..j])
  }

  /** Text free of `c` in front does not move the first `c`. */
  lemma BeforeSkip(a: string, b: string, c: char)
    requires c !in a
    ensures Before(a + b, [c]) == a + Before(b, [c])
  {
    var s := a + b;
    var r, q := Before(s, [c]), Before(b, [c]);
    if Find(b, [c]).None? {
      assert c !in s;
      assert Find(s, [c]).None?;
    } else {
      var j := |q|;
      assert b[j] == c && c !in b[..j] by {
        assert b[j..j + 1] == [c];
        assert q == b[..j];
      }
      assert s[|a| + j] == c;
      assert OccursAt(s, [c], |a| + j) by {
        assert s[|a| + j..|a| + j + 1] == [c];
      }
      var i := |r|;
      assert s[i..i + 1] == [c];
      assert i == |a| + j;
      assert r == s[..i];
      assert s[..i] == a + b[..j];
    }
  }

  /** A definition written as a quoted text followed by its references is
    * read back as that text. The quoted text may itself hold quotes:
    * the last one on the line closes it. */
  lemma QuotedRoundTrip(d: string, rest: string)
    requires '\n' !in d && '"' !in rest
    ensures QuotedText(['"'] + d + ['"'] + rest) == Some(d)
  {
    var value := ['"'] + d + ['"'] + rest;
    assert value[1..] == (d + ['"']) + rest;
    BeforeSkip(d + ['"'], rest, '\n');
    var line := Before(value[1..], "\n");
    var tail := Before(rest, "\n");
    assert line == (d + ['"']) + tail;
    assert '"' !in tail;
    var f := LastIndexOf(line, '"');
    assert line[|d|] == '"';
    assert f == Some(|d|);
    assert line[..|d|] == d;
  }

  // ---------------------------------------------------------------------
  // Stanza records

  /** The dictionary `_get_next_record` builds for one stanza: the stanza
    * name, the tag-value pairs no handler takes, the text fields (`id`,
    * `name`, `namespace`, `def`), the relationships, the relationship
    * types the typedef is transitive over, and whether it is obsolete. A
    * missing `relationships` or `transitive_over` key reads as empty. */
  datatype Stanza = Stanza(recordType: string, rawLines: seq<(string, string)>,
                           fields: map<string, string>, relationships: seq<(string, string)>,
                           transitiveOver: set<string>, isObsolete: bool)

  /** The dictionary a stanza starts as. */
  function NewStanza(name: string): (st: Stanza)
    ensures st.recordType == name && st.rawLines == [] && st.fields == map[]
    ensures st.relationships == [] && st.transitiveOver == {} && !st.isObsolete
  {
    Stanza(name, [], map[], [], {}, false)
  }

  /** `PROC_FUNCS`: the tags that have a handler. */
  const HandledTags: set<string> :=
    {"id", "name", "namespace", "def", "is_a", "relationship", "is_transitive",
     "transitive_over", "is_obsolete"}

  /** The handler of `PROC_FUNCS[tag]` applied to a stanza, or the pair kept
    * as a raw line. `transitive_over` records the stripped relationship
    * type, and `is_transitive` counts only the value `true`; a
    * relationship with fewer than two words cannot be unpacked
    * (ValueError) and `is_transitive` before `id` finds no id (KeyError). */
  function ProcessTag(st: Stanza, tag: string, value: string): (r: Result<Stanza>)
    ensures r.Ok? ==> r.value.recordType == st.recordType && st.transitiveOver <= r.value.transitiveOver
    ensures r.Ok? && tag !in HandledTags ==> r.value == st.(rawLines := st.rawLines + [(tag, value)])
    ensures r.Ok? && tag in HandledTags ==> r.value.rawLines == st.rawLines
    ensures r.Err? <==> (tag == "relationship" && |Words(value)| < 2)
                        || (tag == "is_transitive" && Strip(value) == "true" && "id" !in st.fields)
  {
    if tag == "id" || tag == "name" || tag == "namespace" then
      Ok(st.(fields := st.fields[tag := Unescaped(value)]))
    else if tag == "def" then
      var desc := match QuotedText(value) case Some(d) => d case None => "";
      Ok(st.(fields := st.fields[tag := Unescaped(desc)]))
    else if tag == "is_a" then
      Ok(st.(relationships := st.relationships + [("is_a", Strip(value))]))
    else if tag == "relationship" then
      var ws := Words(value);
      if |ws| < 2 then Err("ValueError")
      else Ok(st.(relationships := st.relationships + [(ws[0], ws[1])]))
    else if tag == "is_transitive" then
      if Strip(value) != "true" then Ok(st)
      else if "id" !in st.fields then Err("KeyError")
      else Ok(st.(transitiveOver := st.transitiveOver + {st.fields["id"]}))
    else if tag == "transitive_over" then
      Ok(st.(transitiveOver := st.transitiveOver + {Strip(value)}))
    else if tag == "is_obsolete" then
      Ok(if Strip(value) == "true" then st.(isObsolete := true) else st)
    else
      Ok(st.(rawLines := st.rawLines + [(tag, value)]))
  }

  /** The two handlers as written: `_process_is_transitive` tests only
    * that the value is non-empty, and `_process_transitive_over` stores
    * the value as read (with its line break when the line has no ` ! `
    * comment). The other tags go to `ProcessTag`. */
  function ProcessTagAsWritten(st: Stanza, tag: string, value: string): (r: Result<Stanza>)
    ensures tag != "is_transitive" && tag != "transitive_over" ==> r == ProcessTag(st, tag, value)
    ensures tag == "transitive_over" ==> r.Ok? && value in r.value.transitiveOver
  {
    if tag == "is_transitive" then
      if value == [] then Ok(st)
      else if "id" !in st.fields then Err("KeyError")
      else Ok(st.(transitiveOver := st.transitiveOver + {st.fields["id"]}))
    else if tag == "transitive_over" then
      Ok(st.(transitiveOver := st.transitiveOver + {value}))
    else ProcessTag(st, tag, value)
  }

  /** A word followed by its line break strips to the word. */
  lemma StripLine(w: string)
    requires w != [] && !IsSpace(w[0]) && !IsSpace(w[|w| - 1])
    ensures Strip(w + "\n") == w
  {
    var s := w + "\n";
    assert s[0] == w[0];
    assert LeadingSpaces(s) == 0;
    assert s[|s| - 2] == w[|w| - 1];
    assert TrailingSpaces(s[0..]) == 1 by {
      assert s[0..] == s;
    }
    assert s[0..|s| - 1] == w;
  }

  /** `split()` skips a leading whitespace character. */
  lemma WordsAfterSpace(c: char, rest: string)
    requires IsSpace(c)
    ensures Words([c] + rest) == Words(rest)
  {
    var s := [c] + rest;
    assert s[0] == c && s[1..] == rest;
    var i := LeadingSpaces(rest);
    assert LeadingSpaces(s) == i + 1;
    if i < |rest| {
      assert s[i + 1..] == rest[i..];
    }
  }

  /** `split()` of a word followed by whitespace or nothing. */
  lemma WordsFront(w: string, rest: string)
    requires w != [] && (forall k :: 0 <= k < |w| ==> !IsSpace(w[k]))
    requires rest == [] || IsSpace(rest[0])
    ensures Words(w + rest) == [w] + Words(rest)
  {
    var s := w + rest;
    assert s[0] == w[0];
    assert LeadingSpaces(s) == 0;
    assert s[0..] == s;
    assert forall k :: 0 <= k < |w| ==> s[k] == w[k];
    assert rest != [] ==> s[|w|] == rest[0];
    var j := WordLength(s);
    assert j == |w|;
    assert s[..j] == w && s[j..] == rest;
  }

  /** A word free of whitespace: a relationship type or a term id. */
  predicate IsWord(w: string)
  {
    w != [] && forall k :: 0 <= k < |w| ==> !IsSpace(w[k])
  }

  /** The relationship type stored by `transitive_over: T` is the type
    * `relationship: T id` records, so `transitive_closure` can match the
    * two. */
  lemma TransitiveOverMatchesRelationship(st: Stanza, rtype: string, id: string)
    requires IsWord(rtype) && IsWord(id)
    ensures ProcessTag(st, "transitive_over", rtype + "\n") ==
              Ok(st.(transitiveOver := st.transitiveOver + {rtype}))
    ensures ProcessTag(st, "relationship", rtype + " " + id + "\n") ==
              Ok(st.(relationships := st.relationships + [(rtype, id)]))
  {
    StripLine(rtype);
    RelationshipWords(rtype, id);
  }

  /** `split()` of a relationship value: its type and its target. */
  lemma RelationshipWords(rtype: string, id: string)
    requires IsWord(rtype) && IsWord(id)
    ensures Words(rtype + " " + id + "\n") == [rtype, id]
  {
    var nl := "\n";
    var b := [' '] + (id + nl);
    assert Words(b) == [id] by {
      assert IsSpace(nl[0]);
      assert Words(nl) == [];
      WordsFront(id, nl);
      WordsAfterSpace(' ', id + nl);
    }
    assert Words(rtype + b) == [rtype, id] by {
      assert b[0] == ' ';
      WordsFront(rtype, b);
    }
    Regroup(rtype, " ", id, nl);
  }

  /** Concatenation regrouped to the right. */
  lemma Regroup<T>(a: seq<T>, b: seq<T>, c: seq<T>, d: seq<T>)
    ensures a + b + c + d == a + (b + (c + d))
  {
  }

  /** The source as written stores the line `transitive_over: part_of`,
    * which has no ` ! ` comment, with its line break, and that differs from
    * the type `relationship: part_of GO:1` records. (A trailing comment, as
    * in `transitive_over: part_of ! part_of`, cuts the value before the
    * line break, and then the two happen to match.) */
  lemma TransitiveOverKeepsLineBreak()
    ensures var st := NewStanza("Typedef");
            var rtype := "part_of";
            && ProcessTagAsWritten(st, "transitive_over", rtype + "\n").value.transitiveOver == {rtype + "\n"}
            && ProcessTag(st, "relationship", rtype + " " + "GO:1" + "\n").Ok?
            && ProcessTag(st, "relationship", rtype + " " + "GO:1" + "\n").value.relationships == [(rtype, "GO:1")]
            && rtype !in ProcessTagAsWritten(st, "transitive_over", rtype + "\n").value.transitiveOver
  {
    var st := NewStanza("Typedef");
    var rtype := "part_of";
    assert IsWord(rtype) && IsWord("GO:1");
    TransitiveOverMatchesRelationship(st, rtype, "GO:1");
    assert |rtype + "\n"| != |rtype|;
  }

  /** `is_transitive` adds the typedef's own id exactly when its value reads
    * `true`. */
  lemma IsTransitiveOnlyTrue(st: Stanza, value: string)
    requires "id" in st.fields && st.fields["id"] !in st.transitiveOver
    ensures ProcessTag(st, "is_transitive", value).Ok?
    ensures st.fields["id"] in ProcessTag(st, "is_transitive", value).value.transitiveOver
            <==> Strip(value) == "true"
  {
  }

  /** The source as written reads `is_transitive: false` as transitive. */
  lemma IsTransitiveFalseAsWritten()
    ensures var st := NewStanza("Typedef").(fields := map["id" := "part_of"]);
            ProcessTagAsWritten(st, "is_transitive", "false\n").value.transitiveOver == {"part_of"}
            && ProcessTag(st, "is_transitive", "false\n") == Ok(st)
  {
    StripLine("false");
    assert "false" != "true";
  }

  /** `is_obsolete` marks the stanza only for the value `true`, and never
    * clears the mark. */
  lemma ObsoleteOnlyTrue(st: Stanza, value: string)
    ensures ProcessTag(st, "is_obsolete", value).Ok?
    ensures ProcessTag(st, "is_obsolete", value).value.isObsolete <==> st.isObsolete || Strip(value) == "true"
  {
  }

  /** A definition line stores the unescaped quoted text; without a quote
    * it stores the empty text. */
  lemma DefStored(st: Stanza, d: string, refs: string)
    requires '\n' !in d && '"' !in refs
    ensures ProcessTag(st, "def", ['"'] + d + ['"'] + refs) ==
              Ok(st.(fields := st.fields["def" := Unescaped(d)]))
    ensures ProcessTag(st, "def", "none\n") == Ok(st.(fields := st.fields["def" := Unescaped("")]))
  {
    QuotedRoundTrip(d, refs);
  }

  /** `is_a: id ! comment` records the parent id, without its line break
    * or surrounding blanks. */
  lemma IsARecorded(st: Stanza, id: string)
    requires IsWord(id)
    ensures ProcessTag(st, "is_a", id + "\n") == Ok(st.(relationships := st.relationships + [("is_a", id)]))
  {
    StripLine(id);
  }

  // ---------------------------------------------------------------------
  // Records

  /** The handlers applied to the pairs in order; the first error stops
    * the stanza. */
  function ProcessTags(st: Stanza, pairs: seq<(string, string)>): (r: Result<Stanza>)
    ensures r.Ok? ==> r.value.recordType == st.recordType && st.transitiveOver <= r.value.transitiveOver
    decreases |pairs|
  {
    if pairs == [] then Ok(st)
    else
      var s :- ProcessTags(st, pairs[..|pairs| - 1]);
      ProcessTag(s, pairs[|pairs| - 1].0, pairs[|pairs| - 1].1)
  }

  /** The pairs no handler takes, in order. */
  function Unhandled(pairs: seq<(string, string)>): (r: seq<(string, string)>)
    ensures |r| <= |pairs|
  {
    if pairs == [] then []
    else
      var last := pairs[|pairs| - 1];
      Unhandled(pairs[..|pairs| - 1]) + (if last.0 in HandledTags then [] else [last])
  }

  /** `raw_lines` keeps exactly the pairs without a handler, in file
    * order. */
  lemma {:induction false} RawLinesKept(st: Stanza, pairs: seq<(string, string)>)
    ensures ProcessTags(st, pairs).Ok? ==> ProcessTags(st, pairs).value.rawLines == st.rawLines + Unhandled(pairs)
    decreases |pairs|
  {
    if pairs != [] {
      var init := pairs[..|pairs| - 1];
      RawLinesKept(st, init);
      var s := ProcessTags(st, init);
      if s.Ok? && ProcessTags(st, pairs).Ok? {
        var last := pairs[|pairs| - 1];
        if last.0 in HandledTags {
          assert st.rawLines + Unhandled(pairs) == st.rawLines + Unhandled(init);
        } else {
          assert st.rawLines + Unhandled(pairs) == (st.rawLines + Unhandled(init)) + [last];
        }
      }
    }
  }

  /** Once a prefix of the pairs fails, the stanza fails with that error. */
  lemma {:induction false} ErrorStays(st: Stanza, pairs: seq<(string, string)>, k: nat)
    requires k <= |pairs| && ProcessTags(st, pairs[..k]).Err?
    ensures ProcessTags(st, pairs) == ProcessTags(st, pairs[..k])
    decreases |pairs| - k
  {
    if k < |pairs| {
      assert pairs[..|pairs| - 1][..k] == pairs[..k];
      ErrorStays(st, pairs[..|pairs| - 1], k);
    } else {
      assert pairs[..k] == pairs;
    }
  }

  /** One stanza as `_get_next_record` returns it: the processed record,
    * the name of the next stanza and the line where it starts. */
  datatype Record = Record(stanza: Stanza, next: Option<string>, resume: nat)

  /** `_get_next_record` from line `pos`. */
  function NextRecord(name: string, lines: seq<string>, pos: nat): (r: Result<Record>)
    requires pos <= |lines|
    ensures r.Ok? ==> r.value.stanza.recordType == name && pos <= r.value.resume <= |lines|
    ensures r.Ok? && r.value.next.Some? ==> pos < r.value.resume
  {
    var body :- StanzaBody(lines, pos);
    var st :- ProcessTags(NewStanza(name), body.pairs);
    Ok(Record(st, body.next, body.resume))
  }

  /** `_get_next_record`: reads the body, then hands each pair to its
    * handler or keeps it as a raw line. */
  method GetNextRecord(name: string, lines: seq<string>, pos: nat) returns (r: Result<Record>)
    requires pos <= |lines|
    ensures r == NextRecord(name, lines, pos)
  {
    var body := ParseStanzaBody(lines, pos);
    if body.Err? {
      return Err(body.error);
    }
    var st := ProcessPairs(NewStanza(name), body.value.pairs);
    if st.Err? {
      return Err(st.error);
    }
    return Ok(Record(st.value, body.value.next, body.value.resume));
  }

  /** The handler loop of `_get_next_record`: each pair in turn, stopping
    * at the first handler that raises. */
  method ProcessPairs(st0: Stanza, pairs: seq<(string, string)>) returns (r: Result<Stanza>)
    ensures r == ProcessTags(st0, pairs)
  {
    var st := st0;
    assert pairs[..0] == [];
    for k := 0 to |pairs|
      invariant ProcessTags(st0, pairs[..k]) == Ok(st)
    {
      var s := ProcessTag(st, pairs[k].0, pairs[k].1);
      assert ProcessTags(st0, pairs[..k + 1]) == s by {
        assert pairs[..k + 1][..k] == pairs[..k];
      }
      if s.Err? {
        ErrorStays(st0, pairs, k + 1);
        return s;
      }
      st := s.value;
    }
    assert pairs[..|pairs|] == pairs;
    return Ok(st);
  }

  /** The two dictionaries `_parse_entire_obo_file` fills: terms by id and
    * typedefs by id. */
  datatype Tables = Tables(terms: map<string, Stanza>, typedefs: map<string, Stanza>)

  /** What the stored dictionaries hold: terms of record type `Term` whose
    * id was moved out of their fields into the key, and typedefs of record
    * type `Typedef` stored under their own id. */
  predicate TablesValid(t: Tables)
  {
    && (forall id :: id in t.terms ==> t.terms[id].recordType == "Term" && "id" !in t.terms[id].fields)
    && (forall id :: id in t.typedefs ==>
          t.typedefs[id].recordType == "Typedef" && "id" in t.typedefs[id].fields
          && t.typedefs[id].fields["id"] == id)
  }

  /** A record stored by its type: a term under the id popped from it, a
    * typedef under its id; other stanzas (the header) are dropped. A
    * term or typedef without an id fails (KeyError). */
  function Store(t: Tables, st: Stanza): (r: Result<Tables>)
    ensures TablesValid(t) && r.Ok? ==> TablesValid(r.value)
    ensures r.Ok? ==> t.terms.Keys <= r.value.terms.Keys && t.typedefs.Keys <= r.value.typedefs.Keys
    ensures r.Err? <==> (st.recordType == "Term" || st.recordType == "Typedef") && "id" !in st.fields
    ensures r.Ok? && st.recordType == "Term" ==>
              r.value == Tables(t.terms[st.fields["id"] := st.(fields := st.fields - {"id"})], t.typedefs)
    ensures r.Ok? && st.recordType != "Term" && st.recordType != "Typedef" ==> r.value == t
  {
    if st.recordType == "Term" then
      if "id" !in st.fields then Err("KeyError")
      else Ok(Tables(t.terms[st.fields["id"] := st.(fields := st.fields - {"id"})], t.typedefs))
    else if st.recordType == "Typedef" then
      if "id" !in st.fields then Err("KeyError")
      else Ok(Tables(t.terms, t.typedefs[st.fields["id"] := st]))
    else Ok(t)
  }

  /** The stanza loop of `_parse_entire_obo_file` from the stanza `name`
    * whose body starts at line `pos`, storing into `t`. */
  function Loaded(lines: seq<string>, name: string, pos: nat, t: Tables): (r: Result<Tables>)
    requires pos <= |lines|
    ensures TablesValid(t) && r.Ok? ==> TablesValid(r.value)
    ensures r.Ok? ==> t.terms.Keys <= r.value.terms.Keys && t.typedefs.Keys <= r.value.typedefs.Keys
    decreases |lines| - pos
  {
    var rec :- NextRecord(name, lines, pos);
    var stored :- Store(t, rec.stanza);
    if rec.next.None? then Ok(stored)
    else Loaded(lines, rec.next.value, rec.resume, stored)
  }

  /** The whole file, read from its implicit `HEADER` stanza. */
  function LoadedFile(lines: seq<string>): (r: Result<Tables>)
    ensures r.Ok? ==> TablesValid(r.value)
  {
    Loaded(lines, "HEADER", 0, Tables(map[], map[]))
  }
}
