/** String operations of Python that several modules use: `''.join`,
  * `sep.join`, ASCII `upper`, and `int`/`str` on decimal integers. */
module Text {
  import opened Wrappers

  /** `''.join(pieces)`. */
  function Concat(pieces: seq<string>): string
  {
    if pieces == [] then "" else Concat(pieces[..|pieces| - 1]) + pieces[|pieces| - 1]
  }

  /** `sep.join(items)`: the items with `sep` between neighbours. */
  function Joined(items: seq<string>, sep: string): string
  {
    if |items| == 0 then ""
    else if |items| == 1 then items[0]
    else Joined(items[..|items| - 1], sep) + sep + items[|items| - 1]
  }

  /** Joining is concatenating every item but the last with the
    * separator appended, then the last item. */
  lemma {:induction false} JoinedAsConcat(items: seq<string>, sep: string)
    requires items != []
    ensures Joined(items, sep) ==
              Concat(seq(|items| - 1, k requires 0 <= k < |items| - 1 => items[k] + sep)) + items[|items| - 1]
  {
    var m := |items| - 1;
    var ps := seq(m, k requires 0 <= k < m => items[k] + sep);
    if m > 0 {
      var init := items[..m];
      var ps' := seq(m - 1, k requires 0 <= k < m - 1 => init[k] + sep);
      JoinedAsConcat(init, sep);
      assert ps[..m - 1] == ps';
      assert init[..m - 1] == items[..m - 1];
    } else {
      assert ps == [];
    }
  }

  function UpperChar(c: char): char
  {
    if 'a' <= c <= 'z' then (c as int - 32) as char else c
  }

  /** `s.upper()` on a byte string in the C locale: only the ASCII letters
    * change. */
  function Upper(s: string): (r: string)
    ensures |r| == |s| && forall k :: 0 <= k < |s| ==> r[k] == UpperChar(s[k])
  {
    seq(|s|, k requires 0 <= k < |s| => UpperChar(s[k]))
  }

  function LowerChar(c: char): char
  {
    if 'A' <= c <= 'Z' then (c as int + 32) as char else c
  }

  /** `s.lower()` on a byte string in the C locale. */
  function Lower(s: string): (r: string)
    ensures |r| == |s| && forall k :: 0 <= k < |s| ==> r[k] == LowerChar(s[k])
  {
    seq(|s|, k requires 0 <= k < |s| => LowerChar(s[k]))
  }

  /** The bytes `str.isspace` accepts: space, tab, line feed, vertical tab,
    * form feed and carriage return. */
  predicate IsSpace(c: char)
  {
    c == ' ' || '\t' <= c <= '\r'
  }

  /** The number of whitespace characters at the front of `s`. */
  function LeadingSpaces(s: string): (n: nat)
    ensures n <= |s| && (n < |s| ==> !IsSpace(s[n]))
    ensures forall k :: 0 <= k < n ==> IsSpace(s[k])
  {
    if s == [] || !IsSpace(s[0]) then 0 else 1 + LeadingSpaces(s[1..])
  }

  /** The number of whitespace characters at the back of `s`. */
  function TrailingSpaces(s: string): (n: nat)
    ensures n <= |s| && (n < |s| ==> !IsSpace(s[|s| - 1 - n]))
    ensures forall k :: |s| - n <= k < |s| ==> IsSpace(s[k])
  {
    if s == [] || !IsSpace(s[|s| - 1]) then 0 else 1 + TrailingSpaces(s[..|s| - 1])
  }

  /** `s.strip()`: `s` without its leading and trailing whitespace. */
  function Strip(s: string): (r: string)
    ensures r == [] <==> forall k :: 0 <= k < |s| ==> IsSpace(s[k])
    ensures r != [] ==> !IsSpace(r[0]) && !IsSpace(r[|r| - 1])
  {
    var i := LeadingSpaces(s);
    if i == |s| then [] else s[i..|s| - TrailingSpaces(s[i..])]
  }

  /** `pat` occurs in `s` starting at position k. */
  predicate OccursAt(s: string, pat: string, k: int)
  {
    0 <= k && k + |pat| <= |s| && s[k..k + |pat|] == pat
  }

  /** The leftmost occurrence of `pat` in `s` at or after position i. */
  function FindFrom(s: string, pat: string, i: nat): (r: Option<nat>)
    requires i <= |s|
    ensures r.Some? ==> i <= r.value && OccursAt(s, pat, r.value)
    ensures forall k :: i <= k && (r.None? || k < r.value) ==> !OccursAt(s, pat, k)
    decreases |s| - i
  {
    if i + |pat| > |s| then None
    else if s[i..i + |pat|] == pat then Some(i)
    else FindFrom(s, pat, i + 1)
  }

  /** `s.find(pat)`, as an option. */
  function Find(s: string, pat: string): (r: Option<nat>)
    ensures r.Some? ==> OccursAt(s, pat, r.value)
    ensures forall k :: (r.None? || k < r.value) ==> !OccursAt(s, pat, k)
    ensures |pat| == 1 && r.Some? ==> s[r.value] == pat[0] && pat[0] !in s[..r.value]
    ensures |pat| == 1 && r.None? ==> pat[0] !in s
  {
    var r := FindFrom(s, pat, 0);
    if |pat| == 1 then
      assert pat == [pat[0]];
      SingleCharSearch(s, pat[0], if r.Some? then r.value else |s|);
      r
    else r
  }

  /** A single character does not occur before position n when no
    * one-character occurrence starts there. */
  lemma SingleCharSearch(s: string, c: char, n: nat)
    requires n <= |s| && forall k :: k < n ==> !OccursAt(s, [c], k)
    ensures c !in s[..n]
    ensures n < |s| && OccursAt(s, [c], n) ==> s[n] == c
  {
    forall k | 0 <= k < n ensures s[k] != c {
      assert !OccursAt(s, [c], k);
      assert s[k..k + 1] == [s[k]];
    }
    if n < |s| {
      assert s[n..n + 1] == [s[n]];
    }
  }

  /** `s.split(sep)[0]`: what precedes the first separator, or all of `s`. */
  function Before(s: string, sep: string): (r: string)
    ensures r <= s
    ensures Find(s, sep).None? ==> r == s
    ensures Find(s, sep).Some? ==> OccursAt(s, sep, |r|) && forall k :: k < |r| ==> !OccursAt(s, sep, k)
    ensures |sep| == 1 ==> sep[0] !in r
  {
    match Find(s, sep)
    case None => s
    case Some(k) => s[..k]
  }

  /** `s.replace(pat, rep)`: occurrences of `pat` replaced from left to
    * right, each scan resuming after the replaced text. */
  function Replace(s: string, pat: string, rep: string): (r: string)
    requires pat != []
    ensures (forall k :: !OccursAt(s, pat, k)) ==> r == s
    ensures |pat| == 1 && pat[0] !in rep ==> pat[0] !in r
    decreases |s|
  {
    if |s| < |pat| then s
    else if s[..|pat|] == pat then
      assert OccursAt(s, pat, 0);
      rep + Replace(s[|pat|..], pat, rep)
    else
      var rest := Replace(s[1..], pat, rep);
      assert (forall k :: !OccursAt(s, pat, k)) ==> forall k :: !OccursAt(s[1..], pat, k) by {
        forall k | OccursAt(s[1..], pat, k) ensures OccursAt(s, pat, k + 1) {
          assert s[k + 1..k + 1 + |pat|] == s[1..][k..k + |pat|];
        }
      }
      assert |pat| == 1 ==> s[0] != pat[0] by {
        if |pat| == 1 {
          assert s[..1] == [s[0]];
        }
      }
      [s[0]] + rest
  }

  /** The length of the run of non-whitespace characters at the front. */
  function WordLength(s: string): (n: nat)
    ensures n <= |s| && (n < |s| ==> IsSpace(s[n]))
    ensures forall k :: 0 <= k < n ==> !IsSpace(s[k])
  {
    if s == [] || IsSpace(s[0]) then 0 else 1 + WordLength(s[1..])
  }

  /** `s.split()`: the maximal runs of non-whitespace characters, in
    * order. */
  function Words(s: string): (ws: seq<string>)
    ensures forall k :: 0 <= k < |ws| ==> ws[k] != [] && forall c :: c in ws[k] ==> !IsSpace(c) && c in s
    ensures (forall k :: 0 <= k < |s| ==> IsSpace(s[k])) <==> ws == []
    decreases |s|
  {
    var i := LeadingSpaces(s);
    if i == |s| then []
    else
      var rest := s[i..];
      var j := WordLength(rest);
      assert j > 0 && !IsSpace(s[i]);
      InSlices(s, i, j);
      [rest[..j]] + Words(rest[j..])
  }

  /** The characters of a word of `s`, and of what follows it, are
    * characters of `s`. */
  lemma InSlices(s: string, i: nat, j: nat)
    requires i + j <= |s|
    ensures forall c :: c in s[i..][..j] ==> c in s
    ensures forall c :: c in s[i..][j..] ==> c in s
  {
    forall c | c in s[i..][..j] ensures c in s {
      var p :| 0 <= p < j && s[i..][..j][p] == c;
      assert s[i + p] == c;
    }
    forall c | c in s[i..][j..] ensures c in s {
      var p :| 0 <= p < |s| - i - j && s[i..][j..][p] == c;
      assert s[i + j + p] == c;
    }
  }

  // ------------------------------------------------------------------
  // Decimal integers
  // ------------------------------------------------------------------

  predicate IsDigit(c: char)
  {
    '0' <= c <= '9'
  }

  predicate AllDigits(s: string)
  {
    forall k :: 0 <= k < |s| ==> IsDigit(s[k])
  }

  function DigitsValue(s: string): nat
    requires AllDigits(s)
  {
    if s == [] then 0 else 10 * DigitsValue(s[..|s| - 1]) + (s[|s| - 1] as int - '0' as int)
  }

  /** `int(s)` on a string: an optional sign and one or more decimal
    * digits, or nothing when Python raises ValueError. */
  function ParseInt(s: string): Option<int>
  {
    var signed := s != [] && (s[0] == '-' || s[0] == '+');
    var digits := if signed then s[1..] else s;
    if digits == [] || !AllDigits(digits) then None
    else
      var v: int := DigitsValue(digits);
      Some(if signed && s[0] == '-' then -v else v)
  }

  /** The decimal digits of `n`, most significant first. */
  function NatToString(n: nat): (r: string)
    ensures r != [] && AllDigits(r) && DigitsValue(r) == n
  {
    var last := ('0' as int + n % 10) as char;
    if n < 10 then [last]
    else
      var r := NatToString(n / 10) + [last];
      assert r[..|r| - 1] == NatToString(n / 10);
      r
  }

  /** `str(x)` on an integer: `int` reads it back. */
  function IntToString(x: int): (r: string)
    ensures ParseInt(r) == Some(x)
  {
    if x < 0 then
      var r := "-" + NatToString(-x);
      assert r[1..] == NatToString(-x);
      r
    else NatToString(x)
  }

  function Pow10(n: nat): (r: nat)
    ensures r >= 1
  {
    if n == 0 then 1 else 10 * Pow10(n - 1)
  }

  /** `float(s)` on a string in plain decimal notation: surrounding
    * whitespace, an optional sign, then digits with at most one decimal
    * point and at least one digit; nothing when Python raises ValueError. */
  function ParseFloat(s: string): Option<real>
  {
    var t := Strip(s);
    var u := if t != [] && (t[0] == '+' || t[0] == '-') then t[1..] else t;
    var i := match Find(u, ".") case Some(k) => k case None => |u|;
    var whole := u[..i];
    var frac := if i < |u| then u[i + 1..] else "";
    if (whole == [] && frac == []) || !AllDigits(whole) || !AllDigits(frac) then None
    else
      var x := DigitsValue(whole) as real + DigitsValue(frac) as real / Pow10(|frac|) as real;
      Some(if t[0] == '-' then -x else x)
  }

  /** A string of digits reads as the same number with `float` as with
    * `int`. */
  lemma ParseFloatDigits(s: string)
    requires s != [] && AllDigits(s)
    ensures ParseFloat(s) == Some(DigitsValue(s) as real)
  {
    assert !IsSpace(s[0]) && !IsSpace(s[|s| - 1]);
    assert LeadingSpaces(s) == 0;
    assert TrailingSpaces(s) == 0;
    assert Strip(s) == s[0..|s|] == s;
    assert s[0] != '+' && s[0] != '-';
    assert '.' !in s;
    assert s[..|s|] == s;
  }
}
