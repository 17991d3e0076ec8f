/** The ITM Probe pictures (common/graphics/itm_graphics.py): the layout
  * of the shown part of a graph that neato places, the bin edges of the
  * colour scales, and the node colours of a one-colour or a mixed-colour
  * picture of a placed layout. */
module ItmGraphics {
  import opened Wrappers
  import opened Text
  import opened Ordering
  import opened Digraph

  /** A fill darker than this gets a white font
    * (common/graphics/itm_graphics.py:34). */
  const MinBrightness: real := 0.3

  /** A value of an attribute dictionary: a number or a word. */
  datatype Value = Num(x: real) | Word(w: string)

  /** The attribute dictionary of one node. */
  type Style = map<string, Value>

  type Edge = (string, string)

  /** An attribute dictionary whose values are already text. */
  type Dict = map<string, string>

  // ------------------------------------------------------------------
  // Bin edges
  // ------------------------------------------------------------------

  /** `discretize_linear(num_bins, a, b)`: bin k starts at
    * a + k (b - a) / num_bins; no bins at all is ZeroDivisionError
    * (common/graphics/itm_graphics.py:43-46). */
  function DiscretizeLinear(numBins: int, a: real, b: real): (r: Result<int -> real>)
    ensures r.Err? <==> numBins == 0
  {
    if numBins == 0 then Err("ZeroDivisionError")
    else
      var step := (b - a) / numBins as real;
      Ok(k => a + step * k as real)
  }

  /** `discretize_sqrt(num_bins, a, b)`: the squares of the linear edges
    * (common/graphics/itm_graphics.py:49-52). */
  function DiscretizeSqrt(numBins: int, a: real, b: real): (r: Result<int -> real>)
    ensures r.Err? <==> numBins == 0
  {
    if numBins == 0 then Err("ZeroDivisionError")
    else
      var step := (b - a) / numBins as real;
      Ok(k => (a + step * k as real) * (a + step * k as real))
  }

  /** The exponent of `discretize_log_upper(num_bins, b, step, base)`: bin
    * k starts at base to the power b - step (num_bins - k)
    * (common/graphics/itm_graphics.py:37-40). */
  function LogUpperExponent(numBins: int, b: real, step: real): (f: int -> real)
  {
    var a := b - step * numBins as real;
    k => a + step * k as real
  }

  /** The linear edges run from a at bin 0 to b at the last bin. */
  lemma LinearEnds(numBins: int, a: real, b: real)
    requires numBins != 0
    ensures DiscretizeLinear(numBins, a, b).value(0) == a
    ensures DiscretizeLinear(numBins, a, b).value(numBins) == b
  {
    var step := (b - a) / numBins as real;
    assert step * numBins as real == b - a;
  }

  /** With a below b, later bins start higher. */
  lemma LinearMonotone(numBins: int, a: real, b: real, k: int, l: int)
    requires numBins > 0 && a <= b && k <= l
    ensures DiscretizeLinear(numBins, a, b).value(k) <= DiscretizeLinear(numBins, a, b).value(l)
  {
    var step := (b - a) / numBins as real;
    assert step >= 0.0;
    assert step * k as real <= step * l as real by {
      assert step * (l - k) as real >= 0.0;
    }
  }

  /** The square-root edges run from a² to b², never below zero. */
  lemma SqrtEnds(numBins: int, a: real, b: real, k: int)
    requires numBins != 0
    ensures DiscretizeSqrt(numBins, a, b).value(0) == a * a
    ensures DiscretizeSqrt(numBins, a, b).value(numBins) == b * b
    ensures DiscretizeSqrt(numBins, a, b).value(k) >= 0.0
  {
    var step := (b - a) / numBins as real;
    assert step * numBins as real == b - a;
    var x := a + step * k as real;
    assert x * x >= 0.0;
  }

  /** The logarithmic edges end at base to the power b, and each bin is
    * `step` above the one before in the exponent. */
  lemma LogUpperEnds(numBins: int, b: real, step: real, k: int)
    ensures LogUpperExponent(numBins, b, step)(numBins) == b
    ensures LogUpperExponent(numBins, b, step)(k + 1) == LogUpperExponent(numBins, b, step)(k) + step
  {
  }

  // ------------------------------------------------------------------
  // Bins of values
  // ------------------------------------------------------------------

  /** `np.digitize(x, bins)` for increasing bins: the number of bin edges
    * at or below x. */
  function Digitize(x: real, bins: seq<real>): (i: nat)
    ensures i <= |bins|
  {
    if bins == [] then 0
    else Digitize(x, bins[..|bins| - 1]) + (if bins[|bins| - 1] <= x then 1 else 0)
  }

  predicate NonDecreasing(bins: seq<real>)
  {
    forall i, j :: 0 <= i < j < |bins| ==> bins[i] <= bins[j]
  }

  /** For increasing bins the index is numpy's: `bins[i-1] <= x < bins[i]`,
    * with the missing edge below the first bin and above the last. */
  lemma {:induction false} DigitizeBrackets(x: real, bins: seq<real>)
    requires NonDecreasing(bins)
    ensures var i := Digitize(x, bins);
      (i == 0 || bins[i - 1] <= x) && (i == |bins| || x < bins[i])
  {
    if bins != [] {
      var init := bins[..|bins| - 1];
      DigitizeBrackets(x, init);
      assert forall k :: 0 <= k < |init| ==> init[k] <= bins[|bins| - 1];
    }
  }

  /** A larger value never falls in a lower bin. */
  lemma {:induction false} DigitizeMonotone(x: real, y: real, bins: seq<real>)
    requires x <= y
    ensures Digitize(x, bins) <= Digitize(y, bins)
  {
    if bins != [] {
      DigitizeMonotone(x, y, bins[..|bins| - 1]);
    }
  }

  // ------------------------------------------------------------------
  // Colour text
  // ------------------------------------------------------------------

  const HexDigits := "0123456789abcdef"

  /** The lower-case hexadecimal digits of n, most significant first. */
  function HexText(n: nat): (r: string)
    ensures r != []
    ensures forall c :: c in r ==> c in HexDigits
  {
    if n < 16 then [HexDigits[n]] else HexText(n / 16) + [HexDigits[n % 16]]
  }

  /** The value of one hexadecimal digit. */
  function HexDigitValue(c: char): nat
  {
    if '0' <= c <= '9' then c as int - '0' as int
    else if 'a' <= c <= 'f' then c as int - 'a' as int + 10
    else 0
  }

  function HexValue(s: string): nat
  {
    if s == [] then 0 else 16 * HexValue(s[..|s| - 1]) + HexDigitValue(s[|s| - 1])
  }

  /** `'%.2x' % n`: at least two hexadecimal digits, after a minus sign
    * for a negative number. */
  function Hex2(n: int): string
  {
    var digits := HexText(if n < 0 then -n else n);
    var padded := if |digits| < 2 then "0" + digits else digits;
    if n < 0 then "-" + padded else padded
  }

  lemma {:induction false} HexTextValue(n: nat)
    ensures HexValue(HexText(n)) == n
    ensures n < 256 ==> |HexText(n)| <= 2
  {
    if n >= 16 {
      HexTextValue(n / 16);
      var r := HexText(n / 16) + [HexDigits[n % 16]];
      assert r[..|r| - 1] == HexText(n / 16);
    } else {
      assert HexText(n)[..0] == [];
    }
  }

  /** A leading zero does not change a hexadecimal value. */
  lemma {:induction false} LeadingZero(s: string)
    ensures HexValue("0" + s) == HexValue(s)
  {
    if s != [] {
      assert ("0" + s)[..|s|] == "0" + s[..|s| - 1];
      LeadingZero(s[..|s| - 1]);
    } else {
      assert "0"[..0] == "";
    }
  }

  /** A channel value is written as two digits that read back as it. */
  lemma Hex2RoundTrip(n: int)
    requires 0 <= n < 256
    ensures |Hex2(n)| == 2 && HexValue(Hex2(n)) == n
  {
    HexTextValue(n);
    LeadingZero(HexText(n));
  }

  /** `'"#%.2x%.2x%.2x"' % rgb`: the quoted colour of a fill. */
  function ColorText(rgb: (int, int, int)): string
  {
    "\"#" + Hex2(rgb.0) + Hex2(rgb.1) + Hex2(rgb.2) + "\""
  }

  predicate IsChannel(n: int)
  {
    0 <= n < 256
  }

  /** Channels in range give a nine-character colour whose three digit
    * pairs read back as the channels. */
  lemma ColorTextRoundTrip(rgb: (int, int, int))
    requires IsChannel(rgb.0) && IsChannel(rgb.1) && IsChannel(rgb.2)
    ensures var t := ColorText(rgb);
      |t| == 9 && t[..2] == "\"#" && t[8] == '"'
      && HexValue(t[2..4]) == rgb.0 && HexValue(t[4..6]) == rgb.1 && HexValue(t[6..8]) == rgb.2
  {
    Hex2RoundTrip(rgb.0);
    Hex2RoundTrip(rgb.1);
    Hex2RoundTrip(rgb.2);
    var t := ColorText(rgb);
    assert t[2..4] == Hex2(rgb.0);
    assert t[4..6] == Hex2(rgb.1);
    assert t[6..8] == Hex2(rgb.2);
  }

  /** The mean of the channels over 256 is below the minimum brightness
    * (common/graphics/itm_graphics.py:152,201). */
  predicate Dark(rgb: (int, int, int))
  {
    (rgb.0 + rgb.1 + rgb.2) as real / 3.0 / 256.0 < MinBrightness
  }

  // ------------------------------------------------------------------
  // Painting the shown nodes
  // ------------------------------------------------------------------

  /** The fill of one node and whether its font turns white. */
  datatype Paint = Paint(fill: string, dark: bool)

  const WhiteFont := "\"#ffffff\""

  /** The node dictionaries after painting `shown[..]` in turn: each gets
    * its fill colour, and a white font when its fill is dark
    * (common/graphics/itm_graphics.py:156-161,195-203). */
  function Painted(shown: seq<string>, paints: seq<Paint>): (m: map<string, Dict>)
    requires |paints| == |shown|
    ensures forall v :: v in m <==> v in shown
  {
    if shown == [] then map[]
    else
      var n := |shown| - 1;
      var m := Painted(shown[..n], paints[..n]);
      var v, p := shown[n], paints[n];
      var d := (if v in m then m[v] else map[])["fillcolor" := p.fill];
      m[v := if p.dark then d["fontcolor" := WhiteFont] else d]
  }

  predicate Distinct(xs: seq<string>)
  {
    forall i, j :: 0 <= i < j < |xs| ==> xs[i] != xs[j]
  }

  /** Of nodes shown once, each gets its own fill, and a font entry exactly
    * when the fill is dark. */
  lemma {:induction false} PaintedNode(shown: seq<string>, paints: seq<Paint>, k: nat)
    requires |paints| == |shown| && Distinct(shown) && k < |shown|
    ensures var d := Painted(shown, paints)[shown[k]];
      && d.Keys == (if paints[k].dark then {"fillcolor", "fontcolor"} else {"fillcolor"})
      && d["fillcolor"] == paints[k].fill
      && (paints[k].dark ==> d["fontcolor"] == WhiteFont)
  {
    var n := |shown| - 1;
    var init := shown[..n];
    assert Distinct(init);
    if k < n {
      PaintedNode(init, paints[..n], k);
      assert shown[k] == init[k] && paints[k] == paints[..n][k];
    } else {
      assert shown[n] !in init by {
        forall j | 0 <= j < n ensures init[j] != shown[n] {
          assert init[j] == shown[j];
        }
      }
    }
  }

  /** The default blocks of a mixed-colour picture
    * (common/graphics/itm_graphics.py:173-182). */
  const MixedDefaults: map<string, Dict> := map[
    "graph" := map["bgcolor" := "transparent"],
    "node" := map["fontcolor" := "\"#000000\"", "fontname" := "\"Helvetica\"", "color" := "\"#606060\""],
    "edge" := map["color" := "\"#606060\"", "arrowsize" := "0.5"]]

  /** The default blocks of a one-colour picture with colour scheme
    * `colormap` (common/graphics/itm_graphics.py:140-150). */
  function OneColorDefaults(colormap: string): (d: map<string, Dict>)
    ensures d.Keys == MixedDefaults.Keys
    ensures "node" in d && "colorscheme" in d["node"] && d["node"]["colorscheme"] == colormap
    ensures d["graph"] == MixedDefaults["graph"] && d["edge"] == MixedDefaults["edge"]
  {
    MixedDefaults["node" := MixedDefaults["node"]["colorscheme" := colormap]]
  }

  /** The colour of one node from its channel values, picked by how many
    * columns there are (common/graphics/itm_graphics.py:188-193): the
    * first column is always red; one column leaves green and blue full;
    * two make the second blue; three make the second blue and the third
    * green. */
  function Pick(z: seq<int>): (rgb: (int, int, int))
    requires |z| >= 1
    ensures rgb.0 == z[0]
    ensures rgb.1 == (if |z| >= 3 then z[2] else 255)
    ensures rgb.2 == (if |z| >= 2 then z[1] else 255)
  {
    if |z| == 1 then (z[0], 255, 255)
    else if |z| == 2 then (z[0], 255, z[1])
    else (z[0], z[2], z[1])
  }

  /** The channel values of a node: 255 less the bin of each column. */
  function Channels(row: seq<real>, bins: seq<real>): (z: seq<int>)
    ensures |z| == |row|
    ensures forall j :: 0 <= j < |z| ==> 255 - |bins| <= z[j] <= 255
  {
    seq(|row|, j requires 0 <= j < |row| => 255 - Digitize(row[j], bins))
  }

  function MixedPaint(z: seq<int>): Paint
    requires |z| >= 1
  {
    Paint(ColorText(Pick(z)), Dark(Pick(z)))
  }

  /** A value matrix with `rows` rows of `cols` columns. */
  predicate Shaped(values: seq<seq<real>>, rows: nat, cols: nat)
  {
    |values| == rows && forall i :: 0 <= i < |values| ==> |values[i]| == cols
  }

  /** `Z[:, j] = 255 - np.digitize(node_values[:, j], bins)` for every
    * column (common/graphics/itm_graphics.py:184-186). */
  method ChannelMatrix(values: seq<seq<real>>, cols: nat, bins: seq<real>) returns (z: array2<int>)
    requires Shaped(values, |values|, cols)
    ensures fresh(z) && z.Length0 == |values| && z.Length1 == cols
    ensures forall i, j :: 0 <= i < |values| && 0 <= j < cols ==> z[i, j] == Channels(values[i], bins)[j]
  {
    z := new int[|values|, cols];
    for j := 0 to cols
      invariant forall i, c :: 0 <= i < |values| && 0 <= c < j ==> z[i, c] == Channels(values[i], bins)[c]
    {
      for i := 0 to |values|
        invariant forall r, c :: 0 <= r < |values| && 0 <= c < j ==> z[r, c] == Channels(values[r], bins)[c]
        invariant forall r :: 0 <= r < i ==> z[r, j] == Channels(values[r], bins)[j]
      {
        z[i, j] := 255 - Digitize(values[i][j], bins);
      }
    }
  }

  /** The colours of a mixed-colour picture. */
  datatype Coloring = Coloring(nodesAttr: map<string, Dict>, defaults: map<string, Dict>)

  /** The paints of a mixed-colour picture, node by node. */
  function MixedPaints(values: seq<seq<real>>, cols: nat, bins: seq<real>): (ps: seq<Paint>)
    requires cols >= 1 && Shaped(values, |values|, cols)
    ensures |ps| == |values|
  {
    seq(|values|, i requires 0 <= i < |values| => MixedPaint(Channels(values[i], bins)))
  }

  /** `render_mixed_color` up to the neato run: every shown node is filled
    * with the colour its channel values pick; with no column at all the
    * picker is never bound, which fails at the first node
    * (common/graphics/itm_graphics.py:170-207). */
  method RenderMixedColor(shown: seq<string>, values: seq<seq<real>>, cols: nat, bins: seq<real>)
    returns (r: Result<Coloring>)
    requires Shaped(values, |shown|, cols)
    ensures r.Err? <==> shown != [] && cols == 0
    ensures r.Ok? && cols >= 1 ==> r.value == Coloring(Painted(shown, MixedPaints(values, cols, bins)), MixedDefaults)
    ensures r.Ok? && cols == 0 ==> r.value == Coloring(map[], MixedDefaults)
  {
    var z := ChannelMatrix(values, cols, bins);
    if cols == 0 {
      if shown != [] {
        return Err("UnboundLocalError");
      }
      return Ok(Coloring(map[], MixedDefaults));
    }
    var paints := seq(|shown|, i requires 0 <= i < |shown| reads z =>
      MixedPaint(seq(cols, j requires 0 <= j < cols reads z => z[i, j])));
    assert paints == MixedPaints(values, cols, bins) by {
      forall i | 0 <= i < |shown| ensures paints[i] == MixedPaints(values, cols, bins)[i] {
        assert seq(cols, j requires 0 <= j < cols reads z => z[i, j]) == Channels(values[i], bins);
      }
    }
    var attrs := PaintNodes(shown, paints);
    r := Ok(Coloring(attrs, MixedDefaults));
  }

  /** The loop over the shown nodes that fills each with its paint
    * (common/graphics/itm_graphics.py:156-161,195-203). */
  method PaintNodes(shown: seq<string>, paints: seq<Paint>) returns (attrs: map<string, Dict>)
    requires |paints| == |shown|
    ensures attrs == Painted(shown, paints)
  {
    attrs := map[];
    for i := 0 to |shown|
      invariant attrs == Painted(shown[..i], paints[..i])
    {
      var d := (if shown[i] in attrs then attrs[shown[i]] else map[])["fillcolor" := paints[i].fill];
      if paints[i].dark {
        d := d["fontcolor" := WhiteFont];
      }
      assert shown[..i + 1][..i] == shown[..i] && paints[..i + 1][..i] == paints[..i];
      attrs := attrs[shown[i] := d];
    }
    assert shown[..|shown|] == shown && paints[..|shown|] == paints;
  }

  /** With at most 255 bins every channel is a byte, so every fill is a
    * well-formed colour that reads back as its channels. */
  lemma MixedChannelsInRange(row: seq<real>, bins: seq<real>)
    requires |row| >= 1 && |bins| <= 255
    ensures var rgb := Pick(Channels(row, bins));
      IsChannel(rgb.0) && IsChannel(rgb.1) && IsChannel(rgb.2)
  {
  }

  /** A node whose values all lie below the first bin edge is white, with
    * the default black font. */
  lemma LowValuesWhite(row: seq<real>, bins: seq<real>)
    requires |row| >= 1 && bins != [] && NonDecreasing(bins)
    requires forall j :: 0 <= j < |row| ==> row[j] < bins[0]
    ensures Pick(Channels(row, bins)) == (255, 255, 255)
    ensures !MixedPaint(Channels(row, bins)).dark
  {
    assert forall k :: 0 <= k < |bins| ==> bins[0] <= bins[k];
    forall j | 0 <= j < |row| ensures Digitize(row[j], bins) == 0 {
      DigitizeBrackets(row[j], bins);
    }
  }

  /** A larger value in a column never makes its channel brighter. */
  lemma MixedDarkens(row: seq<real>, row2: seq<real>, bins: seq<real>, j: nat)
    requires |row| == |row2| && j < |row| && row[j] <= row2[j]
    ensures Channels(row2, bins)[j] <= Channels(row, bins)[j]
  {
    DigitizeMonotone(row[j], row2[j], bins);
  }

  /** The paints of a one-colour picture: fill number 1 + bin, dark when
    * the bin's colour of the scheme is. */
  function OnePaints(values: seq<real>, bins: seq<real>, colors: seq<(int, int, int)>): (ps: seq<Paint>)
    requires forall i :: 0 <= i < |values| ==> Digitize(values[i], bins) < |colors|
    ensures |ps| == |values|
  {
    seq(|values|, i requires 0 <= i < |values| =>
      Paint(IntToString(1 + Digitize(values[i], bins)), Dark(colors[Digitize(values[i], bins)])))
  }

  /** `render_one_color` up to the neato run, with the colour list of the
    * scheme given: every shown node is filled with the number of its bin
    * plus one; a bin past the end of the colour list is IndexError
    * (common/graphics/itm_graphics.py:136-167). */
  method RenderOneColor(shown: seq<string>, values: seq<real>, bins: seq<real>, colormap: string,
                        colors: seq<(int, int, int)>)
    returns (r: Result<Coloring>)
    requires |values| == |shown|
    ensures r.Err? <==> exists i :: 0 <= i < |values| && Digitize(values[i], bins) >= |colors|
    ensures r.Ok? ==> r.value == Coloring(Painted(shown, OnePaints(values, bins, colors)), OneColorDefaults(colormap))
  {
    var ixs := seq(|values|, i requires 0 <= i < |values| => Digitize(values[i], bins));
    if exists i :: 0 <= i < |ixs| && ixs[i] >= |colors| {
      return Err("IndexError");
    }
    assert forall i :: 0 <= i < |values| ==> Digitize(values[i], bins) < |colors| by {
      forall i | 0 <= i < |values| ensures Digitize(values[i], bins) < |colors| {
        assert ixs[i] == Digitize(values[i], bins);
      }
    }
    var paints := seq(|shown|, i requires 0 <= i < |shown| && ixs[i] < |colors| =>
      Paint(IntToString(1 + ixs[i]), Dark(colors[ixs[i]])));
    assert paints == OnePaints(values, bins, colors);
    var attrs := PaintNodes(shown, paints);
    r := Ok(Coloring(attrs, OneColorDefaults(colormap)));
  }

  /** A one-colour fill names a colour of the scheme, counted from one, and
    * a larger value never gets a lower colour. */
  lemma OneColorFill(values: seq<real>, bins: seq<real>, colors: seq<(int, int, int)>, i: nat, j: nat)
    requires forall k :: 0 <= k < |values| ==> Digitize(values[k], bins) < |colors|
    requires i < |values| && j < |values| && values[i] <= values[j]
    ensures var ps := OnePaints(values, bins, colors);
      ParseInt(ps[i].fill).Some? && 1 <= ParseInt(ps[i].fill).value <= |colors|
      && ParseInt(ps[i].fill).value <= ParseInt(ps[j].fill).value
  {
    DigitizeMonotone(values[i], values[j], bins);
  }

  // ------------------------------------------------------------------
  // The layout
  // ------------------------------------------------------------------

  /** The attributes of a node with a self-loop
    * (common/graphics/itm_graphics.py:73-76). */
  function Ellipse(v: string): Style
  {
    map["shape" := Word("ellipse"), "height" := Num(0.20), "width" := Num(0.04 + 0.08 * |v| as real)]
  }

  /** The attributes that make a source or a sink
    * (common/graphics/itm_graphics.py:111-122). */
  function Boundary(shape: string, v: string): Style
  {
    map["shape" := Word(shape), "height" := Num(0.35), "width" := Num(0.08 + 0.08 * |v| as real)]
  }

  /** A node's dictionary after the width pass
    * (common/graphics/itm_graphics.py:105-106). */
  function Widened(base: map<string, Style>, v: string): Style
  {
    (if v in base then base[v] else map[])["width" := Num(0.02 + 0.08 * |v| as real)]
  }

  /** A shown node's dictionary after the source pass. */
  function AsSource(base: map<string, Style>, v: string, sources: seq<string>): Style
  {
    if v in sources then Widened(base, v) + Boundary("hexagon", v) else Widened(base, v)
  }

  /** A shown node's final dictionary: the sink pass comes last. */
  function Styled(base: map<string, Style>, v: string, sources: seq<string>, sinks: seq<string>): Style
  {
    if v in sinks then AsSource(base, v, sources) + Boundary("octagon", v) else AsSource(base, v, sources)
  }

  /** Sinks are octagons and other sources hexagons, both 0.35 high and
    * 0.08 + 0.08 per character wide; other nodes with a self-loop stay
    * ellipses 0.20 high; every other node has only a width. The ellipse's
    * own width never survives: the width pass overwrites it. */
  lemma StyleRules(base: map<string, Style>, v: string, sources: seq<string>, sinks: seq<string>)
    requires v in base ==> base[v] == Ellipse(v)
    ensures var s := Styled(base, v, sources, sinks);
      && (s.Keys == if v in sources || v in sinks || v in base then {"shape", "height", "width"} else {"width"})
      && (v in sinks ==> s["shape"] == Word("octagon"))
      && (v in sources && v !in sinks ==> s["shape"] == Word("hexagon"))
      && (v in sources || v in sinks ==> s["height"] == Num(0.35))
      && (v !in sources && v !in sinks && v in base ==> s["shape"] == Word("ellipse") && s["height"] == Num(0.20))
      && s["width"] == Num(if v in sources || v in sinks then 0.08 + 0.08 * |v| as real else 0.02 + 0.08 * |v| as real)
  {
  }

  /** The three passes over the node dictionaries: every shown node gets
    * its width, then the shown sources and after them the shown sinks
    * their shape (common/graphics/itm_graphics.py:104-122). */
  method StyleNodes(base: map<string, Style>, shown: seq<string>, sources: seq<string>, sinks: seq<string>)
    returns (m: map<string, Style>)
    requires forall v :: v in base ==> v in shown
    ensures forall v :: v in m <==> v in shown
    ensures forall v :: v in m ==> m[v] == Styled(base, v, sources, sinks)
  {
    var widened := Widen(base, shown);
    var marked := Mark(widened, shown, sources, "hexagon");
    m := Mark(marked, shown, sinks, "octagon");
  }

  /** The width pass (common/graphics/itm_graphics.py:105-106): a missing
    * dictionary is created, as the default dictionary does. */
  method Widen(base: map<string, Style>, shown: seq<string>) returns (m: map<string, Style>)
    ensures forall v :: v in m <==> v in base || v in shown
    ensures forall v :: v in m ==> m[v] == if v in shown then Widened(base, v) else base[v]
  {
    m := base;
    for i := 0 to |shown|
      invariant forall v :: v in m <==> v in base || v in shown[..i]
      invariant forall v :: v in m ==> m[v] == if v in shown[..i] then Widened(base, v) else base[v]
    {
      var v := shown[i];
      m := m[v := (if v in m then m[v] else map[])["width" := Num(0.02 + 0.08 * |v| as real)]];
      assert shown[..i + 1] == shown[..i] + [v];
    }
    assert shown[..|shown|] == shown;
  }

  /** The source pass or the sink pass (common/graphics/itm_graphics.py:109-122):
    * each node of `nodes` that is shown takes the boundary attributes. */
  method Mark(m0: map<string, Style>, shown: seq<string>, nodes: seq<string>, shape: string)
    returns (m: map<string, Style>)
    requires forall v :: v in shown ==> v in m0
    ensures m.Keys == m0.Keys
    ensures forall v :: v in m ==> m[v] == if v in nodes && v in shown then m0[v] + Boundary(shape, v) else m0[v]
  {
    m := m0;
    for i := 0 to |nodes|
      invariant m.Keys == m0.Keys
      invariant forall v :: v in m ==> m[v] == if v in nodes[..i] && v in shown then m0[v] + Boundary(shape, v) else m0[v]
    {
      var v := nodes[i];
      if v in shown {
        MergeTwice(m0[v], Boundary(shape, v));
        m := m[v := m[v] + Boundary(shape, v)];
      }
      assert nodes[..i + 1] == nodes[..i] + [v];
    }
    assert nodes[..|nodes|] == nodes;
  }

  /** Updating a dictionary twice with the same entries is updating it once. */
  lemma MergeTwice(s: Style, b: Style)
    ensures s + b + b == s + b
  {
  }

  /** The edge map after the scan: every key joins two different shown
    * nodes along an edge of the graph, and is kept in one orientation
    * only; a key marked undirected has its reverse edge too. */
  ghost predicate EdgesSound(arcs: set<Edge>, shown: seq<string>, edges: map<Edge, bool>)
  {
    forall e :: e in edges ==>
      && e.0 != e.1 && e.0 in shown && e.1 in shown && (e.0, e.1) in arcs
      && (e.1, e.0) !in edges
      && (!edges[e] ==> (e.1, e.0) in arcs)
  }

  /** Every edge out of a node of `from` to another shown node has a key,
    * in one orientation or the other. */
  ghost predicate Covered(arcs: set<Edge>, from: seq<string>, shown: seq<string>, edges: map<Edge, bool>)
  {
    forall a, b :: a in from && b in shown && a != b && (a, b) in arcs ==> (a, b) in edges || (b, a) in edges
  }

  /** The ellipses are the shown nodes with a self-loop seen so far. */
  ghost predicate EllipsesSound(arcs: set<Edge>, shown: seq<string>, ellipses: map<string, Style>)
  {
    forall v :: v in ellipses ==> v in shown && (v, v) in arcs && ellipses[v] == Ellipse(v)
  }

  /** The arcs of a graph: the pairs joined by an edge of positive weight. */
  ghost function Arcs(g: Graph): (r: set<Edge>)
    requires Inv(g)
    ensures forall a, b :: (a, b) in r <==> Weight(g, a, b) > 0.0
  {
    set a, b | a in g.node2index && b in g.node2index && Weight(g, a, b) > 0.0 :: (a, b)
  }

  /** The scan of the shown nodes' out-edges
    * (common/graphics/itm_graphics.py:64-82). */
  method ScanEdges(g: Graph, shown: seq<string>) returns (edges: map<Edge, bool>, ellipses: map<string, Style>)
    requires Inv(g)
    ensures EdgesSound(Arcs(g), shown, edges) && Covered(Arcs(g), shown, shown, edges)
    ensures EllipsesSound(Arcs(g), shown, ellipses)
    ensures forall v :: v in shown && (v, v) in Arcs(g) ==> v in ellipses
  {
    ghost var arcs := Arcs(g);
    edges, ellipses := map[], map[];
    for i := 0 to |shown|
      invariant EdgesSound(arcs, shown, edges) && Covered(arcs, shown[..i], shown, edges)
      invariant EllipsesSound(arcs, shown, ellipses)
      invariant forall v :: v in shown[..i] && (v, v) in arcs ==> v in ellipses
    {
      var v1 := shown[i];
      if v1 in g.node2index {
        var outs := Outgoing(g, v1).value;
        OutsListed(g, v1, outs);
        var edges', ellipses' := ScanNode(arcs, shown, v1, outs, edges, ellipses);
        ScanStep(arcs, shown, i, edges, edges', ellipses, ellipses');
        edges, ellipses := edges', ellipses';
      } else {
        NoEdgesOut(g, v1);
        ScanStep(arcs, shown, i, edges, edges, ellipses, ellipses);
      }
    }
    assert shown[..|shown|] == shown;
  }

  /** A name that is not a node has no edges. */
  lemma NoEdgesOut(g: Graph, v1: string)
    requires Inv(g) && v1 !in g.node2index
    ensures forall b :: (v1, b) !in Arcs(g)
  {
  }

  /** The outer loop's invariant after the scan of `shown[i]`. */
  lemma ScanStep(arcs: set<Edge>, shown: seq<string>, i: nat, edges0: map<Edge, bool>, edges: map<Edge, bool>,
                 ellipses0: map<string, Style>, ellipses: map<string, Style>)
    requires i < |shown|
    requires Covered(arcs, shown[..i], shown, edges0)
    requires forall e :: e in edges0 ==> e in edges
    requires forall b :: b in shown && b != shown[i] && (shown[i], b) in arcs ==>
      (shown[i], b) in edges || (b, shown[i]) in edges
    requires forall v :: v in shown[..i] && (v, v) in arcs ==> v in ellipses0
    requires ellipses0.Keys <= ellipses.Keys
    requires (shown[i], shown[i]) in arcs ==> shown[i] in ellipses
    ensures Covered(arcs, shown[..i + 1], shown, edges)
    ensures forall v :: v in shown[..i + 1] && (v, v) in arcs ==> v in ellipses
  {
    assert shown[..i + 1] == shown[..i] + [shown[i]];
  }

  /** Adding a key for a new directed pair keeps the edge map sound. */
  lemma AddDirected(arcs: set<Edge>, shown: seq<string>, edges: map<Edge, bool>, v1: string, v2: string)
    requires EdgesSound(arcs, shown, edges)
    requires v1 != v2 && v1 in shown && v2 in shown && (v1, v2) in arcs && (v2, v1) !in edges
    ensures EdgesSound(arcs, shown, edges[(v1, v2) := true])
  {
  }

  /** Marking a key undirected when its reverse edge is met keeps the edge
    * map sound. */
  lemma MarkUndirected(arcs: set<Edge>, shown: seq<string>, edges: map<Edge, bool>, v1: string, v2: string)
    requires EdgesSound(arcs, shown, edges)
    requires (v2, v1) in edges && (v1, v2) in arcs
    ensures EdgesSound(arcs, shown, edges[(v2, v1) := false])
  {
  }

  /** The inner loop of the scan, over the out-edges of one shown node. */
  method ScanNode(ghost arcs: set<Edge>, shown: seq<string>, v1: string, outs: seq<(string, real)>,
                  edges0: map<Edge, bool>, ellipses0: map<string, Style>)
    returns (edges: map<Edge, bool>, ellipses: map<string, Style>)
    requires v1 in shown
    requires forall p :: 0 <= p < |outs| ==> (v1, outs[p].0) in arcs && outs[p].1 > 0.0
    requires forall b :: (v1, b) in arcs ==> exists p :: 0 <= p < |outs| && outs[p].0 == b
    requires EdgesSound(arcs, shown, edges0) && EllipsesSound(arcs, shown, ellipses0)
    ensures EdgesSound(arcs, shown, edges) && EllipsesSound(arcs, shown, ellipses)
    ensures ellipses0.Keys <= ellipses.Keys
    ensures forall e :: e in edges0 ==> e in edges
    ensures forall b :: b in shown && b != v1 && (v1, b) in arcs ==> (v1, b) in edges || (b, v1) in edges
    ensures (v1, v1) in arcs ==> v1 in ellipses
  {
    edges, ellipses := edges0, ellipses0;
    for j := 0 to |outs|
      invariant EdgesSound(arcs, shown, edges) && EllipsesSound(arcs, shown, ellipses)
      invariant forall e :: e in edges0 ==> e in edges
      invariant ellipses0.Keys <= ellipses.Keys
      invariant forall p :: 0 <= p < j && outs[p].0 in shown && outs[p].0 != v1 ==>
        (v1, outs[p].0) in edges || (outs[p].0, v1) in edges
      invariant forall p :: 0 <= p < j && outs[p].0 == v1 ==> v1 in ellipses
    {
      edges, ellipses := ScanOut(arcs, shown, v1, outs[j].0, outs[j].1, edges, ellipses);
    }
    forall b | b in shown && b != v1 && (v1, b) in arcs ensures (v1, b) in edges || (b, v1) in edges {
      var p :| 0 <= p < |outs| && outs[p].0 == b;
    }
    if (v1, v1) in arcs {
      var p :| 0 <= p < |outs| && outs[p].0 == v1;
    }
  }

  /** One step of the inner loop: the edge from `v1` to `v2`, when `v2` is
    * shown, becomes a key or marks one undirected, or, as a self-loop,
    * makes `v1` an ellipse (common/graphics/itm_graphics.py:67-82). */
  method ScanOut(ghost arcs: set<Edge>, shown: seq<string>, v1: string, v2: string, wght: real,
                 edges0: map<Edge, bool>, ellipses0: map<string, Style>)
    returns (edges: map<Edge, bool>, ellipses: map<string, Style>)
    requires v1 in shown && (v1, v2) in arcs && wght > 0.0
    requires EdgesSound(arcs, shown, edges0) && EllipsesSound(arcs, shown, ellipses0)
    ensures EdgesSound(arcs, shown, edges) && EllipsesSound(arcs, shown, ellipses)
    ensures forall e :: e in edges0 ==> e in edges
    ensures ellipses0.Keys <= ellipses.Keys
    ensures v2 in shown && v2 != v1 ==> (v1, v2) in edges || (v2, v1) in edges
    ensures v2 == v1 ==> v1 in ellipses
  {
    edges, ellipses := edges0, ellipses0;
    if v2 in shown {
      if v1 == v2 {
        if wght > 0.0 {
          ellipses := ellipses[v1 := Ellipse(v1)];
        }
      } else if (v2, v1) in edges {
        MarkUndirected(arcs, shown, edges, v1, v2);
        edges := edges[(v2, v1) := false];
      } else {
        AddDirected(arcs, shown, edges, v1, v2);
        edges := edges[(v1, v2) := true];
      }
    }
  }

  /** The list of a node's out-edges holds each edge of positive weight,
    * with its weight. */
  lemma OutsListed(g: Graph, v1: string, outs: seq<(string, real)>)
    requires Inv(g) && v1 in g.node2index && outs == Outgoing(g, v1).value
    ensures forall p :: 0 <= p < |outs| ==> Weight(g, v1, outs[p].0) == outs[p].1 > 0.0
    ensures forall b :: Weight(g, v1, b) > 0.0 ==> exists p :: 0 <= p < |outs| && outs[p].0 == b
  {
    forall p | 0 <= p < |outs| ensures Weight(g, v1, outs[p].0) == outs[p].1 > 0.0 {
      OutgoingEdges(g, v1, outs[p].0, outs[p].1);
    }
    forall b | Weight(g, v1, b) > 0.0 ensures exists p :: 0 <= p < |outs| && outs[p].0 == b {
      OutgoingEdges(g, v1, b, Weight(g, v1, b));
      var p :| 0 <= p < |outs| && outs[p] == (b, Weight(g, v1, b));
    }
  }

  /** What `make_layout` hands to `NeatoLayout`: the nodes and edges to
    * show, their attribute dictionaries, the defaults, the program and
    * its options. */
  datatype LayoutArgs = LayoutArgs(shownNodes: seq<string>, shownEdges: seq<Edge>,
                                   nodesAttr: map<string, Style>, defaultAttr: map<string, Dict>,
                                   edgesAttr: map<Edge, Dict>, program: string, options: string)

  /** The default blocks of a layout (common/graphics/itm_graphics.py:89-102). */
  const LayoutDefaults: map<string, Dict> := map[
    "graph" := map["pack" := "true", "overlap" := "true", "outputorder" := "\"edgesfirst\""],
    "node" := map["shape" := "box", "fontsize" := "7", "width" := "0.34", "height" := "0.16",
                  "style" := "filled", "fixedsize" := "true"],
    "edge" := map["len" := "0.9"]]

  /** neato's start option: random without a seed, else the seed
    * (common/graphics/itm_graphics.py:125-128). */
  function NeatoOptions(seed: Option<int>): string
  {
    match seed
    case None => "-Gstart=random"
    case Some(s) => "-Gstart=" + IntToString(s)
  }

  /** Different seeds, or a seed and none, give different options. */
  lemma NeatoOptionsInjective(a: Option<int>, b: Option<int>)
    requires NeatoOptions(a) == NeatoOptions(b)
    ensures a == b
  {
    var prefix := "-Gstart=";
    if a.Some? {
      IntToStringHead(a.value);
      assert NeatoOptions(a)[8] == IntToString(a.value)[0];
    }
    if b.Some? {
      IntToStringHead(b.value);
      assert NeatoOptions(b)[8] == IntToString(b.value)[0];
    }
    if a.Some? && b.Some? {
      assert IntToString(a.value) == NeatoOptions(a)[8..];
      assert IntToString(b.value) == NeatoOptions(b)[8..];
    }
  }

  /** A decimal integer starts with a sign or a digit. */
  lemma IntToStringHead(x: int)
    ensures IntToString(x) != [] && (IntToString(x)[0] == '-' || IsDigit(IntToString(x)[0]))
  {
  }

  /** The edges marked directed get an arrow (common/graphics/itm_graphics.py:85-86). */
  function Arrows(edges: map<Edge, bool>): (m: map<Edge, Dict>)
    ensures forall e :: e in m <==> e in edges && edges[e]
    ensures forall e :: e in m ==> m[e] == map["dir" := "forward"]
  {
    map e | e in edges && edges[e] :: map["dir" := "forward"]
  }

  /** `make_layout` up to the neato run (common/graphics/itm_graphics.py:55-133). */
  method MakeLayout(g: Graph, shown: seq<string>, sources: seq<string>, sinks: seq<string>,
                    neatoExecutable: string, neatoSeed: Option<int>) returns (layout: LayoutArgs)
    requires Inv(g)
    ensures layout.shownNodes == shown && layout.program == neatoExecutable
    ensures layout.options == NeatoOptions(neatoSeed) && layout.defaultAttr == LayoutDefaults
    ensures PairsAscending(layout.shownEdges)
    ensures forall e :: e in layout.shownEdges ==>
      e.0 != e.1 && e.0 in shown && e.1 in shown && Weight(g, e.0, e.1) > 0.0 && (e.1, e.0) !in layout.shownEdges
    ensures forall a, b :: a in shown && b in shown && a != b && Weight(g, a, b) > 0.0 ==>
      (a, b) in layout.shownEdges || (b, a) in layout.shownEdges
    ensures forall e :: e in layout.edgesAttr ==> e in layout.shownEdges && layout.edgesAttr[e] == map["dir" := "forward"]
    ensures forall e :: e in layout.shownEdges && e !in layout.edgesAttr ==> Weight(g, e.1, e.0) > 0.0
    ensures forall v :: v in layout.nodesAttr <==> v in shown
    ensures forall v :: v in shown ==>
      layout.nodesAttr[v] == Styled(map u | u in shown && Weight(g, u, u) > 0.0 :: Ellipse(u), v, sources, sinks)
  {
    var edges, ellipses := ScanEdges(g, shown);
    var shownEdges := SortedPairs(edges.Keys);
    var edgesAttr := Arrows(edges);
    ghost var loops := map u | u in shown && Weight(g, u, u) > 0.0 :: Ellipse(u);
    assert ellipses == loops;
    var nodesAttr := StyleNodes(ellipses, shown, sources, sinks);
    layout := LayoutArgs(shown, shownEdges, nodesAttr, LayoutDefaults, edgesAttr, neatoExecutable,
                         NeatoOptions(neatoSeed));
  }
}
