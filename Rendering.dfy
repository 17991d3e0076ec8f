/** The image rendering options of the web front end
  * (web/ITMProbe/rendering.py): each option offers scaling functions and
  * colour maps, reads the choice from the form and writes it into the
  * url or rendering arguments. The dictionaries it writes into are passed
  * in and the updated dictionary is returned. */
module Rendering {
  import opened Wrappers
  import opened Text
  import opened FormValues

  const BrewerNames: seq<string> :=
    ["Blues", "Reds", "Greys", "Greens", "Oranges", "YlGn", "YlGnBu", "GnBu", "RdPu", "PuRd", "BrBG"]

  /** `brewer_colormaps`: each preferred Brewer map with the number of
    * colours appended, in a fixed order (web/ITMProbe/rendering.py:33-39). */
  function BrewerColormaps(n: nat): (r: seq<string>)
    ensures |r| == |BrewerNames|
    ensures forall k :: 0 <= k < |r| ==> r[k] == BrewerNames[k] + NatToString(n)
  {
    seq(|BrewerNames|, k requires 0 <= k < |BrewerNames| => BrewerNames[k] + NatToString(n))
  }

  /** A choice of the form: the text shown, the form value, and what the
    * choice stands for. */
  type Choice<T> = (string, string, T)

  /** `RenderingSettings`: the text and form value of the option, the data
    * column it renders (none for the colour mixture), its scaling
    * functions and colour maps (a colour map of none mixes colours), and
    * extra rendering arguments. */
  datatype RenderingSettings = RenderingSettings(
    text: string,
    formValue: string,
    valueAttr: Option<string>,
    scalings: seq<Choice<string>>,
    colormaps: seq<Choice<Option<string>>>,
    additionalArgs: ArgMap)
  {
    /** The options of the form: form value to meaning. */
    function Scalings(): seq<(string, string)>
    {
      seq(|scalings|, k requires 0 <= k < |scalings| => (scalings[k].1, scalings[k].2))
    }

    function Colormaps(): seq<(string, Option<string>)>
    {
      seq(|colormaps|, k requires 0 <= k < |colormaps| => (colormaps[k].1, colormaps[k].2))
    }

    /** `_get_cgi_args`: the scaling and colour map the form names, each
      * falling back to the first one offered (web/ITMProbe/rendering.py:69-81). */
    function CgiArgs(cgi: map<string, string>): (r: ((string, string), (Option<string>, string)))
      requires scalings != [] && colormaps != []
      ensures r.0 == Pick(cgi, "bins_func", Scalings())
      ensures r.1 == Pick(cgi, "color_map", Colormaps())
      ensures exists j :: 0 <= j < |scalings| && scalings[j].1 == r.0.1 && scalings[j].2 == r.0.0
      ensures exists j :: 0 <= j < |colormaps| && colormaps[j].1 == r.1.1 && colormaps[j].2 == r.1.0
    {
      var s := Pick(cgi, "bins_func", Scalings());
      var c := Pick(cgi, "color_map", Colormaps());
      var j :| 0 <= j < |Scalings()| && Scalings()[j] == (s.1, s.0);
      var i :| 0 <= i < |Colormaps()| && Colormaps()[i] == (c.1, c.0);
      assert scalings[j].1 == s.1 && scalings[j].2 == s.0;
      assert colormaps[i].1 == c.1 && colormaps[i].2 == c.0;
      (s, c)
    }

    /** `get_url_args`: the form value of the option and of the chosen
      * scaling and colour map are written into the url arguments; nothing
      * else changes (web/ITMProbe/rendering.py:83-88). */
    function GetUrlArgs(cgi: map<string, string>, urlMap: ArgMap): (r: ArgMap)
      requires scalings != [] && colormaps != []
      ensures r.Keys == urlMap.Keys + {"value_attr", "bins_func", "color_map"}
      ensures r["value_attr"] == Str(formValue)
      ensures r["bins_func"] == Str(CgiArgs(cgi).0.1) && r["color_map"] == Str(CgiArgs(cgi).1.1)
      ensures forall k :: k in urlMap && k !in {"value_attr", "bins_func", "color_map"} ==> r[k] == urlMap[k]
    {
      var args := CgiArgs(cgi);
      urlMap["value_attr" := Str(formValue)]["bins_func" := Str(args.0.1)]["color_map" := Str(args.1.1)]
    }

    /** `validate`: the data column, colour map and scaling function are
      * written into the rendering arguments, colours are mixed exactly
      * when the colour map is none, and the extra arguments are added
      * last (web/ITMProbe/rendering.py:90-97). */
    function Validate(cgi: map<string, string>, argsMap: ArgMap): (r: ArgMap)
      requires scalings != [] && colormaps != []
      ensures r.Keys == argsMap.Keys + {"value_cols", "colormap", "bins_func", "mixed_colors"} + additionalArgs.Keys
      ensures forall k :: k in additionalArgs ==> r[k] == additionalArgs[k]
      ensures "value_cols" !in additionalArgs ==> r["value_cols"] == OptStr(valueAttr)
      ensures "colormap" !in additionalArgs ==> r["colormap"] == OptStr(CgiArgs(cgi).1.0)
      ensures "bins_func" !in additionalArgs ==> r["bins_func"] == Str(CgiArgs(cgi).0.0)
      ensures "mixed_colors" !in additionalArgs ==> r["mixed_colors"] == Bool(CgiArgs(cgi).1.0.None?)
      ensures forall k :: (k in argsMap && k !in {"value_cols", "colormap", "bins_func", "mixed_colors"} &&
                k !in additionalArgs) ==> r[k] == argsMap[k]
    {
      var args := CgiArgs(cgi);
      WithChoices(argsMap, valueAttr, args.1.0, args.0.0) + additionalArgs
    }
  }

  /** The rendering arguments with the data column, colour map and
    * scaling written in. */
  function WithChoices(argsMap: ArgMap, valueAttr: Option<string>, cmap: Option<string>, bins: string): (m: ArgMap)
    ensures m.Keys == argsMap.Keys + {"value_cols", "colormap", "bins_func", "mixed_colors"}
    ensures m["value_cols"] == OptStr(valueAttr) && m["colormap"] == OptStr(cmap)
    ensures m["bins_func"] == Str(bins) && m["mixed_colors"] == Bool(cmap.None?)
    ensures forall k :: k in argsMap && k !in {"value_cols", "colormap", "bins_func", "mixed_colors"} ==> m[k] == argsMap[k]
  {
    argsMap["value_cols" := OptStr(valueAttr)]["colormap" := OptStr(cmap)]
           ["bins_func" := Str(bins)]["mixed_colors" := Bool(cmap.None?)]
  }

  /** A string or `None`. */
  function OptStr(s: Option<string>): Value
  {
    if s.Some? then Str(s.value) else NoneValue
  }

  /** The colour maps of a one-colour option: each Brewer map of 8
    * colours, chosen by its lower-case name. */
  function OneColorMaps(): (r: seq<Choice<Option<string>>>)
    ensures |r| == |BrewerNames|
    ensures forall k :: 0 <= k < |r| ==> var m := BrewerColormaps(8)[k]; r[k] == (m, Lower(m), Some(m))
  {
    var ms := BrewerColormaps(8);
    seq(|ms|, k requires 0 <= k < |ms| => (ms[k], Lower(ms[k]), Some(ms[k])))
  }

  /** `one_color_rendering`: logarithmic or linear scaling and the Brewer
    * colour maps (web/ITMProbe/rendering.py:102-110). */
  function OneColorRendering(text: string, formValue: string, valueAttr: Option<string>): (r: RenderingSettings)
    ensures r.text == text && r.formValue == formValue && r.valueAttr == valueAttr
    ensures r.scalings == [("Logarithmic", "log2", "log_upper"), ("Linear", "none", "linear")]
    ensures r.colormaps == OneColorMaps() && r.additionalArgs == map[]
  {
    RenderingSettings(text, formValue, valueAttr,
                      [("Logarithmic", "log2", "log_upper"), ("Linear", "none", "linear")],
                      OneColorMaps(), map[])
  }

  /** `mixed_colors_rendering`: square-root or linear scaling and the
    * single mixed CMY colour map (web/ITMProbe/rendering.py:112-120). */
  function MixedColorsRendering(text: string, formValue: string, valueAttr: Option<string>): (r: RenderingSettings)
    ensures r.text == text && r.formValue == formValue && r.valueAttr == valueAttr
    ensures r.scalings == [("Sqrt", "sqrt", "sqrt"), ("Linear", "none", "linear")]
    ensures r.colormaps == [("CMY mixed", "cmy_mixed", None)] && r.additionalArgs == map[]
  {
    RenderingSettings(text, formValue, valueAttr,
                      [("Sqrt", "sqrt", "sqrt"), ("Linear", "none", "linear")],
                      [("CMY mixed", "cmy_mixed", None)], map[])
  }

  /** A one-colour option never mixes colours, whatever the form holds. */
  lemma OneColorNeverMixed(text: string, formValue: string, valueAttr: Option<string>,
                           cgi: map<string, string>, argsMap: ArgMap)
    ensures OneColorRendering(text, formValue, valueAttr).Validate(cgi, argsMap)["mixed_colors"] == Bool(false)
  {
    var one := OneColorRendering(text, formValue, valueAttr);
    var c := one.CgiArgs(cgi).1;
    var i :| 0 <= i < |one.colormaps| && one.colormaps[i].1 == c.1 && one.colormaps[i].2 == c.0;
    assert c.0.Some?;
  }

  /** A mixed option always mixes colours, whatever the form holds. */
  lemma MixtureAlwaysMixed(text: string, formValue: string, valueAttr: Option<string>,
                           cgi: map<string, string>, argsMap: ArgMap)
    ensures MixedColorsRendering(text, formValue, valueAttr).Validate(cgi, argsMap)["mixed_colors"] == Bool(true)
  {
    var mixed := MixedColorsRendering(text, formValue, valueAttr);
    var c := mixed.CgiArgs(cgi).1;
    var i :| 0 <= i < |mixed.colormaps| && mixed.colormaps[i].1 == c.1 && mixed.colormaps[i].2 == c.0;
    assert i == 0;
  }

  /** The lower-case names of the Brewer maps differ from each other. */
  lemma ColormapNamesDistinct()
    ensures forall j, l :: 0 <= j < l < |BrewerNames| ==> OneColorMaps()[j].1 != OneColorMaps()[l].1
  {
    var ms := OneColorMaps();
    forall j, l | 0 <= j < l < |BrewerNames| ensures ms[j].1 != ms[l].1 {
      var a := Lower(BrewerNames[j] + "8");
      var b := Lower(BrewerNames[l] + "8");
      assert ms[j].1 == a && ms[l].1 == b;
      assert NatToString(8) == "8";
      assert a != b by {
        if |BrewerNames[j]| == |BrewerNames[l]| {
          var p := FirstDifference(BrewerNames[j], BrewerNames[l]);
          assert a[p] != b[p];
        } else {
          assert |a| != |b|;
        }
      }
    }
  }

  /** A position where two different names of one length differ even
    * after lower-casing. */
  function FirstDifference(x: string, y: string): (p: nat)
    requires x in BrewerNames && y in BrewerNames && x != y && |x| == |y|
    ensures p < |x| && LowerChar(x[p]) != LowerChar(y[p])
  {
    if LowerChar(x[0]) != LowerChar(y[0]) then 0
    else if LowerChar(x[1]) != LowerChar(y[1]) then 1
    else if LowerChar(x[2]) != LowerChar(y[2]) then 2
    else 3
  }

  /** With keys that differ, `dict` maps each key to its own value. */
  lemma DictOfDistinct<T>(pairs: seq<(string, T)>)
    requires forall j, l :: 0 <= j < l < |pairs| ==> pairs[j].0 != pairs[l].0
    ensures forall j :: 0 <= j < |pairs| ==> DictOf(pairs)[pairs[j].0] == pairs[j].1
  {
  }

  /** Every Brewer map offered can be chosen by its form value, and an
    * unknown form value gives the first one, Blues. */
  lemma EveryColormapChoosable(text: string, formValue: string, valueAttr: Option<string>,
                               cgi: map<string, string>, k: nat)
    requires k < |BrewerNames|
    ensures var r := OneColorRendering(text, formValue, valueAttr);
            var m := BrewerColormaps(8)[k];
            "color_map" in cgi && cgi["color_map"] == Lower(m) ==> r.CgiArgs(cgi).1 == (Some(m), Lower(m))
  {
    var r := OneColorRendering(text, formValue, valueAttr);
    ColormapNamesDistinct();
    DictOfDistinct(r.Colormaps());
    assert r.Colormaps()[k] == (Lower(BrewerColormaps(8)[k]), Some(BrewerColormaps(8)[k]));
  }
}
