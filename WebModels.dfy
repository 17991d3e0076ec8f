/** The model-specific checks of the web front end: after every option
  * has been validated into keyword arguments, the emitting, absorbing and
  * channel models drop the parameters the damping criterion does not
  * choose and bound the number of sources and sinks
  * (web/ITMProbe/emitting.py, absorbing.py and nchannel.py). Each model
  * then adds renderings for its solution to the display options. The
  * generic option validation that produces the keyword arguments
  * (web/ITMProbe/models.py) is not part of this model: its result is the
  * `kwargs` parameter. An exception becomes an `Err` with its class name;
  * the field `TooManyBoundaries` names is appended to it. */
module WebModels {
  import opened Wrappers
  import opened Text
  import opened Validators
  import opened FormValues
  import opened Rendering
  import opened DisplayOpts

  const InsufficientSources := "InsufficientSources"
  const InsufficientSinks := "InsufficientSinks"
  const TooManySources := "TooManyBoundaries: sources"
  const TooManySinks := "TooManyBoundaries: sinks"

  /** At most six sources and six sinks (web/ITMProbe/emitting.py:74,
    * absorbing.py:71, nchannel.py:55-56). */
  const MaxBoundaries := 6

  /** The damping parameters that compete in each model. */
  const EmittingDamping := ["df", "da"]
  const AbsorbingDamping := ["df", "ap"]
  const ChannelDamping := ["df", "da", "dr"]

  /** Whether the criterion names one of the damping parameters. */
  predicate Names(dfcrit: Value, keys: seq<string>)
  {
    exists j :: 0 <= j < |keys| && dfcrit == Str(keys[j])
  }

  /** The damping parameters other than the chosen one become `None`;
    * a criterion that names none of them changes nothing. */
  function Dissipate(m: ArgMap, dfcrit: Value, keys: seq<string>): (r: ArgMap)
    ensures !Names(dfcrit, keys) ==> r == m
    ensures Names(dfcrit, keys) ==> r.Keys == m.Keys + (set k | k in keys && dfcrit != Str(k))
    ensures Names(dfcrit, keys) ==> forall k :: k in keys && dfcrit != Str(k) ==> r[k] == NoneValue
    ensures forall k :: k in m && (k !in keys || dfcrit == Str(k)) ==> r[k] == m[k]
  {
    if Names(dfcrit, keys) then m + map k | k in keys && dfcrit != Str(k) :: NoneValue else m
  }

  /** The number of nodes of a validated list. */
  function Count(v: Value): nat
    requires v.Strs?
  {
    |v.ss|
  }

  /** `EmittingModel.validate_model_args`: the criterion leaves the
    * keyword arguments, the other of `df` and `da` becomes `None`, and one
    * to six sources are required (web/ITMProbe/emitting.py:76-95). */
  function EmittingValidate(kwargs: ArgMap): (r: Result<ArgMap>)
    requires "source_nodes" in kwargs ==> kwargs["source_nodes"].Strs?
    ensures "dfcrit" !in kwargs ==> r == Err(KeyError)
    ensures "dfcrit" in kwargs ==>
              var m := Dissipate(kwargs - {"dfcrit"}, kwargs["dfcrit"], EmittingDamping);
              ("source_nodes" !in kwargs || Count(kwargs["source_nodes"]) == 0 ==> r == Err(InsufficientSources)) &&
              ("source_nodes" in kwargs && Count(kwargs["source_nodes"]) > MaxBoundaries ==> r == Err(TooManySources)) &&
              ("source_nodes" in kwargs && 1 <= Count(kwargs["source_nodes"]) <= MaxBoundaries ==> r == Ok(m))
    ensures r.Ok? ==> "dfcrit" !in r.value && "source_nodes" in r.value &&
                      1 <= Count(r.value["source_nodes"]) <= MaxBoundaries
  {
    if "dfcrit" !in kwargs then Err(KeyError)
    else
      var m := Dissipate(kwargs - {"dfcrit"}, kwargs["dfcrit"], EmittingDamping);
      if "source_nodes" !in m || Count(m["source_nodes"]) == 0 then Err(InsufficientSources)
      else if Count(m["source_nodes"]) > MaxBoundaries then Err(TooManySources)
      else Ok(m)
  }

  /** `AbsorbingModel.validate_model_args`: the criterion leaves the
    * keyword arguments, the other of `df` and `ap` becomes `None`, and one
    * to six sinks are required (web/ITMProbe/absorbing.py:73-92). */
  function AbsorbingValidate(kwargs: ArgMap): (r: Result<ArgMap>)
    requires "sink_nodes" in kwargs ==> kwargs["sink_nodes"].Strs?
    ensures "dfcrit" !in kwargs ==> r == Err(KeyError)
    ensures "dfcrit" in kwargs ==>
              var m := Dissipate(kwargs - {"dfcrit"}, kwargs["dfcrit"], AbsorbingDamping);
              ("sink_nodes" !in kwargs || Count(kwargs["sink_nodes"]) == 0 ==> r == Err(InsufficientSinks)) &&
              ("sink_nodes" in kwargs && Count(kwargs["sink_nodes"]) > MaxBoundaries ==> r == Err(TooManySinks)) &&
              ("sink_nodes" in kwargs && 1 <= Count(kwargs["sink_nodes"]) <= MaxBoundaries ==> r == Ok(m))
    ensures r.Ok? ==> "dfcrit" !in r.value && "sink_nodes" in r.value &&
                      1 <= Count(r.value["sink_nodes"]) <= MaxBoundaries
  {
    if "dfcrit" !in kwargs then Err(KeyError)
    else
      var m := Dissipate(kwargs - {"dfcrit"}, kwargs["dfcrit"], AbsorbingDamping);
      if "sink_nodes" !in m || Count(m["sink_nodes"]) == 0 then Err(InsufficientSinks)
      else if Count(m["sink_nodes"]) > MaxBoundaries then Err(TooManySinks)
      else Ok(m)
  }

  /** `NormChannelModel.validate_model_args`: the two damping parameters
    * the criterion does not choose become `None`; both node lists are
    * looked up before any is checked, then a missing source is reported
    * before a missing sink, and both before too many of either
    * (web/ITMProbe/nchannel.py:58-87). */
  function ChannelValidate(kwargs: ArgMap): (r: Result<ArgMap>)
    requires "source_nodes" in kwargs ==> kwargs["source_nodes"].Strs?
    requires "sink_nodes" in kwargs ==> kwargs["sink_nodes"].Strs?
    ensures r.Err? && r.error == KeyError <==>
              "dfcrit" !in kwargs || "source_nodes" !in kwargs || "sink_nodes" !in kwargs
    ensures "dfcrit" in kwargs && "source_nodes" in kwargs && "sink_nodes" in kwargs ==>
              var sources := Count(kwargs["source_nodes"]);
              var sinks := Count(kwargs["sink_nodes"]);
              (sources == 0 ==> r == Err(InsufficientSources)) &&
              (sources > 0 && sinks == 0 ==> r == Err(InsufficientSinks)) &&
              (sources > MaxBoundaries && sinks > 0 ==> r == Err(TooManySources)) &&
              (0 < sources <= MaxBoundaries && sinks > MaxBoundaries ==> r == Err(TooManySinks)) &&
              (1 <= sources <= MaxBoundaries && 1 <= sinks <= MaxBoundaries ==>
                 r == Ok(Dissipate(kwargs - {"dfcrit"}, kwargs["dfcrit"], ChannelDamping)))
  {
    if "dfcrit" !in kwargs then Err(KeyError)
    else
      var m := Dissipate(kwargs - {"dfcrit"}, kwargs["dfcrit"], ChannelDamping);
      if "source_nodes" !in m || "sink_nodes" !in m then Err(KeyError)
      else
        var sources := Count(m["source_nodes"]);
        var sinks := Count(m["sink_nodes"]);
        if sources == 0 then Err(InsufficientSources)
        else if sinks == 0 then Err(InsufficientSinks)
        else if sources > MaxBoundaries then Err(TooManySources)
        else if sinks > MaxBoundaries then Err(TooManySinks)
        else Ok(m)
  }

  /** In the channel model exactly the two parameters the criterion does
    * not choose are `None`, and the chosen one keeps its value
    * (web/ITMProbe/nchannel.py:65-74). */
  lemma ChannelKeepsOnlyChosen(kwargs: ArgMap, chosen: string)
    requires "source_nodes" in kwargs ==> kwargs["source_nodes"].Strs?
    requires "sink_nodes" in kwargs ==> kwargs["sink_nodes"].Strs?
    requires chosen in ChannelDamping && "dfcrit" in kwargs && kwargs["dfcrit"] == Str(chosen)
    requires ChannelValidate(kwargs).Ok?
    ensures var r := ChannelValidate(kwargs).value;
            "dfcrit" !in r &&
            (forall k :: k in ChannelDamping && k != chosen ==> k in r && r[k] == NoneValue) &&
            (chosen in kwargs ==> r[chosen] == kwargs[chosen])
  {
    var j :| 0 <= j < |ChannelDamping| && ChannelDamping[j] == chosen;
    assert Names(kwargs["dfcrit"], ChannelDamping) by {
      assert kwargs["dfcrit"] == Str(ChannelDamping[j]);
    }
  }

  /** In the emitting model the criterion `df` drops `da` and keeps `df`,
    * and `da` drops `df` and keeps `da` (web/ITMProbe/emitting.py:83-87). */
  lemma EmittingKeepsOnlyChosen(kwargs: ArgMap)
    requires "source_nodes" in kwargs ==> kwargs["source_nodes"].Strs?
    requires "dfcrit" in kwargs && EmittingValidate(kwargs).Ok?
    ensures var r := EmittingValidate(kwargs).value;
            (kwargs["dfcrit"] == Str("df") ==> "da" in r && r["da"] == NoneValue && ("df" in kwargs ==> r["df"] == kwargs["df"])) &&
            (kwargs["dfcrit"] == Str("da") ==> "df" in r && r["df"] == NoneValue && ("da" in kwargs ==> r["da"] == kwargs["da"])) &&
            (kwargs["dfcrit"] !in {Str("df"), Str("da")} ==> r == kwargs - {"dfcrit"})
  {
    var d := kwargs["dfcrit"];
    if d == Str("df") {
      assert d == Str(EmittingDamping[0]);
    } else if d == Str("da") {
      assert d == Str(EmittingDamping[1]);
    } else {
      assert !Names(d, EmittingDamping);
    }
  }

  // ------------------------------------------------------------------
  // Display settings
  // ------------------------------------------------------------------

  /** One rendering per boundary node, from the first `n`, each showing
    * the data column of its position. */
  function PerNodeRenderings(textPrefix: string, nodes: seq<string>, n: nat): (r: seq<RenderingSettings>)
    requires n <= |nodes|
    ensures |r| == n
    ensures forall i :: 0 <= i < n ==> r[i].valueAttr.Some? && r[i].formValue == "dc" + NatToString(i)
  {
    if n == 0 then []
    else
      PerNodeRenderings(textPrefix, nodes, n - 1) +
      [OneColorRendering(textPrefix + nodes[n - 1], "dc" + NatToString(n - 1), Some("datacol" + NatToString(n - 1)))]
  }

  /** The renderings the emitting model adds for its sources: none for a
    * single source; otherwise interference, a colour mixture for two or
    * three sources, and one per source. */
  function EmittingRenderings(sources: seq<string>): seq<RenderingSettings>
  {
    if |sources| <= 1 then []
    else
      [OneColorRendering("Interference", "ifr", Some("interference"))] +
      (if |sources| < 4 then [MixedColorsRendering("Intensities (color mixture)", "mix", None)] else []) +
      PerNodeRenderings("Visits from ", sources, |sources|)
  }

  /** The renderings the absorbing model adds for its sinks: none for a
    * single sink; otherwise a colour mixture for two or three sinks and
    * one per sink. */
  function AbsorbingRenderings(sinks: seq<string>): seq<RenderingSettings>
  {
    if |sinks| <= 1 then []
    else
      (if |sinks| < 4 then [MixedColorsRendering("Probablilities (color mixture)", "mix", None)] else []) +
      PerNodeRenderings("Absorbing probability to ", sinks, |sinks|)
  }

  /** Appends one rendering per node to the display options. */
  method AddPerNode(d: DisplayOptions, textPrefix: string, nodes: seq<string>)
    modifies d
    ensures d.renderings == old(d.renderings) + PerNodeRenderings(textPrefix, nodes, |nodes|)
    ensures d.formProperties == old(d.formProperties) && d.formMasters == old(d.formMasters) &&
            d.formSelections == old(d.formSelections)
  {
    for i := 0 to |nodes|
      invariant d.renderings == old(d.renderings) + PerNodeRenderings(textPrefix, nodes, i)
      invariant d.formProperties == old(d.formProperties) && d.formMasters == old(d.formMasters) &&
                d.formSelections == old(d.formSelections)
    {
      d.renderings := d.renderings +
        [OneColorRendering(textPrefix + nodes[i], "dc" + NatToString(i), Some("datacol" + NatToString(i)))];
    }
  }

  /** `EmittingModel.set_display_settings` (web/ITMProbe/emitting.py:97-116). */
  method EmittingSetDisplaySettings(d: DisplayOptions, sources: seq<string>)
    modifies d
    ensures d.renderings == old(d.renderings) + EmittingRenderings(sources)
    ensures d.formProperties == old(d.formProperties) && d.formMasters == old(d.formMasters) &&
            d.formSelections == old(d.formSelections)
  {
    if |sources| > 1 {
      ghost var start := d.renderings;
      var head := [OneColorRendering("Interference", "ifr", Some("interference"))] +
                  (if |sources| < 4 then [MixedColorsRendering("Intensities (color mixture)", "mix", None)] else []);
      d.renderings := d.renderings + head;
      AddPerNode(d, "Visits from ", sources);
      assert EmittingRenderings(sources) == head + PerNodeRenderings("Visits from ", sources, |sources|);
      assert d.renderings == start + (head + PerNodeRenderings("Visits from ", sources, |sources|));
    }
  }

  /** `AbsorbingModel.set_display_settings` (web/ITMProbe/absorbing.py:95-111). */
  method AbsorbingSetDisplaySettings(d: DisplayOptions, sinks: seq<string>)
    modifies d
    ensures d.renderings == old(d.renderings) + AbsorbingRenderings(sinks)
    ensures d.formProperties == old(d.formProperties) && d.formMasters == old(d.formMasters) &&
            d.formSelections == old(d.formSelections)
  {
    if |sinks| > 1 {
      if |sinks| < 4 {
        d.renderings := d.renderings + [MixedColorsRendering("Probablilities (color mixture)", "mix", None)];
      }
      AddPerNode(d, "Absorbing probability to ", sinks);
    }
  }

  /** The emitting model adds interference and one rendering per source
    * whenever there are several sources, and the colour mixture only for
    * two or three of them. */
  lemma EmittingRenderingCount(sources: seq<string>)
    ensures |EmittingRenderings(sources)| ==
            if |sources| <= 1 then 0 else 1 + (if |sources| < 4 then 1 else 0) + |sources|
    ensures |sources| > 1 ==> EmittingRenderings(sources)[0].valueAttr == Some("interference")
    ensures forall i :: 0 <= i < |EmittingRenderings(sources)| ==>
              (EmittingRenderings(sources)[i].valueAttr.None? <==> 1 < |sources| < 4 && i == 1)
  {
  }

  /** The absorbing model adds the colour mixture only for two or three
    * sinks, and one rendering per sink whenever there are several. */
  lemma AbsorbingRenderingCount(sinks: seq<string>)
    ensures |AbsorbingRenderings(sinks)| == if |sinks| <= 1 then 0 else (if |sinks| < 4 then 1 else 0) + |sinks|
    ensures forall i :: 0 <= i < |AbsorbingRenderings(sinks)| ==>
              (AbsorbingRenderings(sinks)[i].valueAttr.None? <==> 1 < |sinks| < 4 && i == 0)
  {
  }

  /** The per-node renderings can each be chosen by its own form value:
    * no two of them share one. */
  lemma PerNodeFormValuesDistinct(textPrefix: string, nodes: seq<string>, n: nat)
    requires n <= |nodes|
    ensures forall i, j :: 0 <= i < j < n ==>
              PerNodeRenderings(textPrefix, nodes, n)[i].formValue != PerNodeRenderings(textPrefix, nodes, n)[j].formValue
  {
    var r := PerNodeRenderings(textPrefix, nodes, n);
    forall i, j | 0 <= i < j < n ensures r[i].formValue != r[j].formValue {
      var a := NatToString(i);
      var b := NatToString(j);
      assert DigitsValue(a) != DigitsValue(b);
      assert ("dc" + a)[2..] == a && ("dc" + b)[2..] == b;
    }
  }
}
