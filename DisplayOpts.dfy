/** The layout display options of the web front end
  * (web/ITMProbe/display_opts.py): each validator reads one setting from
  * the form, writes it into the layout arguments, records what the page
  * must show in the form property and master lists the object keeps, and
  * returns the url arguments that reproduce the choice. The layout
  * arguments are passed in and returned updated. */
module DisplayOpts {
  import opened Wrappers
  import opened Text
  import opened Validators
  import opened FormValues
  import opened SelectionCriteria
  import opened Rendering

  const DefaultMaxNodes := 40
  const DefaultNeatoSeed := 54321
  const DefaultValueCutoff := "0.05"
  const MaxNeatoSeed := 0x1_0000_0000 - 1

  /** The number of nodes the form asks for: 40 when it names none,
    * otherwise the digits it holds clamped into `[1, 200]`
    * (web/ITMProbe/display_opts.py:89-92). */
  function MaxNodes(cgi: map<string, string>): (r: Result<int>)
    ensures "max_nodes" !in cgi ==> r == Ok(DefaultMaxNodes)
    ensures "max_nodes" in cgi ==> (r.Ok? <==> IsDigits(cgi["max_nodes"]))
    ensures r.Err? ==> r.error == ValidationError
    ensures r.Ok? ==> 1 <= r.value <= 200
  {
    if "max_nodes" !in cgi then Ok(DefaultMaxNodes) else IntValidator(cgi["max_nodes"], 1, 200)
  }

  /** The seed of the layout program: 54321 when the form names none,
    * otherwise the digits it holds clamped into `[0, 2^32 - 1]`
    * (web/ITMProbe/display_opts.py:100-103). */
  function NeatoSeed(cgi: map<string, string>): (r: Result<int>)
    ensures "neato_seed" !in cgi ==> r == Ok(DefaultNeatoSeed)
    ensures "neato_seed" in cgi ==> (r.Ok? <==> IsDigits(cgi["neato_seed"]))
    ensures r.Err? ==> r.error == ValidationError
    ensures r.Ok? ==> 0 <= r.value <= MaxNeatoSeed
    ensures "neato_seed" in cgi && r.Ok? && DigitsValue(cgi["neato_seed"]) <= MaxNeatoSeed ==>
              r.value == DigitsValue(cgi["neato_seed"])
  {
    if "neato_seed" !in cgi then Ok(DefaultNeatoSeed) else IntValidator(cgi["neato_seed"], 0, MaxNeatoSeed)
  }

  /** `DisplayOpts`: the ranking attributes (text, form value, column),
    * selection criteria and renderings offered, and the form settings
    * collected while validating. */
  class DisplayOptions {
    const rankingAttrs: seq<(string, string, string)>
    const criteria: seq<SelectionSettings>
    var renderings: seq<RenderingSettings>

    var formProperties: seq<Property>
    var formMasters: seq<Selector>
    var formSelections: seq<Selector>

    /** The lists of form settings start empty
      * (web/ITMProbe/display_opts.py:54-62). */
    constructor (rankingAttrs: seq<(string, string, string)>, criteria: seq<SelectionSettings>,
                 renderings: seq<RenderingSettings>)
      ensures this.rankingAttrs == rankingAttrs && this.criteria == criteria && this.renderings == renderings
      ensures formProperties == [] && formMasters == [] && formSelections == []
    {
      this.rankingAttrs := rankingAttrs;
      this.criteria := criteria;
      this.renderings := renderings;
      formProperties := [];
      formMasters := [];
      formSelections := [];
    }

    /** The ranking options of the form: form value to column. */
    function RankingOptions(): seq<(string, string)>
    {
      seq(|rankingAttrs|, k requires 0 <= k < |rankingAttrs| => (rankingAttrs[k].1, rankingAttrs[k].2))
    }

    /** The column and form value of the ranking the form names, which is
      * always one of the ranking attributes offered
      * (web/ITMProbe/display_opts.py:66-68). */
    function RankingChoice(cgi: map<string, string>): (r: (string, string))
      requires rankingAttrs != []
      ensures exists j :: 0 <= j < |rankingAttrs| && rankingAttrs[j].1 == r.1 && rankingAttrs[j].2 == r.0
      reads this
    {
      var opts := RankingOptions();
      var r := Pick(cgi, "ranking_attr", opts);
      var j :| 0 <= j < |opts| && opts[j] == (r.1, r.0);
      assert rankingAttrs[j].1 == r.1 && rankingAttrs[j].2 == r.0;
      r
    }

    /** A ranking the form names is taken; an unknown or missing name
      * gives the first ranking attribute (web/ITMProbe/display_opts.py:66-68). */
    lemma RankingDefaultIsFirst(cgi: map<string, string>)
      requires rankingAttrs != []
      ensures ("ranking_attr" !in cgi || forall j :: 0 <= j < |rankingAttrs| ==> rankingAttrs[j].1 != cgi["ranking_attr"])
                ==> RankingChoice(cgi) == (rankingAttrs[0].2, rankingAttrs[0].1)
      ensures ("ranking_attr" in cgi && exists j :: 0 <= j < |rankingAttrs| && rankingAttrs[j].1 == cgi["ranking_attr"])
                ==> RankingChoice(cgi).1 == cgi["ranking_attr"]
    {
      var opts := RankingOptions();
      if "ranking_attr" in cgi {
        var v := cgi["ranking_attr"];
        if v in DictOf(opts) {
          var i :| 0 <= i < |opts| && opts[i].0 == v;
          assert rankingAttrs[i].1 == v;
        } else {
          forall i | 0 <= i < |rankingAttrs| ensures rankingAttrs[i].1 != v {
            assert opts[i].0 == rankingAttrs[i].1;
          }
        }
      }
    }

    /** The criterion the form names, by form value; the first one when
      * the name is unknown or missing (web/ITMProbe/display_opts.py:76-78). */
    function CriterionChoice(cgi: map<string, string>): (r: (SelectionSettings, string))
      requires criteria != []
      ensures exists j :: 0 <= j < |criteria| && criteria[j] == r.0 && r.0.formValue == r.1
      ensures ("selection_criterion" !in cgi ||
               forall j :: 0 <= j < |criteria| ==> criteria[j].formValue != cgi["selection_criterion"])
                ==> r == (criteria[0], criteria[0].formValue)
      reads this
    {
      var opts := seq(|criteria|, k requires 0 <= k < |criteria| => (criteria[k].formValue, criteria[k]));
      var r := Pick(cgi, "selection_criterion", opts);
      var j :| 0 <= j < |opts| && opts[j] == (r.1, r.0);
      r
    }

    /** `_get_ranking_attr`: the chosen column orders the layout and the
      * choice becomes a master option of the page
      * (web/ITMProbe/display_opts.py:64-72). */
    method GetRankingAttr(cgi: map<string, string>, layoutArgs: ArgMap) returns (layout: ArgMap, urlArgs: map<string, string>)
      requires rankingAttrs != []
      modifies this
      ensures renderings == old(renderings)
      ensures layout == layoutArgs["order_by" := Str(RankingChoice(cgi).0)]
      ensures urlArgs == map["ranking_attr" := RankingChoice(cgi).1]
      ensures formMasters == old(formMasters) + [MakeSelector("ranking_attr", RankingChoice(cgi).1, "value", "option")]
      ensures formProperties == old(formProperties) && formSelections == old(formSelections)
    {
      var choice := RankingChoice(cgi);
      formMasters := formMasters + [MakeSelector("ranking_attr", choice.1, "value", "option")];
      layout := layoutArgs["order_by" := Str(choice.0)];
      urlArgs := map["ranking_attr" := choice.1];
    }

    /** `_get_criterion`: the chosen criterion validates the form into the
      * layout arguments and the form settings; the url arguments echo the
      * cutoff typed, 0.05 when none was. A failing criterion has already
      * recorded its master option (web/ITMProbe/display_opts.py:74-85). */
    method GetCriterion(cgi: map<string, string>, layoutArgs: ArgMap)
      returns (r: Result<(ArgMap, map<string, string>)>)
      requires criteria != []
      modifies this
      ensures renderings == old(renderings)
      ensures var choice := CriterionChoice(cgi);
              var out := choice.0.Validate(cgi, layoutArgs, old(formProperties), old(formMasters));
              (r.Err? <==> out.Err?) &&
              (r.Err? ==> r.error == out.error &&
                          formMasters == old(formMasters) +
                            [MakeSelector("selection_criterion", choice.1, "value", "option")] &&
                          formProperties == old(formProperties)) &&
              (r.Ok? ==> r.value.0 == out.value.args && formProperties == out.value.props &&
                         formMasters == out.value.masters &&
                         r.value.1 == map["value_cutoff" := if "value_cutoff" in cgi then cgi["value_cutoff"]
                                                             else DefaultValueCutoff,
                                          "selection_criterion" := choice.1])
      ensures formSelections == old(formSelections)
    {
      var choice := CriterionChoice(cgi);
      var out := choice.0.Validate(cgi, layoutArgs, formProperties, formMasters);
      if out.Err? {
        formMasters := formMasters + [MakeSelector("selection_criterion", choice.1, "value", "option")];
        return Err(out.error);
      }
      formProperties := out.value.props;
      formMasters := out.value.masters;
      var cutoff := if "value_cutoff" in cgi then cgi["value_cutoff"] else DefaultValueCutoff;
      r := Ok((out.value.args, map["value_cutoff" := cutoff, "selection_criterion" := choice.1]));
    }

    /** `_get_max_nodes`: the number of nodes limits the rows of the
      * layout and is echoed as the value of its form field
      * (web/ITMProbe/display_opts.py:87-96). */
    method GetMaxNodes(cgi: map<string, string>, layoutArgs: ArgMap) returns (r: Result<(ArgMap, map<string, PropText>)>)
      modifies this
      ensures renderings == old(renderings)
      ensures r.Err? <==> MaxNodes(cgi).Err?
      ensures r.Err? ==> r.error == MaxNodes(cgi).error && formProperties == old(formProperties)
      ensures r.Ok? ==> var val := MaxNodes(cgi).value;
                        r.value == (layoutArgs["max_rows" := Int(val)], map["max_nodes" := IntText(val)]) &&
                        formProperties == old(formProperties) +
                          [Property(MakeSelector("max_nodes", "", "", ""), "value", IntText(val), "0")]
      ensures formMasters == old(formMasters) && formSelections == old(formSelections)
    {
      var val :- MaxNodes(cgi);
      formProperties := formProperties + [Property(MakeSelector("max_nodes", "", "", ""), "value", IntText(val), "0")];
      r := Ok((layoutArgs["max_rows" := Int(val)], map["max_nodes" := IntText(val)]));
    }

    /** `_get_neato_seed`: the seed goes to the layout program and is
      * echoed as the value of its form field
      * (web/ITMProbe/display_opts.py:98-107). */
    method GetNeatoSeed(cgi: map<string, string>, layoutArgs: ArgMap) returns (r: Result<(ArgMap, map<string, PropText>)>)
      modifies this
      ensures renderings == old(renderings)
      ensures r.Err? <==> NeatoSeed(cgi).Err?
      ensures r.Err? ==> r.error == NeatoSeed(cgi).error && formProperties == old(formProperties)
      ensures r.Ok? ==> var val := NeatoSeed(cgi).value;
                        r.value == (layoutArgs["neato_seed" := Int(val)], map["neato_seed" := IntText(val)]) &&
                        formProperties == old(formProperties) +
                          [Property(MakeSelector("neato_seed", "", "", ""), "value", IntText(val), "0")]
      ensures formMasters == old(formMasters) && formSelections == old(formSelections)
    {
      var val :- NeatoSeed(cgi);
      formProperties := formProperties + [Property(MakeSelector("neato_seed", "", "", ""), "value", IntText(val), "0")];
      r := Ok((layoutArgs["neato_seed" := Int(val)], map["neato_seed" := IntText(val)]));
    }
  }

  /** The node limit a form leaves in place is accepted unchanged when
    * validated again: the url the page builds reproduces the layout. */
  lemma MaxNodesStable(cgi: map<string, string>)
    requires MaxNodes(cgi).Ok?
    ensures MaxNodes(map["max_nodes" := NatToString(MaxNodes(cgi).value)]) == MaxNodes(cgi)
  {
    var v := MaxNodes(cgi).value;
    var s := NatToString(v);
    assert DigitsValue(s) == v;
  }

  /** Likewise for the seed. */
  lemma NeatoSeedStable(cgi: map<string, string>)
    requires NeatoSeed(cgi).Ok?
    ensures NeatoSeed(map["neato_seed" := NatToString(NeatoSeed(cgi).value)]) == NeatoSeed(cgi)
  {
    var v := NeatoSeed(cgi).value;
    var s := NatToString(v);
    assert DigitsValue(s) == v;
  }
}
