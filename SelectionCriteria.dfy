/** The criteria that choose which nodes the layout shows
  * (web/ITMProbe/selection_criteria.py): ranking by participation ratio,
  * a maximum number of nodes, or a cutoff on the value. The dictionary
  * and lists that `validate` extends are passed in and returned updated. */
module SelectionCriteria {
  import opened Wrappers
  import opened Text
  import opened Validators
  import opened FormValues

  /** A master option of the page: its value, its text, and the
    * properties it sets when chosen. */
  datatype MasterOption = MasterOption(value: string, text: string, props: seq<Property>)

  /** What `validate` leaves behind: the layout arguments, the form
    * properties and the master selectors. */
  datatype Outcome = Outcome(args: ArgMap, props: seq<Property>, masters: seq<Selector>)

  /** `SelectionSettings`: the text and form value of the criterion,
    * whether it ranks by participation ratio, and whether it shows the
    * value cutoff field (web/ITMProbe/selection_criteria.py:33-40). */
  datatype SelectionSettings = SelectionSettings(text: string, formValue: string, usePR: bool, showCutoff: bool)
  {
    /** `master_option_data`: the cutoff field and its label are visible
      * exactly when the criterion shows the cutoff
      * (web/ITMProbe/selection_criteria.py:42-60). */
    function MasterOptionData(): (m: MasterOption)
      ensures m.value == formValue && m.text == text && |m.props| == 2
      ensures m.props[0].selector == MakeSelector("value_cutoff", "", "", "")
      ensures m.props[1].selector == MakeSelector("display_panel", "value_cutoff", "for", "label")
      ensures forall k :: 0 <= k < 2 ==> m.props[k].property == "visibility" && m.props[k].style == "1"
      ensures forall k :: 0 <= k < 2 ==> (m.props[k].value == Text("visible") <==> showCutoff)
      ensures forall k :: 0 <= k < 2 ==> (m.props[k].value == Text("hidden") <==> !showCutoff)
    {
      var visibility := if showCutoff then "visible" else "hidden";
      MasterOption(formValue, text,
                   [Property(MakeSelector("value_cutoff", "", "", ""), "visibility", Text(visibility), "1"),
                    Property(MakeSelector("display_panel", "value_cutoff", "for", "label"), "visibility", Text(visibility), "1")])
    }

    /** `validate`: the participation-ratio flag is copied into the
      * arguments and the criterion becomes the chosen master option. A
      * criterion that shows the cutoff reads it from the form (a missing
      * field is a `KeyError`, one that is not a number a `ValueError`),
      * stores it and echoes it as a form property; any other criterion
      * stores no cutoff and reads nothing from the form
      * (web/ITMProbe/selection_criteria.py:62-76). */
    function Validate(cgi: map<string, string>, args: ArgMap, props: seq<Property>, masters: seq<Selector>)
      : (r: Result<Outcome>)
      ensures r.Err? <==> showCutoff && ("value_cutoff" !in cgi || ParseFloat(cgi["value_cutoff"]).None?)
      ensures r.Err? ==> r.error == (if "value_cutoff" !in cgi then KeyError else ValueError)
      ensures r.Ok? ==> r.value.args.Keys == args.Keys + {"use_participation_ratio", "cutoff_value"}
      ensures r.Ok? ==> r.value.args["use_participation_ratio"] == Bool(usePR)
      ensures r.Ok? ==> forall k :: k in args && k !in {"use_participation_ratio", "cutoff_value"} ==>
                          r.value.args[k] == args[k]
      ensures r.Ok? ==> r.value.masters == masters + [MakeSelector("selection_criterion", formValue, "value", "option")]
      ensures r.Ok? && !showCutoff ==> r.value.args["cutoff_value"] == NoneValue && r.value.props == props
      ensures r.Ok? && showCutoff ==>
                var x := ParseFloat(cgi["value_cutoff"]).value;
                r.value.args["cutoff_value"] == Real(x) &&
                r.value.props == props + [Property(MakeSelector("value_cutoff", "", "", ""), "value", FloatText(x), "0")]
    {
      var args1 := args["use_participation_ratio" := Bool(usePR)];
      var masters1 := masters + [MakeSelector("selection_criterion", formValue, "value", "option")];
      if showCutoff then
        if "value_cutoff" !in cgi then Err(KeyError)
        else match ParseFloat(cgi["value_cutoff"])
          case None => Err(ValueError)
          case Some(x) =>
            Ok(Outcome(args1["cutoff_value" := Real(x)],
                       props + [Property(MakeSelector("value_cutoff", "", "", ""), "value", FloatText(x), "0")],
                       masters1))
      else
        Ok(Outcome(args1["cutoff_value" := NoneValue], props, masters1))
    }
  }

  /** The three preset criteria (web/ITMProbe/selection_criteria.py:79-86). */
  const ByParticipationRatio := SelectionSettings("Participation Ratio", "pratio", true, false)
  const ByMaximumNodes := SelectionSettings("Maximum Nodes", "max_nodes", false, false)
  const ByValueCutoff := SelectionSettings("Cutoff Value", "value_cutoff", false, true)

  /** Of the presets only the cutoff criterion can fail, and only the
    * participation-ratio criterion ranks by participation ratio; the
    * cutoff is stored exactly by the cutoff criterion. */
  lemma PresetsBehave(cgi: map<string, string>, args: ArgMap, props: seq<Property>, masters: seq<Selector>)
    ensures ByParticipationRatio.Validate(cgi, args, props, masters).Ok?
    ensures ByMaximumNodes.Validate(cgi, args, props, masters).Ok?
    ensures ByParticipationRatio.Validate(cgi, args, props, masters).value.args["use_participation_ratio"] == Bool(true)
    ensures ByMaximumNodes.Validate(cgi, args, props, masters).value.args["use_participation_ratio"] == Bool(false)
    ensures ByParticipationRatio.Validate(cgi, args, props, masters).value.args["cutoff_value"] == NoneValue
    ensures ByMaximumNodes.Validate(cgi, args, props, masters).value.args["cutoff_value"] == NoneValue
    ensures "value_cutoff" in cgi && ParseFloat(cgi["value_cutoff"]).Some? ==>
              ByValueCutoff.Validate(cgi, args, props, masters).value.args["cutoff_value"] ==
              Real(ParseFloat(cgi["value_cutoff"]).value)
  {
  }

  /** A cutoff typed as a whole number is stored as that number. */
  lemma CutoffDigitsAccepted(cgi: map<string, string>, args: ArgMap, props: seq<Property>,
                             masters: seq<Selector>, digits: string)
    requires digits != [] && AllDigits(digits)
    requires "value_cutoff" in cgi && cgi["value_cutoff"] == digits
    ensures ByValueCutoff.Validate(cgi, args, props, masters).Ok?
    ensures ByValueCutoff.Validate(cgi, args, props, masters).value.args["cutoff_value"] == Real(DigitsValue(digits) as real)
  {
    ParseFloatDigits(digits);
  }
}
