/** The values the web front end passes around in dictionaries: keyword
  * arguments of the models, layout and rendering arguments, and the form
  * settings sent back to the page (web/ITMProbe/display_opts.py and the
  * modules that use its `_selector`). */
module FormValues {
  import opened Wrappers
  import opened Validators

  /** A value of an argument dictionary. `FloatText(x)` is `str(x)` of a
    * float, which the model keeps as the number. */
  datatype Value =
    | NoneValue
    | Bool(b: bool)
    | Int(i: int)
    | Real(r: real)
    | Str(s: string)
    | Strs(ss: seq<string>)
    | RealMap(m: map<string, real>)

  type ArgMap = map<string, Value>

  /** A CSS-like selector of the page: the node id, and the attribute
    * test when there is one. */
  datatype Selector = Selector(nodeId: string, attr: Option<(string, string, string)>)

  /** `_selector`: the attribute value, name and tag are kept only when
    * the value is non-empty (web/ITMProbe/display_opts.py:35-42). */
  function MakeSelector(nodeId: string, attrValue: string, attrName: string, tag: string): (s: Selector)
    ensures s.nodeId == nodeId
    ensures s.attr.Some? <==> attrValue != ""
    ensures s.attr.Some? ==> s.attr.value == (attrValue, attrName, tag)
  {
    if attrValue != "" then Selector(nodeId, Some((attrValue, attrName, tag))) else Selector(nodeId, None)
  }

  /** The text of a form property: plain, or `str()` of a number. */
  datatype PropText = Text(t: string) | IntText(i: int) | FloatText(x: real)

  /** A form property `(selector, property, value, style)`. */
  datatype Property = Property(selector: Selector, property: string, value: PropText, style: string)

  /** `dict(pairs)`: every key of the list, with the value of its last
    * pair. */
  function DictOf<T>(pairs: seq<(string, T)>): (m: map<string, T>)
    ensures forall k :: k in m <==> exists j :: 0 <= j < |pairs| && pairs[j].0 == k
    ensures forall j :: 0 <= j < |pairs| && (forall l :: j < l < |pairs| ==> pairs[l].0 != pairs[j].0) ==>
              m[pairs[j].0] == pairs[j].1
  {
    if pairs == [] then map[]
    else
      var init := pairs[..|pairs| - 1];
      var last := pairs[|pairs| - 1];
      var m := DictOf(init);
      assert forall j :: 0 <= j < |init| ==> init[j] == pairs[j];
      m[last.0 := last.1]
  }

  /** Every entry of the dictionary is one of the pairs it was built from. */
  lemma {:induction false} DictOfFrom<T>(pairs: seq<(string, T)>)
    ensures forall k :: k in DictOf(pairs) ==> exists j :: 0 <= j < |pairs| && pairs[j] == (k, DictOf(pairs)[k])
  {
    if pairs != [] {
      var init := pairs[..|pairs| - 1];
      DictOfFrom(init);
      forall k | k in DictOf(pairs)
        ensures exists j :: 0 <= j < |pairs| && pairs[j] == (k, DictOf(pairs)[k])
      {
        if k != pairs[|pairs| - 1].0 {
          var j :| 0 <= j < |init| && init[j] == (k, DictOf(init)[k]);
          assert pairs[j] == init[j];
        }
      }
    }
  }

  /** `find_input_option` with the first option as default, as the
    * display settings call it: the option the field names, or the first
    * one. The default is a non-empty tuple, so it is always truthy and
    * the call never raises. */
  function Pick<T>(cgi: map<string, string>, key: string, options: seq<(string, T)>): (r: (T, string))
    requires options != []
    ensures key in cgi && cgi[key] in DictOf(options) ==> r == (DictOf(options)[cgi[key]], cgi[key])
    ensures !(key in cgi && cgi[key] in DictOf(options)) ==> r == (options[0].1, options[0].0)
    ensures exists j :: 0 <= j < |options| && options[j] == (r.1, r.0)
  {
    DictOfFrom(options);
    match FindInputOption(cgi, key, DictOf(options), Some((options[0].1, options[0].0)))
    case Ok(Chosen(v, k)) => (v, k)
    case Ok(Fallback(d)) => d
  }
}
