/** The form checks of the SaddleSum enrichment page
  * (web/SaddleSum/validate.py): the command-line options of the
  * enrichment program are assembled from the form, option by option; the
  * pasted weights are normalised line by line; the output settings are
  * chosen from fixed lists. The directory listing of term databases, the
  * clock behind the query id and the existence of stored files are
  * parameters; joining directory names onto file names is left out. */
module SaddleSumValidate {
  import opened Wrappers
  import opened Text
  import opened Validators
  import Filesys
  import opened FormValues

  /** An argument of the enrichment program: literal text, `'%d' % i`, or
    * `'%.6e' % x` (kept as the number). */
  datatype OptArg = Lit(s: string) | Dec(i: int) | Exp6(x: real)

  const MissingStoredResults := "MissingStoredResults"
  const MaxEffectiveSize: real := 10000000000000000.0

  // ------------------------------------------------------------------
  // Weights
  // ------------------------------------------------------------------

  /** The lines of the pasted weights, each stripped of surrounding
    * whitespace. */
  function StrippedLines(data: string): (ls: seq<string>)
    ensures |ls| == |Filesys.Split(data, '\n')| >= 1
    ensures forall k :: 0 <= k < |ls| ==> ls[k] == Strip(Filesys.Split(data, '\n')[k])
  {
    var pieces := Filesys.Split(data, '\n');
    seq(|pieces|, k requires 0 <= k < |pieces| => Strip(pieces[k]))
  }

  /** `_fix_raw_weights`: whatever line ends a browser sends, the lines
    * are stripped and joined with line feeds (web/SaddleSum/validate.py:58-61). */
  function FixRawWeights(data: string): string
  {
    Filesys.Join(StrippedLines(data), '\n')
  }

  /** Stripping never adds characters: a text without line feeds stays so. */
  lemma StripWithin(s: string)
    ensures forall c :: c in Strip(s) ==> c in s
  {
    var i := LeadingSpaces(s);
    if i < |s| {
      var r := Strip(s);
      assert r == s[i..|s| - TrailingSpaces(s[i..])];
      forall c | c in r ensures c in s {
        var k :| 0 <= k < |r| && r[k] == c;
        assert s[i + k] == c;
      }
    }
  }

  /** Stripping twice strips nothing more. */
  lemma StripIdempotent(s: string)
    ensures Strip(Strip(s)) == Strip(s)
  {
    var r := Strip(s);
    if r != [] {
      assert LeadingSpaces(r) == 0;
      assert TrailingSpaces(r) == 0;
      assert r[0..|r|] == r;
    }
  }

  /** The normalised weights split back into exactly the stripped lines. */
  lemma FixRawWeightsLines(data: string)
    ensures Filesys.Split(FixRawWeights(data), '\n') == StrippedLines(data)
  {
    var ls := StrippedLines(data);
    forall k | 0 <= k < |ls| ensures '\n' !in ls[k] {
      StripWithin(Filesys.Split(data, '\n')[k]);
    }
    Filesys.SplitJoin(ls, '\n');
  }

  /** Normalising normalised weights changes nothing. */
  lemma FixRawWeightsIdempotent(data: string)
    ensures FixRawWeights(FixRawWeights(data)) == FixRawWeights(data)
  {
    var ls := StrippedLines(data);
    FixRawWeightsLines(data);
    var again := StrippedLines(FixRawWeights(data));
    forall k | 0 <= k < |again| ensures again[k] == ls[k] {
      StripIdempotent(Filesys.Split(data, '\n')[k]);
    }
    assert again == ls;
  }

  /** The weights the enrichment runs on: the second text box when it is
    * not empty, else the first, normalised (web/SaddleSum/validate.py:74-79). */
  function RawWeights(cgi: map<string, string>): (r: string)
    ensures "raw_weights2" in cgi && cgi["raw_weights2"] != "" ==> r == FixRawWeights(cgi["raw_weights2"])
    ensures ("raw_weights2" !in cgi || cgi["raw_weights2"] == "") && "raw_weights" in cgi ==>
              r == FixRawWeights(cgi["raw_weights"])
    ensures ("raw_weights2" !in cgi || cgi["raw_weights2"] == "") && "raw_weights" !in cgi ==> r == ""
  {
    var first := if "raw_weights" in cgi then cgi["raw_weights"] else "";
    var second := if "raw_weights2" in cgi then cgi["raw_weights2"] else "";
    FixRawWeights(if |second| > 0 then second else first)
  }

  // ------------------------------------------------------------------
  // Term database
  // ------------------------------------------------------------------

  /** `os.path.splitext(v)[1] == '.etd'`: the name ends in `.etd` and
    * something other than dots comes before that extension. */
  predicate HasEtdExtension(v: string)
  {
    |v| > 4 && v[|v| - 4..] == ".etd" && exists k :: 0 <= k < |v| - 4 && v[k] != '.'
  }

  /** The term database the form names, among the `.etd` files of the
    * directory; there is no default (web/SaddleSum/validate.py:68-71). */
  function TermDbChoice(cgi: map<string, string>, files: set<string>): (r: Result<string>)
    ensures r.Ok? <==> "termdb" in cgi && cgi["termdb"] in files && HasEtdExtension(cgi["termdb"])
    ensures r.Ok? ==> r.value == cgi["termdb"]
    ensures r.Err? ==> r.error == if "termdb" in cgi then ValidationError else InsufficientArgsError
  {
    var allowed := map v | v in files && HasEtdExtension(v) :: v;
    match FindInputOption<string, string>(cgi, "termdb", allowed, None)
    case Err(e) => Err(e)
    case Ok(Chosen(v, _)) => Ok(v)
  }

  // ------------------------------------------------------------------
  // Program options, one group at a time
  // ------------------------------------------------------------------

  /** `-e`: the E-value cutoff, a number in `[0, 1]`, when the form gives
    * one (web/SaddleSum/validate.py:82-84). */
  function EvalueOpts(cgi: map<string, string>): (r: Result<seq<OptArg>>)
    ensures "cutoff_Evalue" !in cgi ==> r == Ok([])
    ensures "cutoff_Evalue" in cgi ==>
              (r.Ok? <==> FloatValidator(cgi["cutoff_Evalue"], 0.0, 1.0).Ok?) &&
              (r.Ok? ==> r.value == [Lit("-e"), Exp6(ParseFloat(cgi["cutoff_Evalue"]).value)]) &&
              (r.Err? ==> r.error == FloatValidator(cgi["cutoff_Evalue"], 0.0, 1.0).error)
  {
    if "cutoff_Evalue" !in cgi then Ok([])
    else
      var x :- FloatValidator(cgi["cutoff_Evalue"], 0.0, 1.0);
      Ok([Lit("-e"), Exp6(x)])
  }

  /** `-m`: the minimum term size, clamped into `[1, 10^7]`, when the form
    * gives one (web/SaddleSum/validate.py:87-90). */
  function MinTermSizeOpts(cgi: map<string, string>): (r: Result<seq<OptArg>>)
    ensures "min_term_size" !in cgi ==> r == Ok([])
    ensures "min_term_size" in cgi ==>
              (r.Ok? <==> IsDigits(cgi["min_term_size"])) &&
              (r.Ok? ==> |r.value| == 2 && r.value[0] == Lit("-m") && r.value[1].Dec? &&
                         1 <= r.value[1].i <= 10000000 &&
                         r.value[1].i == IntValidator(cgi["min_term_size"], 1, 10000000).value)
    ensures r.Err? ==> r.error == ValidationError
  {
    if "min_term_size" !in cgi then Ok([])
    else
      var n :- IntValidator(cgi["min_term_size"], 1, 10000000);
      Ok([Lit("-m"), Dec(n)])
  }

  /** `-n`: the effective database size, a number in `[0, 10^16]`, passed
    * on only when it is positive (web/SaddleSum/validate.py:93-97). */
  function EffectiveSizeOpts(cgi: map<string, string>): (r: Result<seq<OptArg>>)
    ensures "effective_tdb_size" !in cgi ==> r == Ok([])
    ensures "effective_tdb_size" in cgi ==>
              var v := cgi["effective_tdb_size"];
              (r.Ok? <==> FloatValidator(v, 0.0, MaxEffectiveSize).Ok?) &&
              (r.Err? ==> r.error == FloatValidator(v, 0.0, MaxEffectiveSize).error) &&
              (r.Ok? ==> (r.value != [] <==> ParseFloat(v).value > 0.0)) &&
              (r.Ok? && r.value != [] ==> r.value == [Lit("-n"), Exp6(ParseFloat(v).value)])
  {
    if "effective_tdb_size" !in cgi then Ok([])
    else
      var x :- FloatValidator(cgi["effective_tdb_size"], 0.0, MaxEffectiveSize);
      if x > 0.0 then Ok([Lit("-n"), Exp6(x)]) else Ok([])
  }

  const StatsMap := map["wsum" := "wsum", "hgem" := "hgem"]

  /** The statistics the form names, `wsum` when it names none that is
    * known (web/SaddleSum/validate.py:100-102, as intended). */
  function Stats(cgi: map<string, string>): (r: string)
    ensures r in StatsMap
    ensures "stats" in cgi && cgi["stats"] in StatsMap ==> r == cgi["stats"]
    ensures !("stats" in cgi && cgi["stats"] in StatsMap) ==> r == "wsum"
  {
    match FindInputOption(cgi, "stats", StatsMap, Some("wsum"))
    case Ok(Chosen(v, _)) => v
    case Ok(Fallback(d)) => d
  }

  const TransformMap := map["none" := None, "flip" := Some("flip"), "abs" := Some("abs")]

  /** `-t`: the weight transformation, when the form names one other than
    * `none`; a name that is not known is an error
    * (web/SaddleSum/validate.py:106-111). */
  function TransformOpts(cgi: map<string, string>): (r: Result<seq<OptArg>>)
    ensures "transform_weights" !in cgi ==> r == Ok([])
    ensures "transform_weights" in cgi ==>
              var v := cgi["transform_weights"];
              (r.Err? <==> v !in TransformMap) &&
              (r.Err? ==> r.error == ValidationError) &&
              (r.Ok? ==> r.value == if v == "none" then [] else [Lit("-t"), Lit(v)])
  {
    if "transform_weights" !in cgi then Ok([])
    else
      var found :- FindInputOption<Option<string>, Option<string>>(cgi, "transform_weights", TransformMap, None);
      match found
      case Chosen(t, _) => if t.Some? then Ok([Lit("-t"), Lit(t.value)]) else Ok([])
  }

  const CutoffTypes := map["none" := None, "rank" := Some("rank"), "wght" := Some("wght")]
  const MaxWeightCutoff: real := 10000000000000000.0

  /** The text of the cutoff field, with the defaults of the source. */
  function WeightCutoffText(cgi: map<string, string>, default: string): string
  {
    if "wght_cutoff" in cgi then cgi["wght_cutoff"] else default
  }

  /** `-r` or `-w`: a rank cutoff clamped into `[1, 100000]` (1 when the
    * field is missing), or a weight cutoff in `[-10^16, 10^16]` (0 when
    * missing); the cutoff type must be given
    * (web/SaddleSum/validate.py:115-128). */
  function CutoffOpts(cgi: map<string, string>): (r: Result<seq<OptArg>>)
    ensures "cutoff_type" !in cgi ==> r == Err(InsufficientArgsError)
    ensures "cutoff_type" in cgi && cgi["cutoff_type"] !in CutoffTypes ==> r == Err(ValidationError)
    ensures "cutoff_type" in cgi && cgi["cutoff_type"] == "none" ==> r == Ok([])
    ensures "cutoff_type" in cgi && cgi["cutoff_type"] == "rank" ==>
              var n := IntValidator(WeightCutoffText(cgi, "1"), 1, 100000);
              (r.Ok? <==> n.Ok?) && (r.Err? ==> r.error == ValidationError) &&
              (r.Ok? ==> r.value == [Lit("-r"), Dec(n.value)] && 1 <= n.value <= 100000)
    ensures "cutoff_type" in cgi && cgi["cutoff_type"] == "wght" ==>
              var x := FloatValidator(WeightCutoffText(cgi, "0.0"), -MaxWeightCutoff, MaxWeightCutoff);
              (r.Ok? <==> x.Ok?) && (r.Err? ==> r.error == x.error) &&
              (r.Ok? ==> r.value == [Lit("-w"), Exp6(x.value)])
  {
    var found :- FindInputOption<Option<string>, Option<string>>(cgi, "cutoff_type", CutoffTypes, None);
    match found
    case Chosen(t, _) =>
      if t == Some("rank") then
        var n :- IntValidator(WeightCutoffText(cgi, "1"), 1, 100000);
        Ok([Lit("-r"), Dec(n)])
      else if t == Some("wght") then
        var x :- FloatValidator(WeightCutoffText(cgi, "0.0"), -MaxWeightCutoff, MaxWeightCutoff);
        Ok([Lit("-w"), Exp6(x)])
      else Ok([])
  }

  /** `-d` and `-a`: present keys switch on discrete weights and the use
    * of all weights, whatever their values (web/SaddleSum/validate.py:131-136). */
  function FlagOpts(cgi: map<string, string>): (r: seq<OptArg>)
    ensures Lit("-d") in r <==> "discrete_weights" in cgi
    ensures Lit("-a") in r <==> "use_all_weights" in cgi
    ensures Lit("-n") !in r && |r| <= 2
  {
    (if "discrete_weights" in cgi then [Lit("-d")] else []) +
    (if "use_all_weights" in cgi then [Lit("-a")] else [])
  }

  /** The options of every group, one group after the other, or the
    * error of the first group that fails. */
  function ProgramOpts(cgi: map<string, string>): Result<seq<OptArg>>
  {
    var e, m, n := EvalueOpts(cgi), MinTermSizeOpts(cgi), EffectiveSizeOpts(cgi);
    var t, c := TransformOpts(cgi), CutoffOpts(cgi);
    if e.Err? then Err(e.error)
    else if m.Err? then Err(m.error)
    else if n.Err? then Err(n.error)
    else if t.Err? then Err(t.error)
    else if c.Err? then Err(c.error)
    else Ok(e.value + m.value + n.value + [Lit("-s"), Lit(Stats(cgi))] + t.value + c.value + FlagOpts(cgi))
  }

  /** `validate_program_args`: the term database, then each option group
    * extending the options in turn; the first error stops it
    * (web/SaddleSum/validate.py:64-138). */
  method ValidateProgramArgs(cgi: map<string, string>, termDbFiles: set<string>)
    returns (r: Result<(seq<OptArg>, string, string)>)
    ensures TermDbChoice(cgi, termDbFiles).Err? ==> r == Err(TermDbChoice(cgi, termDbFiles).error)
    ensures TermDbChoice(cgi, termDbFiles).Ok? ==>
              (r.Ok? <==> ProgramOpts(cgi).Ok?) &&
              (r.Err? ==> r.error == ProgramOpts(cgi).error) &&
              (r.Ok? ==> r.value == (ProgramOpts(cgi).value, RawWeights(cgi), TermDbChoice(cgi, termDbFiles).value))
  {
    var termDb :- TermDbChoice(cgi, termDbFiles);
    var rawWeights := RawWeights(cgi);
    var e := EvalueOpts(cgi);
    if e.Err? { return Err(e.error); }
    var opts := e.value;
    var m := MinTermSizeOpts(cgi);
    if m.Err? { return Err(m.error); }
    opts := opts + m.value;
    var n := EffectiveSizeOpts(cgi);
    if n.Err? { return Err(n.error); }
    opts := opts + n.value;
    opts := opts + [Lit("-s"), Lit(Stats(cgi))];
    var t := TransformOpts(cgi);
    if t.Err? { return Err(t.error); }
    opts := opts + t.value;
    var c := CutoffOpts(cgi);
    if c.Err? { return Err(c.error); }
    opts := opts + c.value;
    opts := opts + FlagOpts(cgi);
    r := Ok((opts, rawWeights, termDb));
  }

  /** The groups other than the flags and the effective size never pass
    * `-d`, `-a` or `-n`. */
  lemma TransformUnflagged(cgi: map<string, string>, a: OptArg)
    requires a == Lit("-d") || a == Lit("-a") || a == Lit("-n")
    requires TransformOpts(cgi).Ok?
    ensures a !in TransformOpts(cgi).value
  {
    if "transform_weights" in cgi {
      assert cgi["transform_weights"] in TransformMap;
    }
  }

  lemma CutoffUnflagged(cgi: map<string, string>, a: OptArg)
    requires a == Lit("-d") || a == Lit("-a") || a == Lit("-n")
    requires CutoffOpts(cgi).Ok?
    ensures a !in CutoffOpts(cgi).value
  {
    assert cgi["cutoff_type"] in CutoffTypes;
  }

  /** The e-value and minimum-size groups never pass `-d`, `-a` or `-n`. */
  lemma LeadingUnflagged(cgi: map<string, string>, a: OptArg)
    requires a == Lit("-d") || a == Lit("-a") || a == Lit("-n")
    requires EvalueOpts(cgi).Ok? && MinTermSizeOpts(cgi).Ok?
    ensures a !in EvalueOpts(cgi).value && a !in MinTermSizeOpts(cgi).value
  {
  }

  /** A successful `ProgramOpts` is the join of its successful groups. */
  lemma ProgramOptsJoin(cgi: map<string, string>)
    requires ProgramOpts(cgi).Ok?
    ensures EvalueOpts(cgi).Ok? && MinTermSizeOpts(cgi).Ok? && EffectiveSizeOpts(cgi).Ok?
    ensures TransformOpts(cgi).Ok? && CutoffOpts(cgi).Ok?
    ensures ProgramOpts(cgi).value ==
              EvalueOpts(cgi).value + MinTermSizeOpts(cgi).value + EffectiveSizeOpts(cgi).value +
              [Lit("-s"), Lit(Stats(cgi))] + TransformOpts(cgi).value + CutoffOpts(cgi).value + FlagOpts(cgi)
  {
  }

  /** A flag is among the options exactly when the effective size or
    * the flag group passes it. */
  lemma FlagSources(cgi: map<string, string>, a: OptArg)
    requires a == Lit("-d") || a == Lit("-a") || a == Lit("-n")
    requires ProgramOpts(cgi).Ok?
    ensures a in ProgramOpts(cgi).value <==> a in EffectiveSizeOpts(cgi).value || a in FlagOpts(cgi)
  {
    ProgramOptsJoin(cgi);
    TransformUnflagged(cgi, a);
    CutoffUnflagged(cgi, a);
    LeadingUnflagged(cgi, a);
    InOtherGroups(a, EvalueOpts(cgi).value, MinTermSizeOpts(cgi).value, EffectiveSizeOpts(cgi).value,
                  [Lit("-s"), Lit(Stats(cgi))], TransformOpts(cgi).value, CutoffOpts(cgi).value, FlagOpts(cgi));
  }

  /** Membership in the joined groups, when only two groups can hold the
    * option. */
  lemma InOtherGroups(a: OptArg, e: seq<OptArg>, m: seq<OptArg>, n: seq<OptArg>, s: seq<OptArg>,
                      t: seq<OptArg>, c: seq<OptArg>, f: seq<OptArg>)
    requires a !in e && a !in m && a !in s && a !in t && a !in c
    ensures a in e + m + n + s + t + c + f <==> a in n || a in f
  {
  }

  /** The flags are on exactly when their keys are present, and `-n` is
    * passed exactly for a positive effective size. */
  lemma ProgramFlags(cgi: map<string, string>)
    requires ProgramOpts(cgi).Ok?
    ensures Lit("-d") in ProgramOpts(cgi).value <==> "discrete_weights" in cgi
    ensures Lit("-a") in ProgramOpts(cgi).value <==> "use_all_weights" in cgi
    ensures Lit("-n") in ProgramOpts(cgi).value <==>
              "effective_tdb_size" in cgi && ParseFloat(cgi["effective_tdb_size"]).value > 0.0
  {
    FlagSources(cgi, Lit("-d"));
    FlagSources(cgi, Lit("-a"));
    FlagSources(cgi, Lit("-n"));
  }

  // ------------------------------------------------------------------
  // Output settings
  // ------------------------------------------------------------------

  const OutputFormats := map["html" := "html", "txt" := "txt", "tab" := "tab"]
  const ImageFormats := map["svg" := "svg", "netmapsvg2" := "netmapsvg"]

  /** The preferred Brewer colour maps of 8 colours, by lower-case name
    * (web/SaddleSum/validate.py:34-37 and 154). */
  function SaddleColormaps(): map<string, string>
  {
    map["blues8" := "Blues8", "reds8" := "Reds8", "greys8" := "Greys8", "greens8" := "Greens8",
        "oranges8" := "Oranges8", "ylgn8" := "YlGn8", "ylgnbu8" := "YlGnBu8", "gnbu8" := "GnBu8",
        "rdpu8" := "RdPu8", "purd8" := "PuRd8", "brbg8" := "BrBG8"]
  }

  /** `find_input_option(...)[0]` with a non-empty string as the default:
    * a known option gives its value, and otherwise the first character
    * of the default. */
  function FirstOfFound(f: Result<Found<string, string>>, default: string): (r: Result<string>)
    requires f.Ok? && f.value.Fallback? ==> f.value.default == default && default != ""
    ensures f.Ok? && f.value.Fallback? ==> r == Ok(default[..1])
  {
    match f
    case Err(e) => Err(e)
    case Ok(Chosen(v, _)) => Ok(v)
    case Ok(Fallback(d)) => Ok(d[..1])
  }

  /** The statistics option as written: the default is the string `wsum`,
    * not a pair, so its first character is taken
    * (web/SaddleSum/validate.py:100-102). */
  function StatsAsWritten(cgi: map<string, string>): (r: string)
    ensures "stats" in cgi && cgi["stats"] in StatsMap ==> r == cgi["stats"]
  {
    FirstOfFound(FindInputOption(cgi, "stats", StatsMap, Some("wsum")), "wsum").value
  }

  /** The image format as written: the default `netmapsvg` is indexed
    * like a pair (web/SaddleSum/validate.py:151-152). */
  function ImageFormatAsWritten(cgi: map<string, string>): (r: string)
    ensures "image_format" in cgi && cgi["image_format"] in ImageFormats ==> r == ImageFormats[cgi["image_format"]]
  {
    FirstOfFound(FindInputOption(cgi, "image_format", ImageFormats, Some("netmapsvg")), "netmapsvg").value
  }

  /** The colour map as written: the default `Blues8` is indexed like a
    * pair (web/SaddleSum/validate.py:154-155). */
  function ColormapAsWritten(cgi: map<string, string>): (r: string)
    ensures "color_map" in cgi && cgi["color_map"] in SaddleColormaps() ==> r == SaddleColormaps()[cgi["color_map"]]
  {
    FirstOfFound(FindInputOption(cgi, "color_map", SaddleColormaps(), Some("Blues8")), "Blues8").value
  }

  /** A form that leaves these fields out gets one-letter settings that
    * name no statistics, image format or colour map. */
  lemma DefaultsTruncated()
    ensures StatsAsWritten(map[]) == "w" && "w" !in StatsMap
    ensures ImageFormatAsWritten(map[]) == "n" && "n" != "svg" && "n" != "netmapsvg"
    ensures ColormapAsWritten(map[]) == "B" && "B" !in SaddleColormaps().Values
  {
    assert "wsum"[..1] == "w";
    assert "netmapsvg"[..1] == "n";
    assert "Blues8"[..1] == "B";
  }

  /** The image format the form names, `netmapsvg` otherwise. */
  function ImageFormat(cgi: map<string, string>): (r: string)
    ensures r == "svg" || r == "netmapsvg"
    ensures "image_format" in cgi && cgi["image_format"] in ImageFormats ==> r == ImageFormats[cgi["image_format"]]
    ensures !("image_format" in cgi && cgi["image_format"] in ImageFormats) ==> r == "netmapsvg"
  {
    match FindInputOption(cgi, "image_format", ImageFormats, Some("netmapsvg"))
    case Ok(Chosen(v, _)) => v
    case Ok(Fallback(d)) => d
  }

  /** The colour map the form names, `Blues8` otherwise. */
  function Colormap(cgi: map<string, string>): (r: string)
    ensures r in SaddleColormaps().Values
    ensures "color_map" in cgi && cgi["color_map"] in SaddleColormaps() ==> r == SaddleColormaps()[cgi["color_map"]]
    ensures !("color_map" in cgi && cgi["color_map"] in SaddleColormaps()) ==> r == "Blues8"
  {
    assert SaddleColormaps()["blues8"] == "Blues8";
    match FindInputOption(cgi, "color_map", SaddleColormaps(), Some("Blues8"))
    case Ok(Chosen(v, _)) => v
    case Ok(Fallback(d)) => d
  }

  /** The output format the form names, `html` otherwise. */
  function OutputFormat(cgi: map<string, string>): (r: string)
    ensures r in OutputFormats
    ensures "output" in cgi && cgi["output"] in OutputFormats ==> r == cgi["output"]
    ensures !("output" in cgi && cgi["output"] in OutputFormats) ==> r == "html"
  {
    match FindInputOption(cgi, "output", OutputFormats, Some(("html", "html")))
    case Ok(Chosen(v, _)) => v
    case Ok(Fallback(d)) => d.0
  }

  /** `validate_output_args`: the output format, a query id from the
    * clock, the image format and the colour map; none of them can fail
    * (web/SaddleSum/validate.py:141-157). */
  function ValidateOutputArgs(cgi: map<string, string>, clockHash: int): (r: (string, string, string, string))
    ensures r.0 in OutputFormats && (r.2 == "svg" || r.2 == "netmapsvg") && r.3 in SaddleColormaps().Values
    ensures HashValidator(r.1) == Ok(r.1)
  {
    HexTextValid(clockHash);
    (OutputFormat(cgi), HexText(clockHash), ImageFormat(cgi), Colormap(cgi))
  }

  /** `validate_term_scores_args`: the stored query id must read as a
    * hexadecimal number and the term id must be given; the stored
    * weights and command files must both exist
    * (web/SaddleSum/validate.py:159-182). */
  function ValidateTermScoresArgs(cgi: map<string, string>, stored: set<string>): (r: Result<(string, string, string)>)
    ensures r.Ok? <==> "query_id" in cgi && IsHexLiteral(cgi["query_id"]) && "termid" in cgi &&
                       cgi["query_id"] + ".dat" in stored && cgi["query_id"] + ".cmd" in stored
    ensures r.Ok? ==> r.value == (cgi["termid"], cgi["query_id"] + ".cmd", OutputFormat(cgi))
    ensures "query_id" !in cgi ==> r == Err(KeyError)
    ensures "query_id" in cgi && !IsHexLiteral(cgi["query_id"]) ==> r == Err(ValidationError)
    ensures "query_id" in cgi && IsHexLiteral(cgi["query_id"]) && "termid" !in cgi ==> r == Err(KeyError)
  {
    if "query_id" !in cgi then Err(KeyError)
    else
      var queryId :- HashValidator(cgi["query_id"]);
      if "termid" !in cgi then Err(KeyError)
      else if queryId + ".dat" !in stored || queryId + ".cmd" !in stored then Err(MissingStoredResults)
      else Ok((cgi["termid"], queryId + ".cmd", OutputFormat(cgi)))
  }
}
