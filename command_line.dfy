/** The command line of openvdb_render (openvdb/cmd/openvdb_render/main.cc, OptParse
    and the argument loop of main): options with one argument, the flags `-v` and
    `-h`, and two positional file names. Every way out through `usage()` is a
    result carrying the exit status. The conversions `atof`, `strToVec3R` and
    `fieldOfViewToFocalLength` are parameters. */
module CommandLine {
  import opened Geometry
  import opened Text
  import opened Wrappers
  import opened RenderOptions

  /** The numeric conversions the loop calls: `atof`, `strToVec3R` and
      `PerspectiveCamera::fieldOfViewToFocalLength(fov, aperture)`. */
  datatype Conversions = Conversions(atof: string -> real, strToVec3: string -> Vec3,
                                     fovToFocal: (real, real) -> real)

  datatype CheckResult = NoMatch | Matched | MissingArgument

  /** `OptParse::check(idx, name, numArgs)`: whether argument `idx` is the option
      `name`; a match without `numArgs` arguments after it ends in `usage()`. */
  function Check(argv: seq<string>, idx: nat, name: string, numArgs: nat): (r: CheckResult)
    requires idx < |argv|
    ensures r != NoMatch <==> argv[idx] == name
    ensures r == Matched <==> argv[idx] == name && idx + numArgs < |argv|
  {
    if argv[idx] == name then
      if idx + numArgs >= |argv| then MissingArgument else Matched
    else NoMatch
  }

  /** The options that take one argument. */
  datatype Flag = Aperture | CameraName | CompressionName | Cpus | Far | Focal | Fov | Frame
                | GridName | Near | Rotate | Res | ShaderName | Samples | Translate

  /** Which option an argument names, as the chain of `check` calls tests it:
      "-r" and "-rotate" are synonyms, and so are "-t" and "-translate". */
  function FlagOf(arg: string): Option<Flag>
  {
    if arg == "-aperture" then Some(Aperture)
    else if arg == "-camera" then Some(CameraName)
    else if arg == "-compression" then Some(CompressionName)
    else if arg == "-cpus" then Some(Cpus)
    else if arg == "-far" then Some(Far)
    else if arg == "-focal" then Some(Focal)
    else if arg == "-fov" then Some(Fov)
    else if arg == "-frame" then Some(Frame)
    else if arg == "-name" then Some(GridName)
    else if arg == "-near" then Some(Near)
    else if arg == "-r" || arg == "-rotate" then Some(Rotate)
    else if arg == "-res" then Some(Res)
    else if arg == "-shader" then Some(ShaderName)
    else if arg == "-samples" then Some(Samples)
    else if arg == "-t" || arg == "-translate" then Some(Translate)
    else None
  }

  /** The status `usage()` exits with. */
  datatype Exit = ExitSuccess | ExitFailure

  /** The variables the loop updates. */
  datatype ParseState = ParseState(opts: RenderOpts, vdbFilename: string, imgFilename: string,
                                   gridName: string, hasFocal: bool, hasFov: bool, fov: real)

  function Initial(): ParseState
  {
    ParseState(Defaults(), "", "", "", false, false, 0.0)
  }

  /** One turn of the loop: carry on from argument `i` with a new state, or leave
      through `usage()`. */
  datatype Outcome = Next(i: nat, st: ParseState) | Usage(status: Exit)

  datatype ParseResult =
    | Parsed(opts: RenderOpts, vdbFilename: string, imgFilename: string, gridName: string)
    | UsageExit(status: Exit)

  /** The effect of option `f` with argument `value`. Counts are read by `atoi` and
      clamped at 0. */
  function Apply(st: ParseState, f: Flag, value: string, conv: Conversions): ParseState
  {
    var o := st.opts;
    match f
    case Aperture => st.(opts := o.(aperture := conv.atof(value)))
    case CameraName => st.(opts := o.(camera := value))
    case CompressionName => st.(opts := o.(compression := value))
    case Cpus => st.(opts := o.(threads := Max0(Atoi(value))))
    case Far => st.(opts := o.(zfar := conv.atof(value)))
    case Focal => st.(opts := o.(focal := conv.atof(value)), hasFocal := true)
    case Fov => st.(fov := conv.atof(value), hasFov := true)
    case Frame => st.(opts := o.(frame := conv.atof(value)))
    case GridName => st.(gridName := value)
    case Near => st.(opts := o.(znear := conv.atof(value)))
    case Rotate => st.(opts := o.(rotation := conv.strToVec3(value)))
    case Res =>
      var size := SizeOf(value, o.width, o.height);
      st.(opts := o.(width := size.0, height := size.1))
    case ShaderName => st.(opts := o.(shader := value))
    case Samples => st.(opts := o.(samples := Max0(Atoi(value))))
    case Translate => st.(opts := o.(translation := conv.strToVec3(value)))
  }

  /** An argument starting with '-' is an option; any other argument, the empty one
      included (its first character is the terminating NUL), is a file name. */
  predicate IsOption(arg: string)
  {
    |arg| > 0 && arg[0] == '-'
  }

  /** The body of the loop for argument `i`. */
  function Step(argv: seq<string>, i: nat, st: ParseState, conv: Conversions): (out: Outcome)
    requires 1 <= i < |argv|
    ensures out.Next? ==> i < out.i <= |argv|
  {
    var arg := argv[i];
    if IsOption(arg) then
      match FlagOf(arg)
      case Some(f) =>
        if Check(argv, i, arg, 1) == MissingArgument then Usage(ExitFailure)
        else Next(i + 2, Apply(st, f, argv[i + 1], conv))
      case None =>
        if arg == "-v" then Next(i + 1, st.(opts := st.opts.(verbose := true)))
        else if arg == "-h" || arg == "-help" || arg == "--help" then Usage(ExitSuccess)
        else Usage(ExitFailure)
    else if st.vdbFilename == "" then Next(i + 1, st.(vdbFilename := arg))
    else if st.imgFilename == "" then Next(i + 1, st.(imgFilename := arg))
    else Usage(ExitFailure)
  }

  /** The loop from argument `i` to the end. */
  function Scan(argv: seq<string>, i: nat, st: ParseState, conv: Conversions): (out: Outcome)
    requires 1 <= i <= |argv|
    ensures out.Next? ==> out.i == |argv|
    decreases |argv| - i
  {
    if i == |argv| then Next(i, st)
    else
      match Step(argv, i, st, conv)
      case Usage(s) => Usage(s)
      case Next(i', st') => Scan(argv, i', st', conv)
  }

  /** After the loop: both file names are required, `-focal` and `-fov` exclude each
      other, `-fov` alone sets the focal length, and the options must pass
      `validate()` as written, which checks neither the number of samples nor the
      clipping planes. */
  function Finish(st: ParseState, conv: Conversions): ParseResult
  {
    if st.vdbFilename == "" || st.imgFilename == "" then UsageExit(ExitFailure)
    else if st.hasFov && st.hasFocal then UsageExit(ExitFailure)
    else
      var opts := if st.hasFov then st.opts.(focal := conv.fovToFocal(st.fov, st.opts.aperture))
                  else st.opts;
      if Validate(opts) != "" then UsageExit(ExitFailure)
      else Parsed(opts, st.vdbFilename, st.imgFilename, st.gridName)
  }

  /** The command line read by `main`; without arguments it is `usage()`. */
  function Parse(argv: seq<string>, conv: Conversions): ParseResult
    requires |argv| >= 1
  {
    if |argv| == 1 then UsageExit(ExitFailure)
    else
      match Scan(argv, 1, Initial(), conv)
      case Usage(s) => UsageExit(s)
      case Next(_, st) => Finish(st, conv)
  }

  /** The command line with the corrected validation: what `main` accepts is still a
      usage error when it asks for no samples or its clipping planes are not
      0 < near < far. */
  function ParseForRender(argv: seq<string>, conv: Conversions): ParseResult
    requires |argv| >= 1
  {
    var r := Parse(argv, conv);
    if r.Parsed? && ValidateForRender(r.opts) != "" then UsageExit(ExitFailure) else r
  }

  /** The argument loop of `main` and the checks after it. The loop's variables (the
      options, the file names, the grid name, the focal/fov flags and the field of
      view) are the fields of `st`, updated in place. */
  method ParseCommandLine(argv: seq<string>, conv: Conversions) returns (r: ParseResult)
    requires |argv| >= 1
    ensures r == Parse(argv, conv)
  {
    if |argv| == 1 {
      return UsageExit(ExitFailure);
    }
    var st := Initial();
    var i := 1;
    while i < |argv|
      invariant 1 <= i <= |argv|
      invariant Scan(argv, 1, Initial(), conv) == Scan(argv, i, st, conv)
      decreases |argv| - i
    {
      var arg := argv[i];
      if |arg| > 0 && arg[0] == '-' {
        var flag := FlagOf(arg);
        if flag.Some? {
          if Check(argv, i, arg, 1) == MissingArgument {
            return UsageExit(ExitFailure);
          }
          st := ReadOption(st, flag.value, argv[i + 1], conv);
          i := i + 1;
        } else if arg == "-v" {
          st := st.(opts := st.opts.(verbose := true));
        } else if arg == "-h" || arg == "-help" || arg == "--help" {
          return UsageExit(ExitSuccess);
        } else {
          return UsageExit(ExitFailure);
        }
      } else if st.vdbFilename == "" {
        st := st.(vdbFilename := arg);
      } else if st.imgFilename == "" {
        st := st.(imgFilename := arg);
      } else {
        return UsageExit(ExitFailure);
      }
      i := i + 1;
    }
    if st.vdbFilename == "" || st.imgFilename == "" {
      return UsageExit(ExitFailure);
    }
    var opts := st.opts;
    if st.hasFov {
      if st.hasFocal {
        return UsageExit(ExitFailure);
      }
      opts := opts.(focal := conv.fovToFocal(st.fov, opts.aperture));
    }
    var err := Validate(opts);
    if err != "" {
      return UsageExit(ExitFailure);
    }
    r := Parsed(opts, st.vdbFilename, st.imgFilename, st.gridName);
  }

  /** The branch of the loop for an option with its argument `value`. */
  method ReadOption(st: ParseState, f: Flag, value: string, conv: Conversions) returns (st': ParseState)
    ensures st' == Apply(st, f, value, conv)
  {
    st' := st;
    match f
    case Aperture => st' := st'.(opts := st'.opts.(aperture := conv.atof(value)));
    case CameraName => st' := st'.(opts := st'.opts.(camera := value));
    case CompressionName => st' := st'.(opts := st'.opts.(compression := value));
    case Cpus => st' := st'.(opts := st'.opts.(threads := Max0(Atoi(value))));
    case Far => st' := st'.(opts := st'.opts.(zfar := conv.atof(value)));
    case Focal => st' := st'.(opts := st'.opts.(focal := conv.atof(value)), hasFocal := true);
    case Fov => st' := st'.(fov := conv.atof(value), hasFov := true);
    case Frame => st' := st'.(opts := st'.opts.(frame := conv.atof(value)));
    case GridName => st' := st'.(gridName := value);
    case Near => st' := st'.(opts := st'.opts.(znear := conv.atof(value)));
    case Rotate => st' := st'.(opts := st'.opts.(rotation := conv.strToVec3(value)));
    case Res =>
      var w, h := StrToSize(value, st'.opts.width, st'.opts.height);
      st' := st'.(opts := st'.opts.(width := w, height := h));
    case ShaderName => st' := st'.(opts := st'.opts.(shader := value));
    case Samples => st' := st'.(opts := st'.opts.(samples := Max0(Atoi(value))));
    case Translate => st' := st'.(opts := st'.opts.(translation := conv.strToVec3(value)));
  }

  /** A command line that `main` accepts has both file names, and its options pass
      `validate()`. */
  lemma ParsedIsValidated(argv: seq<string>, conv: Conversions)
    requires |argv| >= 1 && Parse(argv, conv).Parsed?
    ensures var r := Parse(argv, conv);
      && r.vdbFilename != "" && r.imgFilename != "" && Validate(r.opts) == ""
      && ShaderOk(r.opts) && CameraOk(r.opts) && CompressionOk(r.opts) && SizeOk(r.opts)
  {
    ValidateAcceptsExactly(Parse(argv, conv).opts);
  }

  /** With the corrected validation, a command line that parses has both file names,
      and its options pass `validate()` and ask for at least one sample between
      ordered clipping planes: everything `render` needs. It is then exactly what
      `main` as written would have read. */
  lemma ParsedIsReadyToRender(argv: seq<string>, conv: Conversions)
    requires |argv| >= 1 && ParseForRender(argv, conv).Parsed?
    ensures ParseForRender(argv, conv) == Parse(argv, conv)
    ensures var r := ParseForRender(argv, conv);
      && r.vdbFilename != "" && r.imgFilename != ""
      && Validate(r.opts) == "" && r.opts.samples >= 1 && 0.0 < r.opts.znear < r.opts.zfar
  {
    ParsedIsValidated(argv, conv);
    ValidateForRenderAcceptsExactly(Parse(argv, conv).opts);
  }

  /** The corrected command line refuses only what `main` accepts but `render` could
      not use; everything else, usage errors and help included, is unchanged. */
  lemma ParseForRenderNarrows(argv: seq<string>, conv: Conversions)
    requires |argv| >= 1
    ensures !Parse(argv, conv).Parsed? ==> ParseForRender(argv, conv) == Parse(argv, conv)
    ensures ParseForRender(argv, conv).Parsed? <==>
      Parse(argv, conv).Parsed? && Parse(argv, conv).opts.samples >= 1
      && 0.0 < Parse(argv, conv).opts.znear < Parse(argv, conv).opts.zfar
  {
    if Parse(argv, conv).Parsed? {
      ParsedIsValidated(argv, conv);
      ValidateForRenderAcceptsExactly(Parse(argv, conv).opts);
    }
  }

  lemma FlagNamesAreOptions(arg: string)
    requires FlagOf(arg).Some?
    ensures IsOption(arg)
  {
  }

  /** One turn of the loop followed by the rest of it. */
  lemma ScanUnfold(argv: seq<string>, i: nat, st: ParseState, conv: Conversions, j: nat, st': ParseState)
    requires 1 <= i < |argv| && Step(argv, i, st, conv) == Next(j, st')
    ensures Scan(argv, i, st, conv) == Scan(argv, j, st', conv)
  {
  }

  /** A file name goes to the first of the two names that is still empty. */
  lemma FileNameStep(argv: seq<string>, i: nat, st: ParseState, conv: Conversions)
    requires 1 <= i < |argv| && !IsOption(argv[i])
    ensures st.vdbFilename == "" ==>
      Scan(argv, i, st, conv) == Scan(argv, i + 1, st.(vdbFilename := argv[i]), conv)
    ensures st.vdbFilename != "" && st.imgFilename == "" ==>
      Scan(argv, i, st, conv) == Scan(argv, i + 1, st.(imgFilename := argv[i]), conv)
    ensures st.vdbFilename != "" && st.imgFilename != "" ==>
      Scan(argv, i, st, conv) == Usage(ExitFailure)
  {
  }

  /** An option followed by its argument applies the argument and skips it. */
  lemma OptionStep(argv: seq<string>, i: nat, st: ParseState, conv: Conversions, f: Flag)
    requires 1 <= i && i + 1 < |argv| && FlagOf(argv[i]) == Some(f)
    ensures Scan(argv, i, st, conv) == Scan(argv, i + 2, Apply(st, f, argv[i + 1], conv), conv)
  {
    FlagNamesAreOptions(argv[i]);
  }

  /** The two file names in order, and nothing else: the default options, which the
      corrected validation accepts as well. */
  lemma TwoFileNames(a: string, b: string, conv: Conversions)
    requires a != "" && b != "" && !IsOption(a) && !IsOption(b)
    ensures Parse(["openvdb_render", a, b], conv) == Parsed(Defaults(), a, b, "")
    ensures ParseForRender(["openvdb_render", a, b], conv) == Parsed(Defaults(), a, b, "")
  {
    var argv := ["openvdb_render", a, b];
    var s1 := Initial().(vdbFilename := a);
    FileNameStep(argv, 1, Initial(), conv);
    FileNameStep(argv, 2, s1, conv);
    assert Scan(argv, 1, Initial(), conv) == Next(3, s1.(imgFilename := b));
    DefaultsValid();
    DefaultsReadyToRender();
  }

  /** A third file name is a usage error. */
  lemma ThirdFileNameRejected(a: string, b: string, c: string, conv: Conversions)
    requires a != "" && b != "" && !IsOption(a) && !IsOption(b) && !IsOption(c)
    ensures Parse(["openvdb_render", a, b, c], conv) == UsageExit(ExitFailure)
  {
    var argv := ["openvdb_render", a, b, c];
    var s1 := Initial().(vdbFilename := a);
    FileNameStep(argv, 1, Initial(), conv);
    FileNameStep(argv, 2, s1, conv);
    FileNameStep(argv, 3, s1.(imgFilename := b), conv);
  }

  /** An empty argument before the file names is taken as an empty file name, which
      the next name replaces: it has no effect. */
  lemma EmptyArgumentIgnored(a: string, b: string, conv: Conversions)
    requires a != "" && b != "" && !IsOption(a) && !IsOption(b)
    ensures Parse(["openvdb_render", "", a, b], conv) == Parse(["openvdb_render", a, b], conv)
  {
    var argv := ["openvdb_render", "", a, b];
    var s1 := Initial().(vdbFilename := a);
    FileNameStep(argv, 1, Initial(), conv);
    assert Initial().(vdbFilename := "") == Initial();
    FileNameStep(argv, 2, Initial(), conv);
    FileNameStep(argv, 3, s1, conv);
    assert Scan(argv, 1, Initial(), conv) == Next(4, s1.(imgFilename := b));
    TwoFileNames(a, b, conv);
  }

  /** "-h", "-help" and "--help" print the usage and exit successfully, wherever the
      loop meets them; "-v" only turns on verbose output. */
  lemma HelpExitsSuccessfully(argv: seq<string>, i: nat, st: ParseState, conv: Conversions)
    requires 1 <= i < |argv|
    requires argv[i] == "-h" || argv[i] == "-help" || argv[i] == "--help"
    ensures Scan(argv, i, st, conv) == Usage(ExitSuccess)
  {
    assert FlagOf(argv[i]) == None;
  }

  lemma VerboseFlag(argv: seq<string>, i: nat, st: ParseState, conv: Conversions)
    requires 1 <= i < |argv| && argv[i] == "-v"
    ensures Step(argv, i, st, conv) == Next(i + 1, st.(opts := st.opts.(verbose := true)))
  {
    assert FlagOf(argv[i]) == None;
  }

  /** An option that takes an argument but comes last is a usage error. */
  lemma MissingOptionArgument(argv: seq<string>, st: ParseState, conv: Conversions)
    requires |argv| >= 2 && FlagOf(argv[|argv| - 1]).Some?
    ensures Scan(argv, |argv| - 1, st, conv) == Usage(ExitFailure)
  {
    FlagNamesAreOptions(argv[|argv| - 1]);
  }

  /** An unknown option is a usage error. */
  lemma UnknownOptionRejected(argv: seq<string>, i: nat, st: ParseState, conv: Conversions)
    requires 1 <= i < |argv| && IsOption(argv[i]) && FlagOf(argv[i]) == None
    requires argv[i] != "-v" && argv[i] != "-h" && argv[i] != "-help" && argv[i] != "--help"
    ensures Scan(argv, i, st, conv) == Usage(ExitFailure)
  {
  }

  /** The state after the two file names. */
  function Named(a: string, b: string): ParseState
  {
    Initial().(vdbFilename := a, imgFilename := b)
  }

  /** "openvdb_render a b <option> <value>" scans to the named state with the option
      applied. */
  lemma ScanOneOption(a: string, b: string, name: string, value: string, f: Flag, conv: Conversions)
    requires a != "" && b != "" && !IsOption(a) && !IsOption(b) && FlagOf(name) == Some(f)
    ensures Scan(["openvdb_render", a, b, name, value], 1, Initial(), conv)
         == Next(5, Apply(Named(a, b), f, value, conv))
  {
    var argv := ["openvdb_render", a, b, name, value];
    FileNameStep(argv, 1, Initial(), conv);
    FileNameStep(argv, 2, Initial().(vdbFilename := a), conv);
    OptionStep(argv, 3, Named(a, b), conv, f);
  }

  /** `-fov` alone sets the focal length from the field of view and the aperture. */
  lemma FovSetsFocal(a: string, b: string, v: string, conv: Conversions)
    requires a != "" && b != "" && !IsOption(a) && !IsOption(b)
    ensures Parse(["openvdb_render", a, b, "-fov", v], conv)
         == Parsed(Defaults().(focal := conv.fovToFocal(conv.atof(v), Defaults().aperture)), a, b, "")
  {
    assert FlagOf("-fov") == Some(Fov);
    ScanOneOption(a, b, "-fov", v, Fov, conv);
    var st := Apply(Named(a, b), Fov, v, conv);
    assert st.opts == Defaults() && st.fov == conv.atof(v) && st.hasFov && !st.hasFocal;
    var focal := conv.fovToFocal(conv.atof(v), Defaults().aperture);
    DefaultsValid();
    ValidateForRenderIgnoresFocal(Defaults(), focal);
    assert Finish(st, conv) == Parsed(Defaults().(focal := focal), a, b, "");
  }

  /** `-focal` and `-fov` together are a usage error, in either order. */
  lemma FocalThenFovRejected(a: string, b: string, f: string, v: string, conv: Conversions)
    requires a != "" && b != "" && !IsOption(a) && !IsOption(b)
    ensures Parse(["openvdb_render", a, b, "-focal", f, "-fov", v], conv) == UsageExit(ExitFailure)
  {
    var argv := ["openvdb_render", a, b, "-focal", f, "-fov", v];
    assert FlagOf(argv[3]) == Some(Focal);
    assert FlagOf(argv[5]) == Some(Fov);
    FileNameStep(argv, 1, Initial(), conv);
    FileNameStep(argv, 2, Initial().(vdbFilename := a), conv);
    var s3 := Named(a, b).(opts := Defaults().(focal := conv.atof(f)), hasFocal := true);
    OptionStep(argv, 3, Named(a, b), conv, Focal);
    assert Apply(Named(a, b), Focal, f, conv) == s3;
    var s4 := s3.(fov := conv.atof(v), hasFov := true);
    OptionStep(argv, 5, s3, conv, Fov);
    assert Apply(s3, Fov, v, conv) == s4;
    assert Scan(argv, 1, Initial(), conv) == Next(7, s4);
  }

  lemma FovThenFocalRejected(a: string, b: string, f: string, v: string, conv: Conversions)
    requires a != "" && b != "" && !IsOption(a) && !IsOption(b)
    ensures Parse(["openvdb_render", a, b, "-fov", v, "-focal", f], conv) == UsageExit(ExitFailure)
  {
    var argv := ["openvdb_render", a, b, "-fov", v, "-focal", f];
    assert FlagOf(argv[3]) == Some(Fov);
    assert FlagOf(argv[5]) == Some(Focal);
    FileNameStep(argv, 1, Initial(), conv);
    FileNameStep(argv, 2, Initial().(vdbFilename := a), conv);
    var s3 := Named(a, b).(fov := conv.atof(v), hasFov := true);
    OptionStep(argv, 3, Named(a, b), conv, Fov);
    assert Apply(Named(a, b), Fov, v, conv) == s3;
    var s4 := s3.(opts := Defaults().(focal := conv.atof(f)), hasFocal := true);
    OptionStep(argv, 5, s3, conv, Focal);
    assert Apply(s3, Focal, f, conv) == s4;
    assert Scan(argv, 1, Initial(), conv) == Next(7, s4);
  }

  /** `-res` stores the size `strToSize` reads, from any state. */
  lemma ResolutionApplied(st: ParseState, size: string, w: nat, h: nat, conv: Conversions)
    requires SizeOf(size, st.opts.width, st.opts.height) == (w, h)
    ensures Apply(st, Res, size, conv) == st.(opts := st.opts.(width := w, height := h))
  {
  }

  /** On the command line, `-res WxH` with a positive size is taken as is. */
  lemma ResolutionOption(a: string, b: string, w: nat, h: nat, conv: Conversions)
    requires a != "" && b != "" && !IsOption(a) && !IsOption(b) && w > 0 && h > 0
    ensures Parse(["openvdb_render", a, b, "-res", NatToString(w) + "x" + NatToString(h)], conv)
         == Parsed(Defaults().(width := w, height := h), a, b, "")
  {
    var size := NatToString(w) + "x" + NatToString(h);
    assert FlagOf("-res") == Some(Res);
    ScanOneOption(a, b, "-res", size, Res, conv);
    SizePair(w, h, 'x', 2048, 1024);
    ResolutionApplied(Named(a, b), size, w, h, conv);
    var o := Defaults().(width := w, height := h);
    var st := Apply(Named(a, b), Res, size, conv);
    assert st == Named(a, b).(opts := o);
    DefaultsValid();
    ValidateResized(Defaults(), w, h);
    assert Finish(st, conv) == Parsed(o, a, b, "");
  }

  /** `-cpus N` stores N, and a negative count is clamped to 0, which asks for all
      CPUs. */
  lemma CpusClamped(st: ParseState, n: nat, conv: Conversions)
    ensures Apply(st, Cpus, NatToString(n), conv).opts.threads == n
    ensures Apply(st, Cpus, "-" + NatToString(n), conv).opts.threads == 0
  {
    var d := NatToString(n);
    AtoiNatToString(n, []);
    assert d + [] == d;
    AtoiNegative(n);
    CpusApplied(st, d, conv);
    CpusApplied(st, "-" + d, conv);
  }

  lemma CpusApplied(st: ParseState, value: string, conv: Conversions)
    ensures Apply(st, Cpus, value, conv).opts.threads == Max0(Atoi(value))
  {
  }

  /** `atoi("0")`, clamped: 0. */
  lemma ZeroCount()
    ensures Max0(Atoi("0")) == 0
  {
    AtoiNatToString(0, []);
    assert NatToString(0) + [] == "0";
  }

  /** `-samples 0` gets through the loop unchanged. */
  lemma ZeroSamplesScanned(a: string, b: string, conv: Conversions)
    requires a != "" && b != "" && !IsOption(a) && !IsOption(b)
    ensures Scan(["openvdb_render", a, b, "-samples", "0"], 1, Initial(), conv)
         == Next(5, Named(a, b).(opts := Defaults().(samples := 0)))
  {
    assert FlagOf("-samples") == Some(Samples);
    ScanOneOption(a, b, "-samples", "0", Samples, conv);
    ZeroSamplesApplied(Named(a, b), conv);
  }

  lemma ZeroSamplesApplied(st: ParseState, conv: Conversions)
    ensures Apply(st, Samples, "0", conv) == st.(opts := st.opts.(samples := 0))
  {
    ZeroCount();
  }

  /** `main` as written accepts `-samples 0`, so it goes on to build the tracer with
      no samples. */
  lemma ZeroSamplesParsed(a: string, b: string, conv: Conversions)
    requires a != "" && b != "" && !IsOption(a) && !IsOption(b)
    ensures Parse(["openvdb_render", a, b, "-samples", "0"], conv)
         == Parsed(Defaults().(samples := 0), a, b, "")
  {
    ZeroSamplesScanned(a, b, conv);
    ValidateAcceptsZeroSamples();
    assert Finish(Named(a, b).(opts := Defaults().(samples := 0)), conv)
        == Parsed(Defaults().(samples := 0), a, b, "");
  }

  /** With the corrected validation the same command line is a usage error. */
  lemma ZeroSamplesRejected(a: string, b: string, conv: Conversions)
    requires a != "" && b != "" && !IsOption(a) && !IsOption(b)
    ensures ParseForRender(["openvdb_render", a, b, "-samples", "0"], conv) == UsageExit(ExitFailure)
  {
    ZeroSamplesParsed(a, b, conv);
    ValidateForRenderRejectsZeroSamples();
  }

  /** `main` as written accepts a near plane that `atof` reads as 0, so it goes on to
      build a camera with a near plane at 0. */
  lemma ZeroNearParsed(a: string, b: string, v: string, conv: Conversions)
    requires a != "" && b != "" && !IsOption(a) && !IsOption(b) && conv.atof(v) == 0.0
    ensures Parse(["openvdb_render", a, b, "-near", v], conv)
         == Parsed(Defaults().(znear := 0.0), a, b, "")
  {
    assert FlagOf("-near") == Some(Near);
    ScanOneOption(a, b, "-near", v, Near, conv);
    assert Apply(Named(a, b), Near, v, conv) == Named(a, b).(opts := Defaults().(znear := 0.0));
    ValidateAcceptsZeroNear();
    assert Finish(Named(a, b).(opts := Defaults().(znear := 0.0)), conv)
        == Parsed(Defaults().(znear := 0.0), a, b, "");
  }

  /** With the corrected validation the same command line is a usage error. */
  lemma ZeroNearRejected(a: string, b: string, v: string, conv: Conversions)
    requires a != "" && b != "" && !IsOption(a) && !IsOption(b) && conv.atof(v) == 0.0
    ensures ParseForRender(["openvdb_render", a, b, "-near", v], conv) == UsageExit(ExitFailure)
  {
    ZeroNearParsed(a, b, v, conv);
    ValidateForRenderRejectsZeroSamples();
  }
}
