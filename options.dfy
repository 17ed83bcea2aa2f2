/** The options of the command-line renderer openvdb_render
    (openvdb/cmd/openvdb_render/main.cc, struct RenderOpts and strToSize): their
    defaults, the validation that runs once the command line has been read, and the
    parser of `-res WxH`. Single-precision fields are reals; the narrowing of
    `atof`'s double result to float is not modelled. */
module RenderOptions {
  import opened Geometry
  import opened Text

  datatype RenderOpts = RenderOpts(
    shader: string,
    camera: string,
    aperture: real,
    focal: real,
    frame: real,
    znear: real,
    zfar: real,
    rotation: Vec3,
    translation: Vec3,
    samples: nat,
    width: nat,
    height: nat,
    compression: string,
    threads: nat,
    verbose: bool)

  /** `std::numeric_limits<double>::max()`, (2^53 - 1) * 2^971, written out. */
  const DoubleMax: real :=
    179769313486231570814527423731704356798070567525844996598917476803157260780028538760589558632766878171540458953514382464234321326889464182768467546703537516986049910576551282076245490090389328944075868508455133942304583236903222948165808559332123348274797826204144723168738177180919299881250404026184124858368.0

  /** The default options `RenderOpts()`. */
  function Defaults(): RenderOpts
  {
    RenderOpts(
      shader := "diffuse",
      camera := "perspective",
      aperture := 41.2136,
      focal := 50.0,
      frame := 1.0,
      znear := 0.001,
      zfar := DoubleMax,
      rotation := Vec3(0.0, 0.0, 0.0),
      translation := Vec3(0.0, 0.0, 0.0),
      samples := 1,
      width := 2048,
      height := 1024,
      compression := "zip",
      threads := 0,
      verbose := false)
  }

  predicate ShaderOk(o: RenderOpts)
  {
    o.shader == "diffuse" || o.shader == "matte" || o.shader == "normal"
  }

  predicate CameraOk(o: RenderOpts)
  {
    StartsWith(o.camera, "ortho") || StartsWith(o.camera, "persp")
  }

  predicate CompressionOk(o: RenderOpts)
  {
    o.compression == "none" || o.compression == "rle" || o.compression == "zip"
  }

  predicate SizeOk(o: RenderOpts)
  {
    o.width >= 1 && o.height >= 1
  }

  function ShaderMessage(o: RenderOpts): string
  {
    "expected diffuse, matte or normal shader, got \"" + o.shader + "\""
  }

  function CameraMessage(o: RenderOpts): string
  {
    "expected perspective or orthographic camera, got \"" + o.camera + "\""
  }

  function CompressionMessage(o: RenderOpts): string
  {
    "expected none, rle or zip compression, got \"" + o.compression + "\""
  }

  function SizeMessage(o: RenderOpts): string
  {
    "expected width > 0 and height > 0, got " + NatToString(o.width) + "x" + NatToString(o.height)
  }

  /** `RenderOpts::validate()`, as written: the empty string, or the message of the
      first check that fails. The number of samples and the clipping planes are not
      checked. */
  function Validate(o: RenderOpts): string
  {
    if !ShaderOk(o) then ShaderMessage(o)
    else if !CameraOk(o) then CameraMessage(o)
    else if !CompressionOk(o) then CompressionMessage(o)
    else if !SizeOk(o) then SizeMessage(o)
    else ""
  }

  /** One check of a validation: whether it passes and what it reports otherwise. */
  datatype Rule = Rule(passes: bool, message: string)

  /** The message of the first rule that fails, or "" when all pass. */
  function FirstFailure(rules: seq<Rule>): string
  {
    if rules == [] then ""
    else if !rules[0].passes then rules[0].message
    else FirstFailure(rules[1..])
  }

  /** The four checks of `validate`, in the order it makes them. */
  function Rules(o: RenderOpts): seq<Rule>
  {
    [Rule(ShaderOk(o), ShaderMessage(o)), Rule(CameraOk(o), CameraMessage(o)),
     Rule(CompressionOk(o), CompressionMessage(o)), Rule(SizeOk(o), SizeMessage(o))]
  }

  /** With messages that are never empty, the first failure is empty exactly when
      every rule passes. */
  lemma {:induction false} FirstFailureEmpty(rules: seq<Rule>)
    requires forall k :: 0 <= k < |rules| ==> rules[k].message != ""
    ensures FirstFailure(rules) == "" <==> forall k :: 0 <= k < |rules| ==> rules[k].passes
  {
    if rules != [] {
      FirstFailureEmpty(rules[1..]);
      assert forall k :: 1 <= k < |rules| ==> rules[k] == rules[1..][k - 1];
    }
  }

  /** `validate` reports the first failing check among its four, in order. */
  lemma ValidateIsFirstFailure(o: RenderOpts)
    ensures Validate(o) == FirstFailure(Rules(o))
  {
    var rs := Rules(o);
    assert FirstFailure(rs[3..]) == if rs[3].passes then "" else rs[3].message by {
      assert rs[3..][1..] == [];
    }
    assert FirstFailure(rs[2..]) == if rs[2].passes then FirstFailure(rs[3..]) else rs[2].message by {
      assert rs[2..][1..] == rs[3..];
    }
    assert FirstFailure(rs[1..]) == if rs[1].passes then FirstFailure(rs[2..]) else rs[1].message by {
      assert rs[1..][1..] == rs[2..];
    }
  }

  /** `validate()` returns "" exactly when the shader, camera, compression and size
      checks all pass; otherwise it returns a non-empty message. */
  lemma ValidateAcceptsExactly(o: RenderOpts)
    ensures Validate(o) == "" <==> ShaderOk(o) && CameraOk(o) && CompressionOk(o) && SizeOk(o)
  {
    ValidateIsFirstFailure(o);
    FirstFailureEmpty(Rules(o));
    var rs := Rules(o);
    assert rs[0].passes && rs[1].passes && rs[2].passes && rs[3].passes
       ==> forall k :: 0 <= k < |rs| ==> rs[k].passes;
  }

  /** The default options pass validation. */
  lemma DefaultsValid()
    ensures Validate(Defaults()) == ""
  {
    assert "perspective"[..5] == "persp";
  }

  /** `validate` never looks at `samples`: zero samples, which the tracer's
      `setPixelSamples` asserts against, are accepted. */
  lemma ValidateAcceptsZeroSamples()
    ensures Validate(Defaults().(samples := 0)) == ""
    ensures Defaults().(samples := 0).samples == 0
  {
    DefaultsValid();
  }

  /** `validate` never looks at the clipping planes: a near plane at 0, which the
      camera constructor asserts against, is accepted. */
  lemma ValidateAcceptsZeroNear()
    ensures Validate(Defaults().(znear := 0.0)) == ""
  {
    DefaultsValid();
  }

  /** The checks the renderer needs before it builds the camera and the tracer:
      `validate`'s four, then at least one sample per pixel
      (`setPixelSamples`) and clipping planes with `0 < near < far` (the camera
      constructor). */
  function RenderRules(o: RenderOpts): seq<Rule>
  {
    Rules(o) + [Rule(o.samples >= 1, "expected samples > 0, got 0"),
                Rule(0.0 < o.znear < o.zfar, "expected near > 0 and far > near")]
  }

  /** Validation that also covers the preconditions of the camera and the tracer. */
  function ValidateForRender(o: RenderOpts): string
  {
    FirstFailure(RenderRules(o))
  }

  /** The corrected validation accepts exactly what `validate` accepts that also has
      at least one sample and well-ordered, positive clipping planes. */
  lemma ValidateForRenderAcceptsExactly(o: RenderOpts)
    ensures ValidateForRender(o) == "" <==>
      Validate(o) == "" && o.samples >= 1 && 0.0 < o.znear < o.zfar
  {
    ValidateAcceptsExactly(o);
    var rs := RenderRules(o);
    FirstFailureEmpty(rs);
    assert forall k :: 0 <= k < 4 ==> rs[k] == Rules(o)[k];
    assert (forall k :: 0 <= k < |rs| ==> rs[k].passes) <==>
      rs[0].passes && rs[1].passes && rs[2].passes && rs[3].passes && rs[4].passes && rs[5].passes;
  }

  /** The corrected validation rejects the options `validate` lets through. */
  lemma ValidateForRenderRejectsZeroSamples()
    ensures ValidateForRender(Defaults().(samples := 0)) != ""
    ensures ValidateForRender(Defaults().(znear := 0.0)) != ""
  {
    ValidateForRenderAcceptsExactly(Defaults().(samples := 0));
    ValidateForRenderAcceptsExactly(Defaults().(znear := 0.0));
  }

  /** The default options also pass the corrected validation: one sample, and the
      near plane 0.001 lies below the far plane `DBL_MAX`. */
  lemma DefaultsReadyToRender()
    ensures ValidateForRender(Defaults()) == ""
  {
    DefaultsValid();
    ValidateForRenderAcceptsExactly(Defaults());
  }

  /** The focal length plays no part in either validation. */
  lemma ValidateForRenderIgnoresFocal(o: RenderOpts, focal: real)
    ensures Validate(o.(focal := focal)) == Validate(o)
    ensures ValidateForRender(o.(focal := focal)) == ValidateForRender(o)
  {
    assert RenderRules(o.(focal := focal)) == RenderRules(o);
  }

  /** Options that pass `validate` still pass it at any size of at least one pixel. */
  lemma ValidateResized(o: RenderOpts, w: nat, h: nat)
    requires Validate(o) == "" && w >= 1 && h >= 1
    ensures Validate(o.(width := w, height := h)) == ""
  {
    ValidateAcceptsExactly(o);
    ValidateAcceptsExactly(o.(width := w, height := h));
  }

  /** Options that validate still validate at any size of at least one pixel. */
  lemma ValidateForRenderResized(o: RenderOpts, w: nat, h: nat)
    requires ValidateForRender(o) == "" && w >= 1 && h >= 1
    ensures ValidateForRender(o.(width := w, height := h)) == ""
  {
    ValidateForRenderAcceptsExactly(o);
    ValidateAcceptsExactly(o);
    ValidateForRenderAcceptsExactly(o.(width := w, height := h));
    ValidateAcceptsExactly(o.(width := w, height := h));
  }

  function Max0(n: int): (m: nat)
    ensures m >= n
  {
    if n < 0 then 0 else n
  }

  /** The separators of `-res`: "WxH" or "W,H". */
  const SizeSeparators: set<char> := {',', 'x'}

  /** The pair `strToSize(s, x, y)` leaves in (x, y). */
  function SizeOf(s: string, x: nat, y: nat): (nat, nat)
  {
    var elems := Split(s, SizeSeparators);
    (if |elems| > 0 then Max0(Atoi(elems[0])) else x,
     if |elems| > 1 then Max0(Atoi(elems[1])) else y)
  }

  /** `strToSize(s, x, y)`: splits `s` at every ',' and 'x'; the first part, read by
      `atoi` and clamped at 0, replaces x, and the second replaces y. A part that is
      missing leaves its value alone and parts past the second are ignored. */
  method StrToSize(s: string, x: nat, y: nat) returns (x': nat, y': nat)
    ensures (x', y') == SizeOf(s, x, y)
  {
    var elems := Split(s, SizeSeparators);
    var numElems := |elems|;
    x', y' := x, y;
    if numElems > 0 {
      x' := Max0(Atoi(elems[0]));
    }
    if numElems > 1 {
      y' := Max0(Atoi(elems[1]));
    }
  }

  lemma DigitsHaveNoSeparator(s: string)
    requires AllDigits(s)
    ensures NoneIn(s, SizeSeparators)
  {
  }

  /** Splitting "a<sep>b<rest>" where neither a nor b holds a separator and `rest`
      is empty or starts with one: a and b are the first two parts. */
  lemma SplitPair(a: string, sep: char, b: string, rest: string)
    requires NoneIn(a, SizeSeparators) && NoneIn(b, SizeSeparators) && sep in SizeSeparators
    requires rest == [] || rest[0] in SizeSeparators
    ensures var parts := Split(a + [sep] + b + rest, SizeSeparators);
      |parts| >= 2 && parts[0] == a && parts[1] == b
  {
    assert a + [sep] + b + rest == a + [sep] + (b + rest);
    SplitAt(a, sep, b + rest, SizeSeparators);
    SplitFirst(b, rest);
  }

  lemma SplitFirst(b: string, rest: string)
    requires NoneIn(b, SizeSeparators)
    requires rest == [] || rest[0] in SizeSeparators
    ensures Split(b + rest, SizeSeparators)[0] == b
  {
    if rest == [] {
      assert b + rest == b;
      SplitNone(b, SizeSeparators);
    } else {
      assert b + rest == b + [rest[0]] + rest[1..];
      SplitAt(b, rest[0], rest[1..], SizeSeparators);
    }
  }

  /** "WxH" and "W,H" read back as (W, H), and anything after a further separator
      is ignored. */
  lemma SizeRoundTrip(w: nat, h: nat, sep: char, rest: string, x: nat, y: nat)
    requires sep in SizeSeparators
    requires rest == [] || rest[0] in SizeSeparators
    ensures SizeOf(NatToString(w) + [sep] + NatToString(h) + rest, x, y) == (w, h)
  {
    var a, b := NatToString(w), NatToString(h);
    DigitsHaveNoSeparator(a);
    DigitsHaveNoSeparator(b);
    SplitPair(a, sep, b, rest);
    AtoiNatToString(w, []);
    AtoiNatToString(h, []);
    assert a + [] == a && b + [] == b;
  }

  /** "WxH" and "W,H" on their own read back as (W, H). */
  lemma SizePair(w: nat, h: nat, sep: char, x: nat, y: nat)
    requires sep in SizeSeparators
    ensures SizeOf(NatToString(w) + [sep] + NatToString(h), x, y) == (w, h)
  {
    var size := NatToString(w) + [sep] + NatToString(h);
    SizeRoundTrip(w, h, sep, [], x, y);
    assert size + [] == size;
  }

  /** A size without a separator sets the width only; the height keeps its value. */
  lemma WidthOnly(w: nat, x: nat, y: nat)
    ensures SizeOf(NatToString(w), x, y) == (w, y)
  {
    DigitsHaveNoSeparator(NatToString(w));
    SplitNone(NatToString(w), SizeSeparators);
    AtoiNatToString(w, []);
    assert NatToString(w) + [] == NatToString(w);
  }

  /** A negative part is clamped to 0. */
  lemma NegativeSizeClamped(n: nat, x: nat, y: nat)
    ensures SizeOf("-" + NatToString(n), x, y) == (0, y)
  {
    var s := "-" + NatToString(n);
    DigitsHaveNoSeparator(NatToString(n));
    assert NoneIn(s, SizeSeparators) by {
      assert forall k :: 1 <= k < |s| ==> s[k] == NatToString(n)[k - 1];
    }
    SplitNone(s, SizeSeparators);
    AtoiNegative(n);
  }
}
