/** What the command-line renderer does with validated options
    (openvdb/cmd/openvdb_render/main.cc, render and saveEXR): it picks the camera and
    the shader by name, traces, then picks the image format from the file name's
    suffix. Reading the grid, the check that it is a level set, the OpenEXR calls and
    the timing output are not part of this model. */
module RenderOutput {
  import opened Colour
  import opened Geometry
  import opened Text
  import opened Wrappers
  import opened Films
  import opened Shaders
  import opened Cameras
  import opened Tracer
  import opened RenderOptions

  datatype CameraKind = PerspectiveKind | OrthographicKind

  /** The camera `render` builds: a name starting with "persp" is tested first. */
  function CameraKindOf(camera: string): (r: Result<CameraKind, string>)
    ensures r.Success? <==> StartsWith(camera, "persp") || StartsWith(camera, "ortho")
    ensures r == Success(PerspectiveKind) <==> StartsWith(camera, "persp")
    ensures r == Success(OrthographicKind) <==>
      !StartsWith(camera, "persp") && StartsWith(camera, "ortho")
  {
    if StartsWith(camera, "persp") then Success(PerspectiveKind)
    else if StartsWith(camera, "ortho") then Success(OrthographicKind)
    else Failure("expected perspective or orthographic camera, got \"" + camera + "\"")
  }

  /** The shader `render` builds, each with its default colour, opaque white. */
  function ShaderOf(name: string): (r: Result<Shader, string>)
    ensures r.Success? <==> name == "diffuse" || name == "matte" || name == "normal"
    ensures r.Success? ==>
              && (r.value.Diffuse? <==> name == "diffuse")
              && (r.value.Matte? <==> name == "matte")
              && (r.value.Normal? <==> name == "normal")
  {
    if name == "diffuse" then Success(Diffuse(White))
    else if name == "matte" then Success(Matte(White))
    else if name == "normal" then Success(NewNormalShader(White))
    else Failure("expected diffuse, matte or normal shader, got \"" + name + "\"")
  }

  /** Where the image goes: a PPM file whose name `savePPM` completes with ".ppm",
      or an EXR file. */
  datatype ImageFormat = Ppm(base: string) | Exr(name: string)

  /** The suffix test at the end of `render`, case-insensitive, ".ppm" first. For a
      PPM image the last four characters are stripped, since `savePPM` appends its
      own ".ppm". */
  function OutputOf(img: string): (r: Result<ImageFormat, string>)
    ensures r.Success? <==> IEndsWith(img, ".ppm") || IEndsWith(img, ".exr")
  {
    if IEndsWith(img, ".ppm") then Success(Ppm(img[..|img| - 4]))
    else if IEndsWith(img, ".exr") then Success(Exr(img))
    else Failure("unsupported image file format (" + img + ")")
  }

  /** The name `saveEXR` writes: ".exr" is appended unless the name already ends
      with it, in any case. */
  function ExrFileName(fname: string): string
  {
    if IEndsWith(fname, ".exr") then fname else fname + ".exr"
  }

  /** The thread count handed to OpenEXR: 8 when the option asks for all CPUs (0). */
  function ExrThreadCount(threads: nat): (n: nat)
    ensures n >= 1
    ensures threads > 0 ==> n == threads
    ensures threads == 0 ==> n == 8
  {
    if threads == 0 then 8 else threads
  }

  datatype Compression = NoCompression | RleCompression | ZipCompression

  /** The EXR compression scheme; any other name throws. */
  function ExrCompression(name: string): (r: Result<Compression, string>)
    ensures r.Success? <==> name == "none" || name == "rle" || name == "zip"
  {
    if name == "none" then Success(NoCompression)
    else if name == "rle" then Success(RleCompression)
    else if name == "zip" then Success(ZipCompression)
    else Failure("expected none, rle or zip compression, got \"" + name + "\"")
  }

  /** `rayTrace` runs threaded unless exactly one CPU was asked for. */
  predicate Threaded(o: RenderOpts)
  {
    o.threads != 1
  }

  /** The decisions `render` takes for one image, in its order: camera, shader, then
      (after tracing) the output format. */
  datatype Plan = Plan(camera: CameraKind, shader: Shader, pixelSamples: nat, threaded: bool,
                       output: ImageFormat)

  function RenderPlan(o: RenderOpts, img: string): (r: Result<Plan, string>)
    ensures r.Success? <==> CameraKindOf(o.camera).Success? && ShaderOf(o.shader).Success?
                            && OutputOf(img).Success?
    ensures r.Success? ==> (r.value.threaded <==> o.threads != 1)
  {
    match CameraKindOf(o.camera)
    case Failure(e) => Failure(e)
    case Success(cam) =>
      match ShaderOf(o.shader)
      case Failure(e) => Failure(e)
      case Success(sh) =>
        match OutputOf(img)
        case Failure(e) => Failure(e)
        case Success(out) => Success(Plan(cam, sh, o.samples, Threaded(o), out))
  }

  /** Once `validate` has passed, the camera, shader and compression branches of
      `render` and `saveEXR` that throw cannot be reached: rendering fails only on an
      image name that ends in neither ".ppm" nor ".exr". */
  lemma ValidatedRenderFailsOnlyOnSuffix(o: RenderOpts, img: string)
    requires Validate(o) == ""
    ensures ExrCompression(o.compression).Success?
    ensures RenderPlan(o, img).Success? <==> IEndsWith(img, ".ppm") || IEndsWith(img, ".exr")
  {
    ValidateAcceptsExactly(o);
  }

  /** With the corrected validation, the plan asks the tracer for at least one sample
      per pixel, which `setPixelSamples` requires. */
  lemma PlanHasSamples(o: RenderOpts, img: string)
    requires ValidateForRender(o) == "" && RenderPlan(o, img).Success?
    ensures RenderPlan(o, img).value.pixelSamples > 0
  {
    ValidateForRenderAcceptsExactly(o);
  }

  /** The PPM file name: `savePPM` re-appends a lower-case ".ppm" to the stripped
      name, so the file written is the requested name up to the case of its suffix,
      and exactly that name when the suffix was already lower case. */
  lemma PpmNameRestored(img: string)
    requires IEndsWith(img, ".ppm")
    ensures OutputOf(img) == Success(Ppm(img[..|img| - 4]))
    ensures Lower(img[..|img| - 4] + ".ppm") == Lower(img)
    ensures img[|img| - 4..] == ".ppm" ==> img[..|img| - 4] + ".ppm" == img
  {
    var base, suffix := img[..|img| - 4], img[|img| - 4..];
    assert img == base + suffix;
    assert Lower(suffix) == Lower(".ppm");
    LowerConcat(base, ".ppm");
    LowerConcat(base, suffix);
  }

  lemma LowerConcat(a: string, b: string)
    ensures Lower(a + b) == Lower(a) + Lower(b)
  {
    assert forall k :: 0 <= k < |a + b| ==> Lower(a + b)[k] == (Lower(a) + Lower(b))[k];
  }

  /** An EXR name that reaches `saveEXR` from `render` already ends in ".exr", so it
      is written unchanged; any name `saveEXR` writes ends in ".exr", and completing
      a name twice changes nothing. */
  lemma ExrNameProperties(img: string, fname: string)
    ensures OutputOf(img) == Success(Exr(img)) ==> ExrFileName(img) == img
    ensures IEndsWith(ExrFileName(fname), ".exr")
    ensures ExrFileName(ExrFileName(fname)) == ExrFileName(fname)
  {
    if !IEndsWith(fname, ".exr") {
      var f := fname + ".exr";
      assert f[|f| - 4..] == ".exr";
    }
  }

  /** A name that ends in ".ppm" is never taken for an EXR image. */
  lemma PpmBeforeExr(img: string)
    requires IEndsWith(img, ".ppm")
    ensures !IEndsWith(img, ".exr")
  {
    var t := img[|img| - 4..];
    assert Lower(t)[1] == 'p' by {
      assert Lower(t) == Lower(".ppm");
      assert LowerChar('p') == 'p';
    }
  }

  /** `render` on validated options: an opaque black film of the requested size, the
      camera and shader chosen by name, a tracer taking `samples` samples per pixel,
      the sequential trace, and the choice of output format. Every pixel holds the
      average of its samples over a black background, so where no ray hits anything
      the film stays black. The rotation and translation of the camera are given as
      the map they produce, and the perspective projection as a function. */
  method Render(o: RenderOpts, img: string, screenToWorld: AffineMap, inter: Intersector,
                rand01: (nat, nat) -> real, perspectiveRay: (nat, nat, real, real) -> Ray)
    returns (film: Film, tracer: LevelSetRayTracer, output: Result<ImageFormat, string>)
    requires ValidateForRender(o) == ""
    requires StartsWith(o.camera, "persp") ==> o.focal != 0.0
    ensures fresh(film) && film.Valid() && film.width == o.width && film.height == o.height
    ensures tracer.Valid() && tracer.camera.film == film && tracer.inter == inter
    ensures tracer.camera.screenToWorld == screenToWorld
    ensures tracer.camera.ray.t0 == o.znear && tracer.camera.ray.t1 == o.zfar
    ensures tracer.camera.lens.Perspective? <==> StartsWith(o.camera, "persp")
    ensures tracer.shader == ShaderOf(o.shader).value && tracer.subPixels == o.samples - 1
    ensures forall i, j :: 0 <= i < film.width && 0 <= j < film.height ==>
      film.Pixel(i, j) == PixelColour(inter, tracer.shader, tracer.camera, tracer.Table(),
                                      tracer.subPixels, i, j, Black,
                                      Counter(tracer.subPixels, film.width, 0, i, j))
    ensures output == OutputOf(img)
    ensures (forall ray :: inter(ray) == None) ==>
      forall i, j :: 0 <= i < film.width && 0 <= j < film.height ==> film.Pixel(i, j) == Black
  {
    ValidateForRenderAcceptsExactly(o);
    ValidateAcceptsExactly(o);
    film := new Film(o.width, o.height);
    var camera: Camera;
    if CameraKindOf(o.camera).value == PerspectiveKind {
      camera := new Camera.Persp(film, screenToWorld, o.focal, o.aperture, o.znear, o.zfar,
                                 perspectiveRay);
    } else {
      camera := new Camera.Ortho(film, screenToWorld, o.frame, o.znear, o.zfar);
    }
    var shader := ShaderOf(o.shader).value;
    tracer := new LevelSetRayTracer(inter, shader, camera, rand01, o.samples);
    assert forall i, j :: 0 <= i < film.width && 0 <= j < film.height ==> film.Pixel(i, j) == Black by {
      forall i, j | 0 <= i < film.width && 0 <= j < film.height
        ensures film.Pixel(i, j) == Black
      {
        IndexBound(i, j, film.width, film.height);
      }
    }
    tracer.Trace();
    if forall ray :: inter(ray) == None {
      forall i, j | 0 <= i < film.width && 0 <= j < film.height
        ensures film.Pixel(i, j) == Black
      {
        MissKeepsBackground(inter, shader, camera, tracer.Table(), tracer.subPixels, i, j,
                            Black, Counter(tracer.subPixels, film.width, 0, i, j));
      }
    }
    output := OutputOf(img);
  }
}
