# OpenVDB reference ray tracer and `openvdb_render`, modelled in Dafny

This project models the discrete machinery of OpenVDB's reference level-set ray tracer
(`openvdb/tools/RayTracer.h`) and the option handling of the command-line renderer
built on it (`openvdb/cmd/openvdb_render/main.cc`). It proves properties of that
model.

- `colour.dfy` (`Colour`): the film's `RGBA` value and its operators, including the
  alpha quirk. `*` and `+` build opaque results, while `+=` also adds alpha. `over`
  composites behind the receiver.
- `film.dfy` (`Films`): the `Film` class, a row-major `array` of pixels, with:
  - the bounds-checked `pixel(w, h)`;
  - the in-place `fill` and `checkerboard` loops;
  - `savePPM`, which packs a byte buffer and produces a binary "P6" file.
- `bits.dfy` (`Bits`): C++ `&` and `^` on unsigned integers, used by `checkerboard`
  and by the jitter index `n & 15`.
- `shaders.dfy` (`Shaders`): the matte, normal and diffuse shaders.
- `camera.dfy` (`Cameras`): the camera class.
  - `rasterToScreen` and the orthographic `getRay` are computed.
  - The perspective `getRay` is a function the camera is given.
- `tracer.dfy` (`Tracer`): the `LevelSetRayTracer` class.
  - It holds the number of extra samples per pixel, and a 16-entry jitter table that
    the master tracer owns and its copies share.
  - `operator()` renders a range of rows. Each pixel gets a primary sample plus one
    jittered sample per extra sample, and the average is written back. A ray that
    misses takes the pixel's previous value.
  - The unthreaded `trace` renders the whole film as one range.
  - The intersector and the random generator are parameters.
- `options.dfy` (`RenderOptions`): `RenderOpts` with its defaults, `validate`, and
  the `-res` parser `strToSize`.
- `command_line.dfy` (`CommandLine`): `OptParse::check` and the argument loop of
  `main`, including the `-focal`/`-fov` conflict and the checks after the loop.
  `Parse` follows `main` as written, with `validate()` as its last check.
  `ParseForRender` is the same command line with the corrected validation of the
  Findings below.
- `output.dfy` (`RenderOutput`): what `render` and `saveEXR` decide:
  - the camera and shader chosen by name;
  - threading;
  - the image format chosen by the suffix of the file name;
  - the EXR file name, thread count and compression.
- `text.dfy` (`Text`): decimal output, `atoi`, `boost::split`, `starts_with` and
  `iends_with`.
- `wrappers.dfy` (`Wrappers`): `Option` and `Result`.

The modelling choices:
- Colours and camera arithmetic are reals.
- Sizes and counters are natural numbers. Where the source's 64-bit wrap-around
  could matter (the jitter counter), a lemma shows that it does not.
- The two RGBA operators that mutate their receiver (`+=`, `over`) are functions
  giving the receiver's new value. `RGBA` is a plain value type.
- The `LevelSetRayTracer` fields, the film's pixels and the jitter table are updated
  in place by methods. Each method is proved against a specification function:
  - `Accumulate` for the jitter loop;
  - `PixelColour` for the range body;
  - `Counter` for the jitter counter;
  - `CheckerColour` for the checkerboard;
  - `PpmBody` for the PPM byte buffer;
  - `Parse` for the argument loop.
- Every exit through `usage()` is a `UsageExit` result carrying the exit status.

Where the code and its documentation differ, the model follows the code:
- The usage text lists `-r` and `-t` on lines of their own with no description.
  The loop treats them as synonyms of `-rotate` and `-translate`.
- An empty argument counts as a file name, not as an option, because its first
  character is the terminating NUL.

## Model

| member | source | states |
|---|---|---|
| Colour.Grey | openvdb/tools/RayTracer.h:149 | `RGBA(intensity)` is opaque white scaled by the intensity, and it is in [0,1] exactly when the intensity is |
| Colour.Scale | openvdb/tools/RayTracer.h:151 | scaling by a number; specified by `AlphaQuirk` (the result is opaque) and used by `Grey` and the shaders |
| Colour.Add | openvdb/tools/RayTracer.h:152 | channel sum; specified by `AlphaQuirk`: opaque, and equal to `+=` on r, g, b |
| Colour.Mul | openvdb/tools/RayTracer.h:153 | channel product; specified by `AlphaQuirk` (opaque) and by `Shaders.NormalShaderMapsNormal` |
| Colour.AddAssign | openvdb/tools/RayTracer.h:154 | the receiver after `+=`; specified by `AlphaQuirk` (alpha is summed) and `Tracer.RepeatValue` |
| Colour.Over | openvdb/tools/RayTracer.h:155-162 | the receiver after `over`; specified by `OverOpaqueIdentity`, `OverTransparent` and `OverInRange` |
| Colour.AlphaQuirk | openvdb/tools/RayTracer.h:151-154 | `*` (by a scalar or a colour) and `+` give alpha 1, while `+=` adds alpha. `+` and `+=` agree on r, g, b, and agree on alpha exactly when the two alphas sum to 1 |
| Colour.OverOpaqueIdentity | openvdb/tools/RayTracer.h:155-162 | `over` leaves an opaque receiver unchanged in all four channels |
| Colour.OverTransparent | openvdb/tools/RayTracer.h:155-162 | `over` on a fully transparent receiver gives `rhs` premultiplied by its alpha |
| Colour.OverInRange | openvdb/tools/RayTracer.h:143-162 | `over` keeps channels in [0,1], the range the struct documents, and never lowers alpha |
| Bits.BitAnd | openvdb/tools/RayTracer.h:197 | `x & y` never exceeds either operand |
| Bits.XorZeroIff | openvdb/tools/RayTracer.h:197 | `x ^ y` is zero exactly when x equals y, the test `checkerboard` relies on |
| Bits.Mask15 | openvdb/tools/RayTracer.h:628 | the jitter index `n & 15` is `n % 16`, so it always lies in [0,16) |
| Bits.Mask15Wrap | openvdb/tools/RayTracer.h:622-628 | reducing the counter modulo 2^64, as `size_t` does, leaves `n & 15` unchanged |
| Text.NatToString | openvdb/tools/RayTracer.h:220 | printing a size gives a non-empty run of decimal digits |
| Text.DigitsOfNatToString | openvdb/tools/RayTracer.h:220 | the printed digits read back as the number printed |
| Text.Atoi | openvdb/cmd/openvdb_render/main.cc:313-314 | C's `atoi`; specified by `AtoiUnsigned`, `AtoiNatToString` and `AtoiNegative` |
| Text.AtoiUnsigned | openvdb/cmd/openvdb_render/main.cc:313-314 | without leading space or sign, `atoi` reads the leading digits |
| Text.AtoiNatToString | openvdb/cmd/openvdb_render/main.cc:313-314 | `atoi` reads back a printed number that is followed by a non-digit or by nothing |
| Text.AtoiNegative | openvdb/cmd/openvdb_render/main.cc:313-314 | `atoi` reads "-N" as -N |
| Text.Split | openvdb/cmd/openvdb_render/main.cc:311 | `boost::split` always yields at least one part |
| Text.SplitShape | openvdb/cmd/openvdb_render/main.cc:311 | `boost::split` yields one part more than there are separators, and no part contains a separator |
| Text.SplitNone | openvdb/cmd/openvdb_render/main.cc:311 | a text without separators splits into itself alone |
| Text.SplitAt | openvdb/cmd/openvdb_render/main.cc:311 | splitting at the first separator gives the prefix, then the parts of the rest |
| Shaders.Shade | openvdb/tools/RayTracer.h:423-467 | the three shaders' `operator()`; specified by `MatteIgnoresInputs`, `NormalShaderMapsNormal`, `DiffuseTwoSided` and `DiffuseDims` |
| Shaders.MatteIgnoresInputs | openvdb/tools/RayTracer.h:418-428 | the matte shader returns its colour, alpha included, whatever the hit and the ray |
| Shaders.NormalShaderMapsNormal | openvdb/tools/RayTracer.h:431-440 | each output channel is the colour channel times (normal component + 1)/2. For a colour in range and a normal in [-1,1]^3, the output is in range |
| Shaders.DiffuseTwoSided | openvdb/tools/RayTracer.h:465-467 | reversing the ray does not change the diffuse shade (two-sided shading) |
| Shaders.DiffuseDims | openvdb/tools/RayTracer.h:446-467 | when abs(normal·dir) <= 1, the diffuse shade dims each channel of its colour and stays in range |
| Films.IndexBound | openvdb/tools/RayTracer.h:177-189 | a valid (w, h) addresses a slot below width*height |
| Films.IndexInjective | openvdb/tools/RayTracer.h:177-189 | distinct valid (w, h) pairs address distinct slots |
| Films.IndexOrder | openvdb/tools/RayTracer.h:194-198 | raster order is slot order, which is why `checkerboard`'s running pointer reaches pixel (i, j) |
| Films.CheckerColour | openvdb/tools/RayTracer.h:197 | the colour `checkerboard` gives pixel (i, j); specified by `CheckerMeaning` and `Checker32` |
| Films.ToByte | openvdb/tools/RayTracer.h:209-211 | the byte is the truncation of 255*v: at most 255*v and within 1 of it, and 255 only for v = 1 |
| Films.PpmBody | openvdb/tools/RayTracer.h:205-212 | the packed RGB bytes; specified by `PpmBodyLayout` and `PpmTwoPixels` |
| Films.CheckerMeaning | openvdb/tools/RayTracer.h:197 | when c1 != c2, a pixel gets c1 exactly when `i & size` differs from `j & size` |
| Films.Checker32 | openvdb/tools/RayTracer.h:192-200 | with tile size 32, pixel (i, j) gets c1 exactly when its tile column and tile row differ in parity; (0,0) and (31,31) get c2, and (32,0) gets c1 |
| Films.PpmBodyLayout | openvdb/tools/RayTracer.h:205-212 | the PPM body has 3 bytes per pixel, and bytes 3k, 3k+1, 3k+2 are the truncated 255*r, g, b of pixel k; alpha is dropped |
| Films.PpmTwoPixels | openvdb/tools/RayTracer.h:202-221 | a 2x1 red/green film has header "P6\n2 1\n255\n" and body 255 0 0 0 255 0 |
| Films.Film.constructor | openvdb/tools/RayTracer.h:166-169 | a new film has width*height pixels, all opaque black |
| Films.Film.WithBackground | openvdb/tools/RayTracer.h:170-174 | a new film has width*height pixels, all set to the background |
| Films.Film.Pixel | openvdb/tools/RayTracer.h:184-189 | the pixel at w + h*width; specified by `constructor`, `SetPixel`, `Fill` and `Checkerboard`, which say what each write makes it |
| Films.Film.SetPixel | openvdb/tools/RayTracer.h:184-189 | writing through `pixel(w, h)` changes that pixel and no other |
| Films.Film.Fill | openvdb/tools/RayTracer.h:191 | every one of the width*height pixels becomes c |
| Films.Film.Checkerboard | openvdb/tools/RayTracer.h:192-200 | every pixel (i, j) becomes its checker colour: c1 when `(i & size) ^ (j & size)` is non-zero, else c2 |
| Films.Film.SavePPM | openvdb/tools/RayTracer.h:202-223 | when the file opens, writes `fileName + ".ppm"` with header "P6\n<w> <h>\n255\n" and the packed body; otherwise writes nothing and raises no error |
| Cameras.Camera.Ortho | openvdb/tools/RayTracer.h:381-389 | the orthographic half-width is 0.5*frameWidth. The frame keeps the film's aspect ratio. The base ray has the given clipping planes and starts at the mapped origin looking down the mapped -z |
| Cameras.Camera.Persp | openvdb/tools/RayTracer.h:324-333 | the perspective half-width is 0.5*aperture/focalLength, with the same base ray and aspect ratio |
| Cameras.Camera.RasterToScreen | openvdb/tools/RayTracer.h:288-292 | the depth of the screen point is the one given |
| Cameras.Camera.GetRay | openvdb/tools/RayTracer.h:394-401 | an orthographic ray keeps the base ray's direction and clipping interval |
| Cameras.Camera.ScreenFrame | openvdb/tools/RayTracer.h:288-292 | raster (0,0) maps to the top-left corner of the screen frame, (width, height) to the bottom-right, and the film centre to the screen centre |
| Cameras.Camera.ScreenPitch | openvdb/tools/RayTracer.h:288-292 | adjacent pixels are a constant screen step apart, 2*scaleWidth/width to the right and 2*scaleHeight/height down |
| Cameras.Camera.OrthographicCentreRay | openvdb/tools/RayTracer.h:394-401 | the orthographic ray through the film centre is the base ray |
| Cameras.Camera.OrthographicRaysParallel | openvdb/tools/RayTracer.h:394-401 | orthographic rays share direction and clipping interval, and their eyes differ by the linear part of the map applied to the difference of their screen points |
| Tracer.Sample | openvdb/tools/RayTracer.h:626 | a hit shaded, or the pixel's previous value on a miss; specified by `MissKeepsBackground`, `MatteCoversPixel` and `SingleSample` |
| Tracer.Counter | openvdb/tools/RayTracer.h:622-630 | the jitter counter at pixel (i, j) of a range; specified by `CounterStep`, `CounterRow` and `CounterRunsDisjoint` |
| Tracer.Accumulate | openvdb/tools/RayTracer.h:627-630 | the jitter loop's sum; specified by `AccumulateUniform` and `AccumulateBounds`, and computed by `LevelSetRayTracer.JitterSamples` |
| Tracer.PixelColour | openvdb/tools/RayTracer.h:621-631 | a pixel's new value; specified by `UniformPixel`, `SingleSample`, `AverageInRange` and `MissKeepsBackground`, and computed by `LevelSetRayTracer.SamplePixel` |
| Tracer.JitterIndex | openvdb/tools/RayTracer.h:628 | the jitter index is below 16 |
| Tracer.JitterIndexIsMask | openvdb/tools/RayTracer.h:628 | the jitter index is the source's `n & 15` |
| Tracer.JitterTable.constructor | openvdb/tools/RayTracer.h:599-602 | a fresh 16-entry table whose k-th entry is the generator's k-th draw for the seed |
| Tracer.LevelSetRayTracer.constructor | openvdb/tools/RayTracer.h:524-538 | a master tracer with the given intersector, shader and camera, `pixelSamples - 1` extra samples, and a table exactly when there are extra samples |
| Tracer.LevelSetRayTracer.Clone | openvdb/tools/RayTracer.h:540-550 | a copy is not the master and shares the master's table, intersector, camera, shader and sample count |
| Tracer.LevelSetRayTracer.Destroy | openvdb/tools/RayTracer.h:552-557 | only the master frees the table; a copy leaves it as it was |
| Tracer.LevelSetRayTracer.SetPixelSamples | openvdb/tools/RayTracer.h:591-606 | requires pixelSamples > 0 and sets `pixelSamples - 1` extra samples. It frees the old table and allocates a fresh 16-draw table exactly when there are extra samples. Nothing else changes |
| Tracer.LevelSetRayTracer.SetIntersector | openvdb/tools/RayTracer.h:567-573 | master only: replaces the intersector, and nothing else changes |
| Tracer.LevelSetRayTracer.SetShader | openvdb/tools/RayTracer.h:575-581 | master only: replaces the shader, and nothing else changes |
| Tracer.LevelSetRayTracer.SetCamera | openvdb/tools/RayTracer.h:583-589 | master only: replaces the camera, and nothing else changes |
| Tracer.LevelSetRayTracer.SamplePixel | openvdb/tools/RayTracer.h:621-631 | the value one pixel gets is `PixelColour`: the primary sample plus the jittered samples, times 1/(1+sub). The counter advances by 2*sub |
| Tracer.LevelSetRayTracer.JitterSamples | openvdb/tools/RayTracer.h:627-630 | the jitter loop computes `Accumulate` and advances the counter by 2 per sample |
| Tracer.LevelSetRayTracer.JitteredRay | openvdb/tools/RayTracer.h:628 | the jittered ray is offset by the table entries at `n & 15` and `(n+1) & 15` |
| Tracer.LevelSetRayTracer.ShadeRay | openvdb/tools/RayTracer.h:626 | a hit is shaded, and a miss gives the pixel's previous value |
| Tracer.LevelSetRayTracer.RenderRows | openvdb/tools/RayTracer.h:616-634 | every pixel of rows [begin, end) becomes `PixelColour` of its previous value, with the counter starting at 0 for the range; every other row is untouched |
| Tracer.LevelSetRayTracer.RenderRow | openvdb/tools/RayTracer.h:623-632 | one row gets its pixel colours, the counter moves to the next row's first pixel, and no other row changes |
| Tracer.LevelSetRayTracer.Trace | openvdb/tools/RayTracer.h:608-614 | the unthreaded `trace` renders every pixel of the film as one range |
| Tracer.CounterStep | openvdb/tools/RayTracer.h:622-627 | each pixel advances the range's counter by 2*sub |
| Tracer.CounterRow | openvdb/tools/RayTracer.h:622-623 | the counter is not reset between rows of one range |
| Tracer.CounterRunsDisjoint | openvdb/tools/RayTracer.h:622-630 | the counter runs of two pixels of a range do not overlap |
| Tracer.AccumulateUniform | openvdb/tools/RayTracer.h:627-630 | when every ray yields the same colour s, the jitter loop adds s once per sample |
| Tracer.RepeatValue | openvdb/tools/RayTracer.h:154 | k uses of `+= s` add k*s to every channel, alpha included |
| Tracer.UniformPixel | openvdb/tools/RayTracer.h:621-631 | when every ray yields s, the pixel becomes s made opaque, for any number of samples and any jitter table |
| Tracer.AverageOfRepeat | openvdb/tools/RayTracer.h:621-631 | 1+k copies of s scaled by 1/(1+k) give s back, made opaque |
| Tracer.MissKeepsBackground | openvdb/tools/RayTracer.h:624-631 | when every ray misses, the pixel keeps its previous colour, made opaque |
| Tracer.MatteCoversPixel | openvdb/tools/RayTracer.h:624-631 | when every ray hits, the matte shader's colour fills the pixel, made opaque |
| Tracer.SingleSample | openvdb/tools/RayTracer.h:621-631 | without extra samples the pixel is its primary sample made opaque, and the jitter table is not read |
| Tracer.AverageInRange | openvdb/tools/RayTracer.h:621-631 | when every sample is in [0,1], so is the average: the divisor 1+sub matches the number of samples |
| Tracer.AccumulateBounds | openvdb/tools/RayTracer.h:627-630 | k samples in [0,1] raise each colour channel by between 0 and k |
| RenderOptions.Validate | openvdb/cmd/openvdb_render/main.cc:98-115 | `validate()` as written; specified by `ValidateIsFirstFailure` and `ValidateAcceptsExactly` |
| RenderOptions.FirstFailureEmpty | openvdb/cmd/openvdb_render/main.cc:98-115 | with non-empty messages, the first failure is "" exactly when every check passes |
| RenderOptions.ValidateIsFirstFailure | openvdb/cmd/openvdb_render/main.cc:98-115 | `validate` returns the message of the first failing check among shader, camera, compression and size, in that order |
| RenderOptions.ValidateAcceptsExactly | openvdb/cmd/openvdb_render/main.cc:98-115 | `validate` returns "" exactly when all four checks pass |
| RenderOptions.DefaultsValid | openvdb/cmd/openvdb_render/main.cc:80-115 | the default options pass `validate` |
| RenderOptions.ValidateAcceptsZeroSamples | openvdb/cmd/openvdb_render/main.cc:98-115 | `validate` accepts options with 0 samples |
| RenderOptions.ValidateAcceptsZeroNear | openvdb/cmd/openvdb_render/main.cc:98-115 | `validate` accepts a near plane at 0 |
| RenderOptions.ValidateForRenderAcceptsExactly | openvdb/cmd/openvdb_render/main.cc:98-115 | the corrected validation accepts exactly what `validate` accepts that also has at least 1 sample and 0 < near < far |
| RenderOptions.ValidateForRenderRejectsZeroSamples | openvdb/cmd/openvdb_render/main.cc:98-115 | the corrected validation rejects 0 samples and a near plane at 0 |
| RenderOptions.DefaultsReadyToRender | openvdb/cmd/openvdb_render/main.cc:80-96 | the defaults also pass the corrected validation |
| RenderOptions.ValidateForRenderIgnoresFocal | openvdb/cmd/openvdb_render/main.cc:98-115 | neither `validate` nor the corrected validation depends on the focal length |
| RenderOptions.ValidateResized | openvdb/cmd/openvdb_render/main.cc:109-113 | options that pass `validate` still pass it at any size of at least 1x1 |
| RenderOptions.ValidateForRenderResized | openvdb/cmd/openvdb_render/main.cc:109-113 | options that pass the corrected validation still pass it at any size of at least 1x1 |
| RenderOptions.SizeOf | openvdb/cmd/openvdb_render/main.cc:307-315 | the pair `strToSize` returns; specified by `SizeRoundTrip`, `SizePair`, `WidthOnly` and `NegativeSizeClamped`, and computed by `StrToSize` |
| RenderOptions.StrToSize | openvdb/cmd/openvdb_render/main.cc:307-315 | `strToSize` computes `SizeOf`: part 0 replaces x and part 1 replaces y, each clamped at 0; missing parts leave a value alone |
| RenderOptions.SizeRoundTrip | openvdb/cmd/openvdb_render/main.cc:307-315 | "WxH" or "W,H", followed by nothing or by a separator and anything, reads back as (W, H): extra parts are ignored |
| RenderOptions.SizePair | openvdb/cmd/openvdb_render/main.cc:307-315 | "WxH" and "W,H" read back as (W, H) |
| RenderOptions.WidthOnly | openvdb/cmd/openvdb_render/main.cc:312-314 | a size without a separator sets the width and leaves the height alone |
| RenderOptions.NegativeSizeClamped | openvdb/cmd/openvdb_render/main.cc:313 | a negative width is clamped to 0 |
| RenderOutput.CameraKindOf | openvdb/cmd/openvdb_render/main.cc:257-267 | a camera is built exactly when the name starts with "persp" or "ortho"; it is perspective exactly when the name starts with "persp", and orthographic exactly when it starts with "ortho" but not "persp" |
| RenderOutput.ShaderOf | openvdb/cmd/openvdb_render/main.cc:269-279 | a shader is built exactly for "diffuse", "matte" and "normal", and it is the shader of that name |
| RenderOutput.OutputOf | openvdb/cmd/openvdb_render/main.cc:293-303 | an image is written exactly when the name ends in ".ppm" or ".exr", ignoring case |
| Text.IEndsWith | openvdb/cmd/openvdb_render/main.cc:195 | `boost::iends_with`; specified by `RenderOutput.PpmNameRestored`, `RenderOutput.PpmBeforeExr` and `RenderOutput.ExrNameProperties` |
| RenderOutput.ExrFileName | openvdb/cmd/openvdb_render/main.cc:194-195 | the name `saveEXR` writes; specified by `ExrNameProperties` |
| RenderOutput.ExrThreadCount | openvdb/cmd/openvdb_render/main.cc:203 | OpenEXR gets at least one thread: 8 for `-cpus 0`, otherwise the count asked for |
| RenderOutput.ExrCompression | openvdb/cmd/openvdb_render/main.cc:207-216 | a compression is chosen exactly for "none", "rle" and "zip" |
| RenderOutput.RenderPlan | openvdb/cmd/openvdb_render/main.cc:255-303 | rendering proceeds exactly when camera, shader and suffix are all accepted, and it is threaded exactly when threads != 1 |
| RenderOutput.ValidatedRenderFailsOnlyOnSuffix | openvdb/cmd/openvdb_render/main.cc:255-303 | after `validate`, the camera, shader and compression errors cannot be reached; only a bad suffix fails |
| RenderOutput.PlanHasSamples | openvdb/cmd/openvdb_render/main.cc:286 | with the corrected validation, the tracer gets at least 1 sample per pixel |
| RenderOutput.PpmNameRestored | openvdb/cmd/openvdb_render/main.cc:293-297 | stripping ".ppm" and re-appending it gives the requested name up to the case of its suffix, and exactly that name when the suffix is lower case |
| RenderOutput.ExrNameProperties | openvdb/cmd/openvdb_render/main.cc:194-195 | `saveEXR` always writes a name ending in ".exr", leaves a name from `render` unchanged, and is idempotent |
| RenderOutput.PpmBeforeExr | openvdb/cmd/openvdb_render/main.cc:293-300 | a ".ppm" name is never taken for EXR |
| RenderOutput.Render | openvdb/cmd/openvdb_render/main.cc:246-303 | builds a fresh film of the requested size and traces it with a perspective camera exactly when the name starts with "persp", the named shader, the given near and far planes and `samples - 1` extra samples. Every pixel becomes `PixelColour` over a black background, so where no ray hits the film stays black. The output is chosen by suffix |
| CommandLine.Check | openvdb/cmd/openvdb_render/main.cc:338-349 | a match means `argv[idx] == name`, and the match goes on only when `idx + numArgs < argc` |
| CommandLine.Step | openvdb/cmd/openvdb_render/main.cc:378-443 | each turn of the loop moves forward and stays within argv |
| CommandLine.Scan | openvdb/cmd/openvdb_render/main.cc:378-443 | a loop that is not cut short consumes all of argv |
| CommandLine.Apply | openvdb/cmd/openvdb_render/main.cc:381-427 | the effect of one option; specified by `CpusClamped`, `ResolutionApplied` and `ZeroSamplesApplied`, and computed by `ReadOption` |
| CommandLine.Finish | openvdb/cmd/openvdb_render/main.cc:444-461 | the checks after the loop; specified by `ParsedIsValidated`, `FovSetsFocal`, `FocalThenFovRejected` and `FovThenFocalRejected` |
| CommandLine.Parse | openvdb/cmd/openvdb_render/main.cc:369-461 | the command line as `main` reads it; specified by the lemmas below and computed by `ParseCommandLine` |
| CommandLine.ParseForRender | openvdb/cmd/openvdb_render/main.cc:444-461 | `Parse` with the corrected validation; specified by `ParsedIsReadyToRender`, `ParseForRenderNarrows`, `ZeroSamplesRejected` and `ZeroNearRejected` |
| CommandLine.ParseCommandLine | openvdb/cmd/openvdb_render/main.cc:369-461 | the loop of `main` and the checks after it, `validate()` as written included, compute `Parse` |
| CommandLine.ReadOption | openvdb/cmd/openvdb_render/main.cc:381-427 | the branch for an option with its argument computes `Apply` |
| CommandLine.ParsedIsValidated | openvdb/cmd/openvdb_render/main.cc:444-461 | a command line that `main` accepts has both file names, and its options pass `validate`: known shader, camera and compression, and a size of at least 1x1 |
| CommandLine.ParsedIsReadyToRender | openvdb/cmd/openvdb_render/main.cc:444-461 | with the corrected validation, a command line that parses is what `main` would read, and it has both file names and valid options with at least 1 sample and 0 < near < far |
| CommandLine.ParseForRenderNarrows | openvdb/cmd/openvdb_render/main.cc:444-461 | the corrected command line differs from `main`'s only by refusing options with 0 samples or planes not ordered 0 < near < far |
| CommandLine.FileNameStep | openvdb/cmd/openvdb_render/main.cc:436-442 | a non-option fills the vdb name first, then the image name; a third is a usage error |
| CommandLine.OptionStep | openvdb/cmd/openvdb_render/main.cc:381-427 | an option followed by its argument applies the argument and skips it |
| CommandLine.TwoFileNames | openvdb/cmd/openvdb_render/main.cc:369-461 | two file names alone give the default options, with and without the corrected validation |
| CommandLine.ThirdFileNameRejected | openvdb/cmd/openvdb_render/main.cc:440-442 | a third file name exits with failure |
| CommandLine.EmptyArgumentIgnored | openvdb/cmd/openvdb_render/main.cc:436-437 | an empty argument before the names has no effect |
| CommandLine.HelpExitsSuccessfully | openvdb/cmd/openvdb_render/main.cc:430-431 | "-h", "-help" and "--help" exit with success |
| CommandLine.VerboseFlag | openvdb/cmd/openvdb_render/main.cc:428-429 | "-v" only sets verbose and consumes no argument |
| CommandLine.MissingOptionArgument | openvdb/cmd/openvdb_render/main.cc:341-345 | an option that needs an argument but comes last exits with failure |
| CommandLine.UnknownOptionRejected | openvdb/cmd/openvdb_render/main.cc:432-435 | an unknown option exits with failure |
| CommandLine.FovSetsFocal | openvdb/cmd/openvdb_render/main.cc:447-454 | `-fov` alone replaces the focal length with the one converted from the field of view and the aperture |
| CommandLine.FocalThenFovRejected | openvdb/cmd/openvdb_render/main.cc:447-451 | `-focal` followed by `-fov` exits with failure |
| CommandLine.FovThenFocalRejected | openvdb/cmd/openvdb_render/main.cc:447-451 | `-fov` followed by `-focal` exits with failure |
| CommandLine.ResolutionApplied | openvdb/cmd/openvdb_render/main.cc:416-418 | `-res` stores the pair `strToSize` reads |
| CommandLine.ResolutionOption | openvdb/cmd/openvdb_render/main.cc:416-418 | `-res WxH` with a positive size parses to exactly that size |
| CommandLine.CpusClamped | openvdb/cmd/openvdb_render/main.cc:390-392 | `-cpus N` stores N, and `-cpus -N` stores 0 |
| CommandLine.ZeroSamplesScanned | openvdb/cmd/openvdb_render/main.cc:422-424 | `-samples 0` passes through the loop and stores 0 samples |
| CommandLine.ZeroSamplesParsed | openvdb/cmd/openvdb_render/main.cc:422-461 | `main` as written accepts `-samples 0` and yields the default options with 0 samples |
| CommandLine.ZeroSamplesRejected | openvdb/cmd/openvdb_render/main.cc:422-461 | with the corrected validation, `-samples 0` exits with failure |
| CommandLine.ZeroNearParsed | openvdb/cmd/openvdb_render/main.cc:410-461 | `main` as written accepts a near plane read as 0 and yields the default options with near = 0 |
| CommandLine.ZeroNearRejected | openvdb/cmd/openvdb_render/main.cc:410-461 | with the corrected validation, a near plane read as 0 exits with failure |

## Left out

- Threading: `tbb::parallel_for` in `trace(true)` and the scheduler set-up in `main` are not modelled. Only the sequential range body and `trace(false)` are. Because the jitter counter restarts at 0 for each range, a threaded image can differ from an unthreaded one.
- Cameras.Camera.Persp: the perspective `getRay` (normalisation and time scaling) and `focalLengthToFieldOfView`/`fieldOfViewToFocalLength` use trigonometry and floating point. They are a function parameter of the camera and of the command line. The constructor also requires `focalLength != 0` and a film width of at least 1. The source divides by both without a check (openvdb/tools/RayTracer.h:273 and :330), and a float division by zero gives an infinite or NaN frame that the model does not represent.
- Cameras.Camera.Ortho: requires a film width of at least 1, which the source divides by without a check (openvdb/tools/RayTracer.h:273), for the same reason.
- The camera constructors' default arguments (focal length 50, aperture 41.2136, orthographic frame width 1, planes 1e-3 and `DBL_MAX`, no rotation or translation) are not given. Every call in the renderer passes all of them.
- Building the screen-to-world map from a rotation in degrees and a translation uses library trigonometry. The camera is given the resulting affine map.
- Floating point: colours, offsets and option values are reals. Narrowing `atof`'s double to a float field, and rounding in general, are not modelled.
- RenderOptions.Defaults: the default far plane is `std::numeric_limits<double>::max()` stored in the float field `zfar`. That value is out of float range and becomes +infinity on IEEE hardware. The model keeps it as the finite real `DoubleMax`, which is larger than any near plane a user can give.
- Films.Film.SavePPM: requires channels in [0,1]. The source's float-to-byte cast is undefined outside that range.
- The level-set intersector (`intersectsWS`) and `math::Rand01` come from headers that are not part of this model. They are parameters: a function from a ray to an optional hit, and a function from a seed and an index to a draw.
- `setGrid` builds an intersector from a grid, and grids are not part of this model. `setIntersector` covers replacing the intersector.
- The `rayTrace` convenience functions only construct a tracer and call `trace`; `RenderOutput.Render` does this directly.
- Tracer.LevelSetRayTracer.RenderRows: the jitter counter is an unbounded natural number, not a wrapping `size_t`. `Bits.Mask15Wrap` shows that the wrap would not change which table entries are read.
- I/O: reading the .vdb file, the level-set class check, the OpenEXR header, frame buffer and write in `saveEXR`, the file stream in `savePPM`, `usage()`'s text, logging, timing and verbose output. `savePPM`'s stream opening is a boolean parameter.
- `strToVec3R` relies on `atof` and writes `result[i]` with no bound on the number of parts. Like `atof` and `fieldOfViewToFocalLength`, it is a parameter of the command-line model.
- `~Film` frees the pixel array with `delete` instead of `delete[]`, and `savePPM` leaks its buffer when the file cannot be opened. Memory release is not modelled.
- `atoi` overflow is undefined behaviour in C and is not modelled. Neither is `int` overflow of `-cpus` or `size_t` overflow of `width*height`.
- RenderOutput.Render: requires a non-zero focal length for a perspective camera, which the source divides by unchecked. It also requires the corrected validation (`CommandLine.ParseForRender`), because `validate` as written admits 0 samples and a near plane at 0 (see Findings).
- The Houdini node `openvdb_houdini/houdini/SOP_OpenVDB_Analysis.cc` is not part of this model. It is host glue.
- The RGBA operators `+=` and `over` update their receiver in place. They are functions giving the new value, since `RGBA` is a value type with no aliasing.

## Findings

| source | as written | input that shows it | evidently intended | confidence | as-written member | corrected member |
|---|---|---|---|---|---|---|
| openvdb/cmd/openvdb_render/main.cc:98-115 | `validate` never checks `samples`, and `-samples` clamps negative counts to 0 | `openvdb_render in.vdb out.exr -samples 0` passes validation and reaches `assert(pixelSamples>0)` in `setPixelSamples` (openvdb/tools/RayTracer.h:596). In a release build, `pixelSamples - 1` wraps to the largest `size_t` | reject fewer than 1 sample with a usage error | not executed | CommandLine.ZeroSamplesParsed | CommandLine.ZeroSamplesRejected |
| openvdb/cmd/openvdb_render/main.cc:98-115 | `validate` never checks the clipping planes | `openvdb_render in.vdb out.exr -near 0` passes validation and reaches `assert(nearPlane > 0 && farPlane > nearPlane)` in the camera constructor (openvdb/tools/RayTracer.h:276) | reject planes unless 0 < near < far | not executed | CommandLine.ZeroNearParsed | CommandLine.ZeroNearRejected |
