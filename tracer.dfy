/** The reference level-set ray tracer (openvdb/tools/RayTracer.h, LevelSetRayTracer):
    its state (intersector, shader, camera, number of extra samples per pixel, and a
    16-entry table of jitter offsets shared between a master tracer and its copies)
    and the body that renders a range of rows. The intersector and the random number
    generator come from code that is not part of this model and are parameters: the
    intersector is any function from a ray to an optional hit, and the generator any
    function giving the k-th draw for a seed. */
module Tracer {
  import opened Colour
  import opened Geometry
  import opened Bits
  import opened Films
  import opened Shaders
  import opened Cameras
  import opened Wrappers

  /** A surface hit: world position and world normal, the two out-parameters of
      `intersectsWS(ray, xyz, nml)`. */
  datatype Hit = Hit(xyz: Vec3, nml: Vec3)

  /** `intersectsWS`: the first hit of a ray, if any. */
  type Intersector = Ray -> Option<Hit>

  /** The colour one ray contributes: the shaded hit, or `bg` when the ray misses. */
  function Sample(inter: Intersector, shader: Shader, ray: Ray, bg: RGBA): RGBA
  {
    match inter(ray)
    case Some(h) => Shade(shader, h.xyz, h.nml, ray)
    case None => bg
  }

  /** The jitter counter of pixel (i, j) when the rows from `begin` are rendered in
      one range: every pixel before it in raster order has used `2*sub` entries. */
  function Counter(sub: nat, width: nat, begin: nat, i: nat, j: nat): nat
    requires begin <= j
  {
    2 * sub * Index(i, j - begin, width)
  }

  /** The table entry the counter `n` selects, `n & 15`, stated as `n % 16` (see
      `JitterIndexIsMask`). */
  function JitterIndex(n: nat): (r: nat)
    ensures r < 16
  {
    n % 16
  }

  /** The jitter index is the source's mask `n & 15`. */
  lemma JitterIndexIsMask(n: nat)
    ensures JitterIndex(n) == BitAnd(n, 15)
  {
    Mask15(n);
  }

  /** Adds `k` jittered samples of pixel (i, j) to `c` with `+=`, the first one reading
      the table at `n & 15` and `(n+1) & 15`, each next one two entries further on.
      The table is only read when there is a sample to take. */
  function Accumulate(inter: Intersector, shader: Shader, cam: Camera, table: seq<real>,
                      i: nat, j: nat, bg: RGBA, c: RGBA, n: nat, k: nat): RGBA
    requires cam.Valid() && cam.film.height > 0
    requires k == 0 || |table| == 16
    decreases k
  {
    if k == 0 then c
    else
      var ray := cam.GetRay(i, j, table[JitterIndex(n)], table[JitterIndex(n + 1)]);
      Accumulate(inter, shader, cam, table, i, j, bg,
                 AddAssign(c, Sample(inter, shader, ray, bg)), n + 2, k - 1)
  }

  /** The value the range body gives pixel (i, j) whose previous value is `bg`: the
      primary sample through the pixel centre plus `sub` jittered samples, scaled by
      `1/(1+sub)`. */
  function PixelColour(inter: Intersector, shader: Shader, cam: Camera, table: seq<real>,
                       sub: nat, i: nat, j: nat, bg: RGBA, n: nat): RGBA
    requires cam.Valid() && cam.film.height > 0
    requires sub == 0 || |table| == 16
  {
    var primary := Sample(inter, shader, cam.GetRay(i, j, 0.5, 0.5), bg);
    Scale(Accumulate(inter, shader, cam, table, i, j, bg, primary, n, sub), 1.0 / (1.0 + sub as real))
  }

  /** The table of 16 offsets allocated by `setPixelSamples`. `freed` records that
      `delete [] mRand` has run on it. */
  class JitterTable {
    const values: array<real>
    var freed: bool

    /** Draws the 16 offsets from a generator seeded with `seed`. */
    constructor (seed: nat, rand01: (nat, nat) -> real)
      ensures fresh(values) && values.Length == 16 && !freed
      ensures forall k :: 0 <= k < 16 ==> values[k] == rand01(seed, k)
    {
      var v := new real[16];
      for k := 0 to 16
        invariant forall m :: 0 <= m < k ==> v[m] == rand01(seed, m)
      {
        v[k] := rand01(seed, k);
      }
      values := v;
      freed := false;
    }
  }

  class LevelSetRayTracer {
    const isMaster: bool
    var rand: JitterTable?
    var inter: Intersector
    var shader: Shader
    var camera: Camera
    var subPixels: nat

    /** A tracer is usable while its camera is valid, it holds a live 16-entry table
        exactly when it takes extra samples, and that table has not been deleted. */
    ghost predicate Valid()
      reads this, rand
    {
      && camera.Valid()
      && (rand == null <==> subPixels == 0)
      && (rand != null ==> rand.values.Length == 16 && !rand.freed)
    }

    /** The jitter offsets, or none when no table is held. */
    function Table(): (t: seq<real>)
      reads this, rand, if rand == null then {} else {rand.values}
      ensures rand == null ==> t == []
      ensures rand != null ==> |t| == rand.values.Length
    {
      if rand == null then [] else rand.values[..]
    }

    /** `LevelSetRayTracer(inter, shader, camera, pixelSamples, seed)`: a master tracer
        with a copy of the shader, then `setPixelSamples(pixelSamples, seed)`. As in
        the source, one sample and seed 0 are the defaults; the generator, which has
        no default, comes before them. */
    constructor (inter: Intersector, shader: Shader, camera: Camera, rand01: (nat, nat) -> real,
                 pixelSamples: nat := 1, seed: nat := 0)
      requires camera.Valid() && pixelSamples > 0
      ensures Valid() && isMaster
      ensures this.inter == inter && this.shader == shader && this.camera == camera
      ensures subPixels == pixelSamples - 1
      ensures rand != null ==> fresh(rand) && fresh(rand.values)
      ensures rand != null ==> forall k :: 0 <= k < 16 ==> rand.values[k] == rand01(seed, k)
    {
      isMaster := true;
      this.inter, this.shader, this.camera := inter, shader, camera;
      rand := null;
      subPixels := 0;
      new;
      SetPixelSamples(pixelSamples, rand01, seed);
    }

    /** The copy constructor: a tracer that is not the master, sharing the master's
        intersector, camera and jitter table, with a copy of its shader. */
    constructor Clone(other: LevelSetRayTracer)
      ensures !isMaster && rand == other.rand && inter == other.inter
      ensures shader == other.shader && camera == other.camera && subPixels == other.subPixels
      ensures other.Valid() ==> Valid()
    {
      isMaster := false;
      rand := other.rand;
      inter := other.inter;
      shader := other.shader;
      camera := other.camera;
      subPixels := other.subPixels;
    }

    /** The destructor: only the master deletes the table, so copies never free it,
        and the copies of a master that has been destroyed are left with a deleted
        table. */
    method Destroy()
      modifies rand
      ensures isMaster && rand != null ==> rand.freed
      ensures !isMaster && rand != null ==> rand.freed == old(rand.freed)
    {
      if isMaster && rand != null {
        rand.freed := true;
      }
    }

    /** `setPixelSamples(pixelSamples, seed)`, master only: keeps `pixelSamples - 1`
        extra samples per pixel, deletes the previous table, and allocates a fresh
        table of 16 draws exactly when extra samples are taken. */
    method SetPixelSamples(pixelSamples: nat, rand01: (nat, nat) -> real, seed: nat := 0)
      requires isMaster && camera.Valid() && pixelSamples > 0
      requires rand != null ==> !rand.freed
      modifies this, rand
      ensures Valid()
      ensures subPixels == pixelSamples - 1
      ensures old(rand) != null ==> old(rand).freed
      ensures rand != null ==> fresh(rand) && fresh(rand.values)
      ensures rand != null ==> forall k :: 0 <= k < 16 ==> rand.values[k] == rand01(seed, k)
      ensures inter == old(inter) && shader == old(shader) && camera == old(camera)
    {
      subPixels := pixelSamples - 1;
      if rand != null {
        rand.freed := true;
      }
      if subPixels > 0 {
        rand := new JitterTable(seed, rand01);
      } else {
        rand := null;
      }
    }

    /** `setIntersector(inter)`, master only. */
    method SetIntersector(inter: Intersector)
      requires isMaster
      modifies this
      ensures this.inter == inter
      ensures rand == old(rand) && shader == old(shader) && camera == old(camera)
      ensures subPixels == old(subPixels)
    {
      this.inter := inter;
    }

    /** `setShader(shader)`, master only: keeps a copy of the shader. */
    method SetShader(shader: Shader)
      requires isMaster
      modifies this
      ensures this.shader == shader
      ensures rand == old(rand) && inter == old(inter) && camera == old(camera)
      ensures subPixels == old(subPixels)
    {
      this.shader := shader;
    }

    /** `setCamera(camera)`, master only. */
    method SetCamera(camera: Camera)
      requires isMaster
      modifies this
      ensures this.camera == camera
      ensures rand == old(rand) && inter == old(inter) && shader == old(shader)
      ensures subPixels == old(subPixels)
    {
      this.camera := camera;
    }

    /** The body of the range loop for one pixel whose current value is `bg`, with the
        jitter counter at `n0`: the primary ray through the pixel centre, then one
        jittered ray per extra sample, summed with `+=` and scaled by
        `1/(1+subPixels)`. Returns that colour and the advanced counter. */
    method SamplePixel(i: nat, j: nat, bg: RGBA, n0: nat) returns (c: RGBA, n: nat)
      requires Valid() && j < camera.film.height
      ensures c == PixelColour(inter, shader, camera, Table(), subPixels, i, j, bg, n0)
      ensures n == n0 + 2 * subPixels
    {
      var frac := 1.0 / (1.0 + subPixels as real);
      var primary := ShadeRay(camera.GetRay(i, j, 0.5, 0.5), bg);
      c, n := JitterSamples(i, j, bg, primary, n0);
      c := Scale(c, frac);
    }

    /** The jittered part of a pixel: `subPixels` rays, each offset by the next two
        table entries from the counter `n0`, shaded and added to `c0` with `+=`. */
    method JitterSamples(i: nat, j: nat, bg: RGBA, c0: RGBA, n0: nat) returns (c: RGBA, n: nat)
      requires Valid() && j < camera.film.height
      ensures c == Accumulate(inter, shader, camera, Table(), i, j, bg, c0, n0, subPixels)
      ensures n == n0 + 2 * subPixels
    {
      ghost var table := Table();
      c, n := c0, n0;
      var k := 0;
      while k < subPixels
        invariant 0 <= k <= subPixels
        invariant n == n0 + 2 * k && table == Table()
        invariant Accumulate(inter, shader, camera, table, i, j, bg, c0, n0, subPixels)
               == Accumulate(inter, shader, camera, table, i, j, bg, c, n, subPixels - k)
      {
        var ray := JitteredRay(i, j, n);
        var s := ShadeRay(ray, bg);
        AccumulateOnce(inter, shader, camera, table, i, j, bg, c, n, subPixels - k, ray, s);
        c := AddAssign(c, s);
        k, n := k + 1, n + 2;
      }
    }

    /** The ray of one jittered sample: the offsets are the table entries at `n & 15`
        and `(n+1) & 15`. */
    method JitteredRay(i: nat, j: nat, n: nat) returns (ray: Ray)
      requires Valid() && j < camera.film.height && subPixels > 0
      ensures ray == camera.GetRay(i, j, Table()[JitterIndex(n)], Table()[JitterIndex(n + 1)])
    {
      var ix, iy := BitAnd(n, 15), BitAnd(n + 1, 15);
      JitterIndexIsMask(n);
      JitterIndexIsMask(n + 1);
      ray := camera.GetRay(i, j, rand.values[ix], rand.values[iy]);
    }

    /** Intersects one ray and shades the hit, or keeps `bg` on a miss. */
    method ShadeRay(ray: Ray, bg: RGBA) returns (c: RGBA)
      ensures c == Sample(inter, shader, ray, bg)
    {
      var hit := inter(ray);
      if hit.Some? {
        c := Shade(shader, hit.value.xyz, hit.value.nml, ray);
      } else {
        c := bg;
      }
    }

    /** `operator()(range)`: renders rows [begin, end) of the camera's film. Each pixel
        of those rows is written once, with the colour of its samples, a miss taking
        the pixel's previous value; every other pixel keeps its value. The jitter
        counter starts at 0 for the range. */
    method RenderRows(begin: nat, end: nat)
      requires Valid() && begin <= end <= camera.film.height
      requires camera.film.Valid()
      modifies camera.film.pixels
      ensures forall i, j :: 0 <= i < camera.film.width && begin <= j < end ==>
        camera.film.Pixel(i, j) == PixelColour(inter, shader, camera, Table(), subPixels, i, j,
          old(camera.film.Pixel(i, j)), Counter(subPixels, camera.film.width, begin, i, j))
      ensures forall i, j :: (0 <= i < camera.film.width && 0 <= j < camera.film.height &&
        !(begin <= j < end)) ==> camera.film.Pixel(i, j) == old(camera.film.Pixel(i, j))
    {
      var film := camera.film;
      var width := film.width;
      ghost var table := Table();
      var n := 0;
      var j := begin;
      while j < end
        invariant begin <= j <= end
        invariant n == Counter(subPixels, width, begin, 0, j)
        invariant forall ii, jj :: 0 <= ii < width && begin <= jj < j ==>
          film.Pixel(ii, jj) == PixelColour(inter, shader, camera, table, subPixels, ii, jj,
            old(film.Pixel(ii, jj)), Counter(subPixels, width, begin, ii, jj))
        invariant forall ii, jj :: 0 <= ii < width && 0 <= jj < film.height && !(begin <= jj < j) ==>
          film.Pixel(ii, jj) == old(film.Pixel(ii, jj))
      {
        n := RenderRow(begin, j, n);
        j := j + 1;
      }
    }

    /** One row `j` of a range starting at row `begin`, the counter at `n0` on entry:
        every pixel of the row gets the colour of its samples, and the counter moves
        on to the first pixel of the next row. No other row changes. */
    method RenderRow(begin: nat, j: nat, n0: nat) returns (n: nat)
      requires Valid() && camera.film.Valid() && begin <= j < camera.film.height
      requires n0 == Counter(subPixels, camera.film.width, begin, 0, j)
      modifies camera.film.pixels
      ensures n == Counter(subPixels, camera.film.width, begin, 0, j + 1)
      ensures forall i :: 0 <= i < camera.film.width ==>
        camera.film.Pixel(i, j) == PixelColour(inter, shader, camera, Table(), subPixels, i, j,
          old(camera.film.Pixel(i, j)), Counter(subPixels, camera.film.width, begin, i, j))
      ensures forall i, jj :: (0 <= i < camera.film.width && 0 <= jj < camera.film.height &&
        jj != j) ==> camera.film.Pixel(i, jj) == old(camera.film.Pixel(i, jj))
    {
      var film := camera.film;
      var width := film.width;
      ghost var table := Table();
      n := n0;
      var i := 0;
      while i < width
        invariant 0 <= i <= width
        invariant n == Counter(subPixels, width, begin, i, j)
        invariant forall ii :: 0 <= ii < i ==>
          film.Pixel(ii, j) == PixelColour(inter, shader, camera, table, subPixels, ii, j,
            old(film.Pixel(ii, j)), Counter(subPixels, width, begin, ii, j))
        invariant forall ii, jj :: (0 <= ii < width && 0 <= jj < film.height &&
          !(jj == j && ii < i)) ==> film.Pixel(ii, jj) == old(film.Pixel(ii, jj))
      {
        var c;
        c, n := SamplePixel(i, j, film.Pixel(i, j), n);
        film.SetPixel(i, j, c);
        CounterStep(subPixels, width, begin, i, j);
        i := i + 1;
      }
      CounterRow(subPixels, width, begin, j);
    }

    /** `trace(false)`: the whole film rendered as one range. */
    method Trace()
      requires Valid() && camera.film.Valid()
      modifies camera.film.pixels
      ensures forall i, j :: 0 <= i < camera.film.width && 0 <= j < camera.film.height ==>
        camera.film.Pixel(i, j) == PixelColour(inter, shader, camera, Table(), subPixels, i, j,
          old(camera.film.Pixel(i, j)), Counter(subPixels, camera.film.width, 0, i, j))
    {
      RenderRows(0, camera.film.height);
    }
  }

  /** One jittered sample taken off the front of an accumulation: `ray` is the
      sample's ray and `s` its colour. */
  lemma AccumulateOnce(inter: Intersector, shader: Shader, cam: Camera, table: seq<real>,
                       i: nat, j: nat, bg: RGBA, c: RGBA, n: nat, k: nat, ray: Ray, s: RGBA)
    requires cam.Valid() && cam.film.height > 0 && k > 0 && |table| == 16
    requires ray == cam.GetRay(i, j, table[JitterIndex(n)], table[JitterIndex(n + 1)])
    requires s == Sample(inter, shader, ray, bg)
    ensures Accumulate(inter, shader, cam, table, i, j, bg, c, n, k)
         == Accumulate(inter, shader, cam, table, i, j, bg, AddAssign(c, s), n + 2, k - 1)
  {
  }

  /** After a pixel the counter has moved on to the next pixel of the row. */
  lemma CounterStep(sub: nat, width: nat, begin: nat, i: nat, j: nat)
    requires begin <= j
    ensures Counter(sub, width, begin, i, j) + 2 * sub == Counter(sub, width, begin, i + 1, j)
  {
    var x := Index(i, j - begin, width);
    assert Index(i + 1, j - begin, width) == x + 1;
    assert 2 * sub * (x + 1) == 2 * sub * x + 2 * sub;
  }

  /** At the end of a row the counter is that of the first pixel of the next row. */
  lemma CounterRow(sub: nat, width: nat, begin: nat, j: nat)
    requires begin <= j
    ensures Counter(sub, width, begin, width, j) == Counter(sub, width, begin, 0, j + 1)
  {
    assert width + (j - begin) * width == (j + 1 - begin) * width;
  }

  /** Jittered samples of consecutive pixels read disjoint runs of the counter: a
      pixel earlier in raster order finishes its `2*sub` reads before the next one
      starts. */
  lemma CounterRunsDisjoint(sub: nat, width: nat, begin: nat, i1: nat, j1: nat, i2: nat, j2: nat)
    requires begin <= j1 && begin <= j2 && i1 < width
    requires j1 < j2 || (j1 == j2 && i1 < i2)
    ensures Counter(sub, width, begin, i1, j1) + 2 * sub <= Counter(sub, width, begin, i2, j2)
  {
    var x1, x2 := Index(i1, j1 - begin, width), Index(i2, j2 - begin, width);
    IndexOrder(i1, j1 - begin, i2, j2 - begin, width);
    MulMonotone(x1 + 1, x2, 2 * sub);
    assert (x1 + 1) * (2 * sub) == 2 * sub * x1 + 2 * sub;
    assert x2 * (2 * sub) == 2 * sub * x2;
  }

  /** Every ray of the pixel yields the colour `s`. */
  ghost predicate UniformSamples(inter: Intersector, shader: Shader, bg: RGBA, s: RGBA)
  {
    forall ray :: Sample(inter, shader, ray, bg) == s
  }

  /** `c += s`, `k` times over. */
  function Repeat(c: RGBA, s: RGBA, k: nat): RGBA
    decreases k
  {
    if k == 0 then c else Repeat(AddAssign(c, s), s, k - 1)
  }

  /** Adding `k` samples that all have the colour `s` is adding `s` `k` times. */
  lemma {:induction false} AccumulateUniform(inter: Intersector, shader: Shader, cam: Camera,
      table: seq<real>, i: nat, j: nat, bg: RGBA, s: RGBA, c: RGBA, n: nat, k: nat)
    requires cam.Valid() && cam.film.height > 0
    requires k == 0 || |table| == 16
    requires UniformSamples(inter, shader, bg, s)
    ensures Accumulate(inter, shader, cam, table, i, j, bg, c, n, k) == Repeat(c, s, k)
    decreases k
  {
    if k > 0 {
      var ray := cam.GetRay(i, j, table[JitterIndex(n)], table[JitterIndex(n + 1)]);
      assert Sample(inter, shader, ray, bg) == s;
      AccumulateUniform(inter, shader, cam, table, i, j, bg, s, AddAssign(c, s), n + 2, k - 1);
    }
  }

  /** Adding `s` `k` times adds `k` times each channel, alpha included. */
  lemma {:induction false} RepeatValue(c: RGBA, s: RGBA, k: nat)
    ensures Repeat(c, s, k).r == c.r + k as real * s.r
    ensures Repeat(c, s, k).g == c.g + k as real * s.g
    ensures Repeat(c, s, k).b == c.b + k as real * s.b
    ensures Repeat(c, s, k).a == c.a + k as real * s.a
    decreases k
  {
    if k > 0 {
      RepeatValue(AddAssign(c, s), s, k - 1);
      var r := Repeat(c, s, k);
      OneMore(c.r, s.r, k, r.r);
      OneMore(c.g, s.g, k, r.g);
      OneMore(c.b, s.b, k, r.b);
      OneMore(c.a, s.a, k, r.a);
    }
  }

  lemma OneMore(x: real, s: real, k: nat, y: real)
    requires k > 0 && y == (x + s) + (k - 1) as real * s
    ensures y == x + k as real * s
  {
    var m := (k - 1) as real;
    assert k as real * s == m * s + s;
  }

  /** When every ray of a pixel yields the same colour, averaging leaves that colour,
      made opaque, whatever the number of samples and the jitter offsets. */
  lemma UniformPixel(inter: Intersector, shader: Shader, cam: Camera, table: seq<real>,
      sub: nat, i: nat, j: nat, bg: RGBA, n: nat, s: RGBA)
    requires cam.Valid() && cam.film.height > 0
    requires sub == 0 || |table| == 16
    requires UniformSamples(inter, shader, bg, s)
    ensures PixelColour(inter, shader, cam, table, sub, i, j, bg, n) == RGBA(s.r, s.g, s.b, 1.0)
  {
    var primary := Sample(inter, shader, cam.GetRay(i, j, 0.5, 0.5), bg);
    assert primary == s;
    AccumulateUniform(inter, shader, cam, table, i, j, bg, s, primary, n, sub);
    AverageOfRepeat(s, sub);
  }

  /** `1 + k` copies of `s`, scaled by `1/(1+k)`, give back the colour of `s`. */
  lemma AverageOfRepeat(s: RGBA, k: nat)
    ensures Scale(Repeat(s, s, k), 1.0 / (1.0 + k as real)) == RGBA(s.r, s.g, s.b, 1.0)
  {
    RepeatValue(s, s, k);
    var acc := Repeat(s, s, k);
    var out := Scale(acc, 1.0 / (1.0 + k as real));
    Average(s.r, k, acc.r, out.r);
    Average(s.g, k, acc.g, out.g);
    Average(s.b, k, acc.b, out.b);
  }

  lemma Average(x: real, k: nat, sum: real, y: real)
    requires sum == x + k as real * x && y == sum * (1.0 / (1.0 + k as real))
    ensures y == x
  {
    var m := 1.0 + k as real;
    assert sum == m * x;
    assert y == m * x * (1.0 / m);
  }

  /** A pixel whose rays all miss keeps its previous colour, with alpha reset to 1:
      the background shows through where nothing is hit. */
  lemma MissKeepsBackground(inter: Intersector, shader: Shader, cam: Camera, table: seq<real>,
      sub: nat, i: nat, j: nat, bg: RGBA, n: nat)
    requires cam.Valid() && cam.film.height > 0
    requires sub == 0 || |table| == 16
    requires forall ray :: inter(ray) == None
    ensures PixelColour(inter, shader, cam, table, sub, i, j, bg, n) == RGBA(bg.r, bg.g, bg.b, 1.0)
  {
    UniformPixel(inter, shader, cam, table, sub, i, j, bg, n, bg);
  }

  /** A pixel whose rays all hit a surface under a matte shader takes the matte colour,
      opaque. */
  lemma MatteCoversPixel(inter: Intersector, m: RGBA, cam: Camera, table: seq<real>,
      sub: nat, i: nat, j: nat, bg: RGBA, n: nat)
    requires cam.Valid() && cam.film.height > 0
    requires sub == 0 || |table| == 16
    requires forall ray :: inter(ray).Some?
    ensures PixelColour(inter, Matte(m), cam, table, sub, i, j, bg, n) == RGBA(m.r, m.g, m.b, 1.0)
  {
    UniformPixel(inter, Matte(m), cam, table, sub, i, j, bg, n, m);
  }

  /** Without extra samples the pixel is its primary sample, made opaque, and the
      jitter table plays no part. */
  lemma SingleSample(inter: Intersector, shader: Shader, cam: Camera, table: seq<real>,
      i: nat, j: nat, bg: RGBA, n: nat)
    requires cam.Valid() && cam.film.height > 0
    ensures var p := Sample(inter, shader, cam.GetRay(i, j, 0.5, 0.5), bg);
      PixelColour(inter, shader, cam, table, 0, i, j, bg, n) == RGBA(p.r, p.g, p.b, 1.0)
  {
  }

  /** Every sample with colour channels in [0, 1] gives an average in [0, 1]: the
      division by `1+sub` matches the number of samples taken. */
  lemma AverageInRange(inter: Intersector, shader: Shader, cam: Camera, table: seq<real>,
      sub: nat, i: nat, j: nat, bg: RGBA, n: nat)
    requires cam.Valid() && cam.film.height > 0
    requires sub == 0 || |table| == 16
    requires forall ray :: InRange(Sample(inter, shader, ray, bg))
    ensures InRange(PixelColour(inter, shader, cam, table, sub, i, j, bg, n))
  {
    var primary := Sample(inter, shader, cam.GetRay(i, j, 0.5, 0.5), bg);
    assert InRange(primary);
    AccumulateBounds(inter, shader, cam, table, i, j, bg, primary, n, sub);
    ScaledSumInRange(Accumulate(inter, shader, cam, table, i, j, bg, primary, n, sub), sub);
  }

  /** A sum of `1 + k` channel values in [0, 1], scaled by `1/(1+k)`, is in range. */
  lemma ScaledSumInRange(acc: RGBA, k: nat)
    requires 0.0 <= acc.r <= 1.0 + k as real
    requires 0.0 <= acc.g <= 1.0 + k as real
    requires 0.0 <= acc.b <= 1.0 + k as real
    ensures InRange(Scale(acc, 1.0 / (1.0 + k as real)))
  {
    var m := 1.0 + k as real;
    var out := Scale(acc, 1.0 / m);
    Share(acc.r, m, out.r);
    Share(acc.g, m, out.g);
    Share(acc.b, m, out.b);
  }

  lemma Share(x: real, m: real, y: real)
    requires 0.0 <= x <= m && m > 0.0 && y == x * (1.0 / m)
    ensures InUnit(y)
  {
    assert y * m == x;
  }

  /** Adding `k` samples with channels in [0, 1] raises each colour channel by at most
      `k`. */
  lemma {:induction false} AccumulateBounds(inter: Intersector, shader: Shader, cam: Camera,
      table: seq<real>, i: nat, j: nat, bg: RGBA, c: RGBA, n: nat, k: nat)
    requires cam.Valid() && cam.film.height > 0
    requires k == 0 || |table| == 16
    requires forall ray :: InRange(Sample(inter, shader, ray, bg))
    ensures var acc := Accumulate(inter, shader, cam, table, i, j, bg, c, n, k);
      && c.r <= acc.r <= c.r + k as real
      && c.g <= acc.g <= c.g + k as real
      && c.b <= acc.b <= c.b + k as real
    decreases k
  {
    if k > 0 {
      var ray := cam.GetRay(i, j, table[JitterIndex(n)], table[JitterIndex(n + 1)]);
      assert InRange(Sample(inter, shader, ray, bg));
      AccumulateBounds(inter, shader, cam, table, i, j, bg,
                       AddAssign(c, Sample(inter, shader, ray, bg)), n + 2, k - 1);
    }
  }
}
