/** The three surface shaders (openvdb/tools/RayTracer.h, MatteShader, NormalShader,
    DiffuseShader). Each holds one colour fixed at construction and shades a hit from
    the surface normal and the incident ray alone; `copy()` is a copy of that value. */
module Shaders {
  import opened Colour
  import opened Geometry

  /** A shader and the colour it stores. NormalShader stores half of the colour it is
      constructed with. */
  datatype Shader = Matte(colour: RGBA) | Normal(half: RGBA) | Diffuse(colour: RGBA)

  /** The default shader colour `RGBA(1.0f)`: opaque white. */
  const White: RGBA := Grey(1.0)

  /** `NormalShader(c)`: stores `c * 0.5f`, which is opaque whatever the alpha of `c`. */
  function NewNormalShader(c: RGBA): Shader
  {
    Normal(Scale(c, 0.5))
  }

  /** `operator()(xyz, normal, ray)` of each shader; the hit position is never used. */
  function Shade(s: Shader, xyz: Vec3, normal: Vec3, ray: Ray): RGBA
  {
    match s
    case Matte(c) => c
    case Normal(half) => Mul(half, RGBA(normal.x + 1.0, normal.y + 1.0, normal.z + 1.0, 1.0))
    case Diffuse(c) => Scale(c, Abs(Dot(normal, ray.dir)))
  }

  /** The matte shader returns its colour, alpha included, whatever it is shown. */
  lemma MatteIgnoresInputs(c: RGBA, xyz: Vec3, normal: Vec3, ray: Ray, xyz': Vec3, normal': Vec3, ray': Ray)
    ensures Shade(Matte(c), xyz, normal, ray) == Shade(Matte(c), xyz', normal', ray') == c
  {
  }

  /** A unit-range normal component is mapped from [-1,1] onto [0,1] and tinted: the
      normal shader of a colour in range yields an opaque colour in range, each
      channel being colour * (component + 1) / 2. */
  lemma NormalShaderMapsNormal(c: RGBA, xyz: Vec3, normal: Vec3, ray: Ray)
    requires InRange(c)
    requires -1.0 <= normal.x <= 1.0 && -1.0 <= normal.y <= 1.0 && -1.0 <= normal.z <= 1.0
    ensures var out := Shade(NewNormalShader(c), xyz, normal, ray);
      && out.r == c.r * (normal.x + 1.0) / 2.0
      && out.g == c.g * (normal.y + 1.0) / 2.0
      && out.b == c.b * (normal.z + 1.0) / 2.0
      && InRange(out)
  {
    HalfTint(c.r, normal.x);
    HalfTint(c.g, normal.y);
    HalfTint(c.b, normal.z);
  }

  lemma HalfTint(c: real, n: real)
    requires InUnit(c) && -1.0 <= n <= 1.0
    ensures c * 0.5 * (n + 1.0) == c * (n + 1.0) / 2.0
    ensures InUnit(c * (n + 1.0) / 2.0)
  {
    var m := n + 1.0;
    Halved(c, m, c * m);
    MulWithinUnit(c, m / 2.0);
  }

  lemma Halved(c: real, m: real, p: real)
    requires p == c * m
    ensures c * 0.5 * m == p / 2.0 && p / 2.0 == c * (m / 2.0)
  {
  }

  /** Two-sided lighting: the diffuse shader gives the same colour for a ray and for
      the ray travelling the opposite way. */
  lemma DiffuseTwoSided(c: RGBA, xyz: Vec3, normal: Vec3, ray: Ray)
    ensures Shade(Diffuse(c), xyz, normal, ray)
         == Shade(Diffuse(c), xyz, normal, ray.(dir := Negate(ray.dir)))
  {
    DotNegate(normal, ray.dir);
  }

  /** Lambert's law: with unit vectors (|normal . dir| <= 1) the diffuse shade of a
      colour in range is that colour dimmed by the cosine, opaque and in range. */
  lemma DiffuseDims(c: RGBA, xyz: Vec3, normal: Vec3, ray: Ray)
    requires InRange(c) && Abs(Dot(normal, ray.dir)) <= 1.0
    ensures var out := Shade(Diffuse(c), xyz, normal, ray);
      && out.r <= c.r && out.g <= c.g && out.b <= c.b
      && InRange(out)
  {
    ScaleDims(c, Abs(Dot(normal, ray.dir)));
  }

  lemma ScaleDims(c: RGBA, k: real)
    requires InRange(c) && InUnit(k)
    ensures Scale(c, k).r <= c.r && Scale(c, k).g <= c.g && Scale(c, k).b <= c.b
    ensures InRange(Scale(c, k))
  {
    var out := Scale(c, k);
    Dimmed(c.r, k, out.r);
    Dimmed(c.g, k, out.g);
    Dimmed(c.b, k, out.b);
  }

  lemma Dimmed(x: real, k: real, y: real)
    requires InUnit(x) && InUnit(k) && y == x * k
    ensures y <= x && InUnit(y)
  {
    MulWithinUnit(k, x);
  }
}
