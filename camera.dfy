/** The cameras of openvdb/tools/RayTracer.h (BaseCamera, OrthographicCamera,
    PerspectiveCamera). A camera points at the film it exposes and turns a pixel, plus
    an offset inside that pixel, into a world-space ray. The screen-to-world map is
    taken as given: how the source assembles it from a rotation in degrees and a
    translation is not part of this model, and neither is the perspective projection
    (normalisation and time scaling), which is supplied as a function. */
module Cameras {
  import opened Geometry
  import opened Films

  /** The kind of projection. A perspective camera's ray for a pixel and offset is an
      opaque function here; an orthographic camera's is computed. */
  datatype Lens = Orthographic | Perspective(rayFor: (nat, nat, real, real) -> Ray)

  const Origin: Vec3 := Vec3(0.0, 0.0, 0.0)

  /** The camera looks down the negative z axis of screen space. */
  const Forward: Vec3 := Vec3(0.0, 0.0, -1.0)

  class Camera {
    const film: Film
    const scaleWidth: real
    const scaleHeight: real
    /** `mRay`: the ray every orthographic ray is copied from. */
    const ray: Ray
    const screenToWorld: AffineMap
    const lens: Lens

    /** What the BaseCamera constructor establishes: the film is at least one pixel
        wide (it divides by the width), the frame keeps the film's aspect ratio, the
        clipping planes satisfy the constructor's assertion, and the base ray starts
        at the mapped screen origin and looks along the mapped forward direction. */
    ghost predicate Valid()
    {
      && film.width > 0
      && scaleHeight == scaleWidth * (film.height as real) / (film.width as real)
      && 0.0 < ray.t0 < ray.t1
      && ray.eye == ApplyMap(screenToWorld, Origin)
      && ray.dir == ApplyJacobian(screenToWorld, Forward)
    }

    /** `OrthographicCamera(film, rotation, translation, frameWidth, nearPlane,
        farPlane)`: half the frame width spans each side of the screen centre. */
    constructor Ortho(film: Film, screenToWorld: AffineMap, frameWidth: real,
                      nearPlane: real, farPlane: real)
      requires film.width > 0
      requires 0.0 < nearPlane < farPlane
      ensures Valid() && this.film == film && this.screenToWorld == screenToWorld
      ensures lens == Orthographic && scaleWidth == 0.5 * frameWidth
      ensures ray.t0 == nearPlane && ray.t1 == farPlane
    {
      this.film := film;
      this.screenToWorld := screenToWorld;
      this.lens := Orthographic;
      var sw := 0.5 * frameWidth;
      this.scaleWidth := sw;
      this.scaleHeight := sw * (film.height as real) / (film.width as real);
      this.ray := Ray(ApplyMap(screenToWorld, Origin), ApplyJacobian(screenToWorld, Forward),
                      nearPlane, farPlane);
    }

    /** `PerspectiveCamera(film, rotation, translation, focalLength, aperture,
        nearPlane, farPlane)`: the frame half-width is `0.5*aperture/focalLength`. */
    constructor Persp(film: Film, screenToWorld: AffineMap, focalLength: real, aperture: real,
                      nearPlane: real, farPlane: real, rayFor: (nat, nat, real, real) -> Ray)
      requires film.width > 0 && focalLength != 0.0
      requires 0.0 < nearPlane < farPlane
      ensures Valid() && this.film == film && this.screenToWorld == screenToWorld
      ensures lens == Perspective(rayFor) && scaleWidth == 0.5 * aperture / focalLength
      ensures ray.t0 == nearPlane && ray.t1 == farPlane
    {
      this.film := film;
      this.screenToWorld := screenToWorld;
      this.lens := Perspective(rayFor);
      var sw := 0.5 * aperture / focalLength;
      this.scaleWidth := sw;
      this.scaleHeight := sw * (film.height as real) / (film.width as real);
      this.ray := Ray(ApplyMap(screenToWorld, Origin), ApplyJacobian(screenToWorld, Forward),
                      nearPlane, farPlane);
    }

    /** `rasterToScreen(i, j, z)`: raster x grows to the right and raster y grows
        downwards; screen x spans [-scaleWidth, scaleWidth] and screen y spans
        [-scaleHeight, scaleHeight], growing upwards. */
    function RasterToScreen(i: real, j: real, z: real): (p: Vec3)
      requires Valid() && film.height > 0
      ensures p.z == z
    {
      Vec3((2.0 * i / (film.width as real) - 1.0) * scaleWidth,
           (1.0 - 2.0 * j / (film.height as real)) * scaleHeight, z)
    }

    /** `getRay(i, j, iOffset, jOffset)`. An orthographic ray is the base ray moved to
        the mapped screen point of the pixel sample: its direction and its clipping
        interval never change. */
    function GetRay(i: nat, j: nat, iOffset: real, jOffset: real): (r: Ray)
      requires Valid() && film.height > 0
      ensures lens.Orthographic? ==> r.dir == ray.dir && r.t0 == ray.t0 && r.t1 == ray.t1
    {
      match lens
      case Orthographic =>
        ray.(eye := ApplyMap(screenToWorld, RasterToScreen(i as real + iOffset, j as real + jOffset, 0.0)))
      case Perspective(rayFor) => rayFor(i, j, iOffset, jOffset)
    }

    /** The four raster corners land on the corners of the screen frame, and the
        middle of the film on the screen centre. */
    lemma ScreenFrame(z: real)
      requires Valid() && film.height > 0
      ensures RasterToScreen(0.0, 0.0, z) == Vec3(-scaleWidth, scaleHeight, z)
      ensures RasterToScreen(film.width as real, film.height as real, z)
           == Vec3(scaleWidth, -scaleHeight, z)
      ensures RasterToScreen(film.width as real / 2.0, film.height as real / 2.0, z)
           == Vec3(0.0, 0.0, z)
    {
      var w, h := film.width as real, film.height as real;
      assert 2.0 * w / w == 2.0;
      assert 2.0 * h / h == 2.0;
      assert 2.0 * (w / 2.0) / w == 1.0;
      assert 2.0 * (h / 2.0) / h == 1.0;
    }

    /** Adjacent pixels are a constant step apart on screen: `2*scaleWidth/width` to
        the right and `2*scaleHeight/height` down. */
    lemma ScreenPitch(i: real, j: real, z: real)
      requires Valid() && film.height > 0
      ensures RasterToScreen(i + 1.0, j, z).x - RasterToScreen(i, j, z).x
           == 2.0 * scaleWidth / (film.width as real)
      ensures RasterToScreen(i, j + 1.0, z).y - RasterToScreen(i, j, z).y
           == -2.0 * scaleHeight / (film.height as real)
    {
      var w, h := film.width as real, film.height as real;
      assert 2.0 * (i + 1.0) / w - 1.0 == (2.0 * i / w - 1.0) + 2.0 / w;
      assert 1.0 - 2.0 * (j + 1.0) / h == (1.0 - 2.0 * j / h) - 2.0 / h;
      Distribute(2.0 * i / w - 1.0, 2.0 / w, scaleWidth);
      Distribute(1.0 - 2.0 * j / h, -2.0 / h, scaleHeight);
    }

    /** The ray through the film's centre starts at the camera position, the eye of
        the base ray. */
    lemma OrthographicCentreRay(i: nat, j: nat, iOffset: real, jOffset: real)
      requires Valid() && film.height > 0 && lens.Orthographic?
      requires i as real + iOffset == film.width as real / 2.0
      requires j as real + jOffset == film.height as real / 2.0
      ensures GetRay(i, j, iOffset, jOffset) == ray
    {
      ScreenFrame(0.0);
    }

    /** Orthographic rays are parallel, and two of them start apart by exactly the
        linear part of the screen-to-world map applied to the distance between their
        screen points: the translation plays no part. */
    lemma OrthographicRaysParallel(i1: nat, j1: nat, io1: real, jo1: real,
                                   i2: nat, j2: nat, io2: real, jo2: real)
      requires Valid() && film.height > 0 && lens.Orthographic?
      ensures GetRay(i1, j1, io1, jo1).dir == GetRay(i2, j2, io2, jo2).dir
      ensures GetRay(i1, j1, io1, jo1).t0 == GetRay(i2, j2, io2, jo2).t0
      ensures GetRay(i1, j1, io1, jo1).t1 == GetRay(i2, j2, io2, jo2).t1
      ensures Minus(GetRay(i1, j1, io1, jo1).eye, GetRay(i2, j2, io2, jo2).eye)
           == ApplyJacobian(screenToWorld,
                Minus(RasterToScreen(i1 as real + io1, j1 as real + jo1, 0.0),
                      RasterToScreen(i2 as real + io2, j2 as real + jo2, 0.0)))
    {
      ApplyMapDifference(screenToWorld,
        RasterToScreen(i1 as real + io1, j1 as real + jo1, 0.0),
        RasterToScreen(i2 as real + io2, j2 as real + jo2, 0.0));
    }
  }

  lemma Distribute(a: real, d: real, s: real)
    ensures (a + d) * s - a * s == d * s
  {
  }
}
