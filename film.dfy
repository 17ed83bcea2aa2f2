/** The film: a row-major framebuffer of RGBA pixels (openvdb/tools/RayTracer.h,
    class Film), its fill patterns and its binary PPM ("P6") output. */
module Films {
  import opened Colour
  import opened Bits
  import opened Text
  import opened Wrappers

  type Byte = x: int | 0 <= x < 256

  /** The slot of pixel (w, h) in a row-major buffer whose rows are `width` long. */
  function Index(w: nat, h: nat, width: nat): nat
  {
    w + h * width
  }

  /** Every valid pixel has a slot below `width*height`. */
  lemma IndexBound(w: nat, h: nat, width: nat, height: nat)
    requires w < width && h < height
    ensures Index(w, h, width) < width * height
  {
    assert h * width + width == (h + 1) * width;
    MulMonotone(h + 1, height, width);
    assert (h + 1) * width <= height * width;
  }

  lemma MulMonotone(a: nat, b: nat, c: nat)
    requires a <= b
    ensures a * c <= b * c
  {
    assert b * c - a * c == (b - a) * c;
  }

  /** Distinct valid pixels have distinct slots. */
  lemma IndexInjective(w1: nat, h1: nat, w2: nat, h2: nat, width: nat)
    requires w1 < width && w2 < width
    requires Index(w1, h1, width) == Index(w2, h2, width)
    ensures w1 == w2 && h1 == h2
  {
    if h1 < h2 {
      assert (h1 + 1) * width == h1 * width + width;
      MulMonotone(h1 + 1, h2, width);
    } else if h2 < h1 {
      assert (h2 + 1) * width == h2 * width + width;
      MulMonotone(h2 + 1, h1, width);
    }
  }

  /** Row-major order: a pixel earlier in raster order has an earlier slot. */
  lemma IndexOrder(w1: nat, h1: nat, w2: nat, h2: nat, width: nat)
    requires w1 < width
    requires h1 < h2 || (h1 == h2 && w1 < w2)
    ensures Index(w1, h1, width) < Index(w2, h2, width)
  {
    if h1 < h2 {
      assert (h1 + 1) * width == h1 * width + width;
      MulMonotone(h1 + 1, h2, width);
    }
  }

  /** The colour `checkerboard(c1, c2, size)` gives pixel (i, j). */
  function CheckerColour(i: nat, j: nat, c1: RGBA, c2: RGBA, size: nat): RGBA
  {
    if BitXor(BitAnd(i, size), BitAnd(j, size)) != 0 then c1 else c2
  }

  /** A pixel gets the first colour exactly when its column and row differ in the
      bits selected by `size`. */
  lemma CheckerMeaning(i: nat, j: nat, c1: RGBA, c2: RGBA, size: nat)
    requires c1 != c2
    ensures CheckerColour(i, j, c1, c2, size) == c1 <==> BitAnd(i, size) != BitAnd(j, size)
  {
    XorZeroIff(BitAnd(i, size), BitAnd(j, size));
  }

  /** `i & 32` selects bit 5: it is 32 on odd 32-pixel tiles and 0 on even ones. */
  lemma Bit32(i: nat)
    ensures BitAnd(i, 32) == if (i / 32) % 2 == 1 then 32 else 0
  {
    var i1, i2, i3, i4, i5 := i / 2, i / 4, i / 8, i / 16, i / 32;
    assert i2 == i1 / 2 && i3 == i2 / 2 && i4 == i3 / 2 && i5 == i4 / 2;
    assert BitAnd(i4, 2) == 2 * BitAnd(i5, 1);
    assert BitAnd(i3, 4) == 2 * BitAnd(i4, 2);
    assert BitAnd(i2, 8) == 2 * BitAnd(i3, 4);
    assert BitAnd(i1, 16) == 2 * BitAnd(i2, 8);
    assert BitAnd(i, 32) == 2 * BitAnd(i1, 16);
    Mask1(i5);
  }

  /** With the default tile size 32 the pattern is a true checkerboard of 32x32
      tiles: pixel (i, j) gets `c1` exactly when its tile column and tile row have
      different parity. In particular (0,0) and (31,31) share `c2` while (32,0)
      gets `c1`. */
  lemma Checker32(i: nat, j: nat, c1: RGBA, c2: RGBA)
    requires c1 != c2
    ensures CheckerColour(i, j, c1, c2, 32) == c1 <==> (i / 32 + j / 32) % 2 == 1
    ensures CheckerColour(0, 0, c1, c2, 32) == c2
    ensures CheckerColour(31, 31, c1, c2, 32) == c2
    ensures CheckerColour(32, 0, c1, c2, 32) == c1
  {
    CheckerMeaning(i, j, c1, c2, 32);
    Bit32(i);
    Bit32(j);
    CheckerMeaning(0, 0, c1, c2, 32);
    CheckerMeaning(31, 31, c1, c2, 32);
    CheckerMeaning(32, 0, c1, c2, 32);
    Bit32(0);
    Bit32(31);
    Bit32(32);
  }

  /** The colour channels are in [0,1], the only values whose cast to a byte the
      model defines. */
  predicate RgbInRange(c: RGBA)
  {
    InUnit(c.r) && InUnit(c.g) && InUnit(c.b)
  }

  /** `static_cast<unsigned char>(255.0f * v)`: truncation, which is the floor for the
      non-negative values allowed here. */
  function ToByte(v: real): (x: Byte)
    requires InUnit(v)
    ensures x as real <= 255.0 * v < x as real + 1.0
    ensures x == 255 <==> v == 1.0
  {
    (255.0 * v).Floor
  }

  /** The three bytes written for one pixel: red, green, blue; alpha is dropped. */
  function PixelBytes(c: RGBA): seq<Byte>
    requires RgbInRange(c)
  {
    [ToByte(c.r), ToByte(c.g), ToByte(c.b)]
  }

  predicate AllRgbInRange(ps: seq<RGBA>)
  {
    forall k :: 0 <= k < |ps| ==> RgbInRange(ps[k])
  }

  /** The PPM body: the pixels' bytes in buffer order. */
  function PpmBody(ps: seq<RGBA>): seq<Byte>
    requires AllRgbInRange(ps)
  {
    if ps == [] then [] else PpmBody(ps[..|ps| - 1]) + PixelBytes(ps[|ps| - 1])
  }

  /** The body holds three bytes per pixel; bytes 3k, 3k+1 and 3k+2 are the red, green
      and blue of pixel k. */
  lemma {:induction false} PpmBodyLayout(ps: seq<RGBA>)
    requires AllRgbInRange(ps)
    ensures |PpmBody(ps)| == 3 * |ps|
    ensures forall k :: 0 <= k < |ps| ==>
      PpmBody(ps)[3 * k] == ToByte(ps[k].r) &&
      PpmBody(ps)[3 * k + 1] == ToByte(ps[k].g) &&
      PpmBody(ps)[3 * k + 2] == ToByte(ps[k].b)
  {
    if ps != [] {
      var init := ps[..|ps| - 1];
      PpmBodyLayout(init);
      assert forall k :: 0 <= k < |init| ==> init[k] == ps[k];
    }
  }

  /** The PPM header: magic number, dimensions in decimal, maximum value. */
  function PpmHeader(width: nat, height: nat): string
  {
    "P6\n" + NatToString(width) + " " + NatToString(height) + "\n255\n"
  }

  /** What `savePPM` leaves on disk: the file's name, its header and its body. */
  datatype PpmFile = PpmFile(name: string, header: string, body: seq<Byte>)

  /** A 2x1 image of red then green is written as `P6\n2 1\n255\n` followed by the
      bytes 255 0 0 0 255 0. */
  lemma PpmTwoPixels()
    ensures PpmHeader(2, 1) == "P6\n2 1\n255\n"
    ensures PpmBody([RGBA(1.0, 0.0, 0.0, 1.0), RGBA(0.0, 1.0, 0.0, 1.0)]) == [255, 0, 0, 0, 255, 0]
  {
    var ps := [RGBA(1.0, 0.0, 0.0, 1.0), RGBA(0.0, 1.0, 0.0, 1.0)];
    assert ps[..1] == [ps[0]] && [ps[0]][..0] == [];
    assert NatToString(2) == "2" && NatToString(1) == "1";
  }

  class Film {
    const width: nat
    const height: nat
    const size: nat
    const pixels: array<RGBA>

    ghost predicate Valid()
    {
      size == width * height && pixels.Length == size
    }

    /** `Film(width, height)`: every pixel default-constructed, i.e. opaque black. */
    constructor (width: nat, height: nat)
      ensures Valid() && this.width == width && this.height == height && fresh(pixels)
      ensures forall k :: 0 <= k < size ==> pixels[k] == Black
    {
      this.width, this.height, this.size := width, height, width * height;
      pixels := new RGBA[width * height](_ => Black);
    }

    /** `Film(width, height, bg)`: every pixel set to the background. */
    constructor WithBackground(width: nat, height: nat, bg: RGBA)
      ensures Valid() && this.width == width && this.height == height && fresh(pixels)
      ensures forall k :: 0 <= k < size ==> pixels[k] == bg
    {
      this.width, this.height, this.size := width, height, width * height;
      pixels := new RGBA[width * height];
      new;
      Fill(bg);
    }

    /** `pixel(w, h)`: bounds-asserted access to the pixel in column w, row h. */
    function Pixel(w: nat, h: nat): RGBA
      requires Valid() && w < width && h < height
      reads pixels
    {
      IndexBound(w, h, width, height);
      pixels[Index(w, h, width)]
    }

    /** Assignment through the writable `pixel(w, h)` reference: pixel (w, h) becomes
        `c` and every other pixel keeps its value. */
    method SetPixel(w: nat, h: nat, c: RGBA)
      requires Valid() && w < width && h < height
      modifies pixels
      ensures Pixel(w, h) == c
      ensures forall ii, jj :: 0 <= ii < width && 0 <= jj < height && (ii != w || jj != h) ==>
        Pixel(ii, jj) == old(Pixel(ii, jj))
    {
      IndexBound(w, h, width, height);
      forall ii, jj | 0 <= ii < width && 0 <= jj < height && (ii != w || jj != h)
        ensures Index(ii, jj, width) != Index(w, h, width)
      {
        if Index(ii, jj, width) == Index(w, h, width) { IndexInjective(ii, jj, w, h, width); }
      }
      pixels[Index(w, h, width)] := c;
    }

    /** `fill(c)`: every one of the width*height pixels becomes `c`, by default
        opaque black `RGBA(0)`. */
    method Fill(c: RGBA := Grey(0.0))
      requires Valid()
      modifies pixels
      ensures forall k :: 0 <= k < size ==> pixels[k] == c
    {
      for i := 0 to size
        invariant forall k :: 0 <= k < i ==> pixels[k] == c
      {
        pixels[i] := c;
      }
    }

    /** `checkerboard(c1, c2, size)`: walks the buffer in row-major order with a running
        pointer and gives every pixel its checker colour. The defaults are the greys
        0.3 and 0.6 and tiles of 32 pixels. */
    method Checkerboard(c1: RGBA := Grey(0.3), c2: RGBA := Grey(0.6), tile: nat := 32)
      requires Valid()
      modifies pixels
      ensures forall i, j :: 0 <= i < width && 0 <= j < height ==>
        Pixel(i, j) == CheckerColour(i, j, c1, c2, tile)
    {
      var p := 0;
      for j := 0 to height
        invariant p == j * width
        invariant forall ii, jj :: 0 <= ii < width && 0 <= jj < j ==>
          Pixel(ii, jj) == CheckerColour(ii, jj, c1, c2, tile)
      {
        for i := 0 to width
          invariant p == Index(i, j, width)
          invariant forall ii, jj :: 0 <= ii < width && 0 <= jj < j ==>
            Pixel(ii, jj) == CheckerColour(ii, jj, c1, c2, tile)
          invariant forall ii :: 0 <= ii < i ==>
            Pixel(ii, j) == CheckerColour(ii, j, c1, c2, tile)
        {
          IndexBound(i, j, width, height);
          forall ii, jj | 0 <= ii < width && 0 <= jj && (jj < j || (jj == j && ii < i))
            ensures Index(ii, jj, width) < p
          {
            IndexOrder(ii, jj, i, j, width);
          }
          pixels[p] := CheckerColour(i, j, c1, c2, tile);
          p := p + 1;
        }
        assert p == (j + 1) * width;
      }
    }

    /** `savePPM(fileName)`: packs the pixels into a byte buffer, then writes
        `fileName + ".ppm"`. `canOpen` stands for whether the output stream opened;
        when it did not, nothing is written and no error is raised. */
    method SavePPM(fileName: string, canOpen: bool) returns (written: Option<PpmFile>)
      requires Valid() && AllRgbInRange(pixels[..])
      ensures written == if canOpen
        then Some(PpmFile(fileName + ".ppm", PpmHeader(width, height), PpmBody(pixels[..])))
        else None
    {
      var name := fileName + ".ppm";
      var tmp := new Byte[3 * size];
      var q, p, n := 0, 0, size;
      while n > 0
        invariant p + n == size && q == 3 * p
        invariant tmp[..q] == PpmBody(pixels[..p])
      {
        n := n - 1;
        assert pixels[..p + 1][..p] == pixels[..p];
        tmp[q] := ToByte(pixels[p].r);
        tmp[q + 1] := ToByte(pixels[p].g);
        tmp[q + 2] := ToByte(pixels[p].b);
        assert tmp[..q + 3] == tmp[..q] + PixelBytes(pixels[p]);
        q, p := q + 3, p + 1;
      }
      assert pixels[..p] == pixels[..];
      assert tmp[..q] == tmp[..];
      if !canOpen {
        return None;
      }
      written := Some(PpmFile(name, PpmHeader(width, height), tmp[..]));
    }
  }
}
