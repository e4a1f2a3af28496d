/** Tone mapping of `General/VectorsColors.py`: averaging the summed samples,
    gamma 2 through numpy's square root, clipping, and conversion to a byte
    per channel, and `write_color`'s store into a pixel map. */
module Colors {
  import opened Errors
  import opened Vectors

  /** The integer triple written for one pixel. */
  datatype Rgb = Rgb(r: int, g: int, b: int)

  const ClipHigh: real := 0.999

  /** `linear_to_gamma`: numpy's square root, which yields NaN (here None)
      for a negative component instead of raising. */
  function LinearToGamma(sqrt: real -> real, linear: real): (gamma: Option<real>)
    ensures gamma.None? <==> linear < 0.0
  {
    if linear < 0.0 then None else Some(sqrt(linear))
  }

  /** `numpy.clip(a, lo, hi)`. */
  function Clip(a: real, lo: real, hi: real): (c: real)
    requires lo <= hi
    ensures lo <= c <= hi
    ensures lo <= a <= hi ==> c == a
    ensures a < lo ==> c == lo
    ensures hi < a ==> c == hi
  {
    if a < lo then lo else if hi < a then hi else a
  }

  /** `1.0 / samples_per_pixel`. */
  function SampleScale(samplesPerPixel: int): (scale: real)
    requires samplesPerPixel != 0
    ensures scale * (samplesPerPixel as real) == 1.0
  {
    1.0 / samplesPerPixel as real
  }

  /** One channel: `int(256 * clip(linear_to_gamma(c * scale), 0.0, 0.999))`;
      `int` of NaN raises ValueError. */
  function Channel(sqrt: real -> real, component: real, scale: real): (b: Result<int>)
    ensures b.Err? <==> component * scale < 0.0
    ensures b.Err? ==> b.error == ValueError
    ensures b.Ok? ==> 0 <= b.value <= 255
  {
    match LinearToGamma(sqrt, component * scale)
    case None => Err(ValueError)
    case Some(g) => Ok(Byte(Clip(g, 0.0, ClipHigh)))
  }

  /** `int(256 * x)` for a clipped `x`, which is never negative, so `int`
      truncates like the floor. */
  function Byte(x: real): (b: int)
    requires 0.0 <= x <= ClipHigh
    ensures 0 <= b <= 255
  {
    (256.0 * x).Floor
  }

  /** The tone-mapped triple `write_color` computes for a summed colour. */
  function ToneMap(sqrt: real -> real, pixelColor: Vec3, samplesPerPixel: int): (rgb: Result<Rgb>)
    ensures samplesPerPixel == 0 ==> rgb == Err(ZeroDivisionError)
    ensures samplesPerPixel != 0 ==>
              (rgb.Err? <==> pixelColor.x * SampleScale(samplesPerPixel) < 0.0
                             || pixelColor.y * SampleScale(samplesPerPixel) < 0.0
                             || pixelColor.z * SampleScale(samplesPerPixel) < 0.0)
    ensures rgb.Ok? ==> 0 <= rgb.value.r <= 255 && 0 <= rgb.value.g <= 255 && 0 <= rgb.value.b <= 255
  {
    if samplesPerPixel == 0 then Err(ZeroDivisionError)
    else
      var scale := SampleScale(samplesPerPixel);
      match Channel(sqrt, pixelColor.x, scale)
      case Err(e) => Err(e)
      case Ok(ir) =>
        match Channel(sqrt, pixelColor.y, scale)
        case Err(e) => Err(e)
        case Ok(ig) =>
          match Channel(sqrt, pixelColor.z, scale)
          case Err(e) => Err(e)
          case Ok(ib) => Ok(Rgb(ir, ig, ib))
  }

  /** The pixel-map subscript is within range: as for any Python sequence
      index, `-n <= i < n` along each axis. */
  predicate InMap(pixels: array2<Rgb>, x: int, y: int)
  {
    -pixels.Length0 <= x < pixels.Length0 && -pixels.Length1 <= y < pixels.Length1
  }

  /** `write_color(pixels, x, y, pixel_color, samples_per_pixel)`: computes
      the triple, then stores it at `pixels[x, y]`; a negative subscript
      counts from the end of its axis, and one outside the map raises
      IndexError after the computation. Nothing else is written. */
  method WriteColor(sqrt: real -> real, pixels: array2<Rgb>, x: int, y: int, pixelColor: Vec3,
                    samplesPerPixel: int) returns (raised: Option<PyError>)
    modifies pixels
    ensures ToneMap(sqrt, pixelColor, samplesPerPixel).Err? ==>
              raised == Some(ToneMap(sqrt, pixelColor, samplesPerPixel).error)
    ensures ToneMap(sqrt, pixelColor, samplesPerPixel).Ok? ==>
              (raised == None <==> InMap(pixels, x, y))
    ensures raised.None? ==>
              pixels[x % pixels.Length0, y % pixels.Length1] == ToneMap(sqrt, pixelColor, samplesPerPixel).value
    ensures raised.None? ==>
              forall a, b :: 0 <= a < pixels.Length0 && 0 <= b < pixels.Length1 &&
                             (a != x % pixels.Length0 || b != y % pixels.Length1) ==>
                pixels[a, b] == old(pixels[a, b])
    ensures raised.Some? ==> unchanged(pixels)
  {
    var rgb := ToneMap(sqrt, pixelColor, samplesPerPixel);
    if rgb.Err? {
      return Some(rgb.error);
    }
    if !InMap(pixels, x, y) {
      return Some(IndexError);
    }
    pixels[x % pixels.Length0, y % pixels.Length1] := rgb.value;
    return None;
  }

  // ---------------------------------------------------------------------------
  // Properties

  /** `linear_to_gamma` inverts squaring on the non-negative reals. */
  lemma GammaInvertsSquare(sqrt: real -> real, linear: real)
    requires IsSqrt(sqrt)
    requires 0.0 <= linear
    ensures LinearToGamma(sqrt, linear).Some?
    ensures var g := LinearToGamma(sqrt, linear).value; 0.0 <= g && g * g == linear
  {
  }

  /** A brighter component never gives a darker byte (for a positive sample count). */
  lemma ChannelMonotone(sqrt: real -> real, c1: real, c2: real, samplesPerPixel: int)
    requires IsSqrt(sqrt)
    requires 0 < samplesPerPixel && 0.0 <= c1 <= c2
    ensures Channel(sqrt, c1, SampleScale(samplesPerPixel)).Ok?
    ensures Channel(sqrt, c2, SampleScale(samplesPerPixel)).Ok?
    ensures Channel(sqrt, c1, SampleScale(samplesPerPixel)).value
            <= Channel(sqrt, c2, SampleScale(samplesPerPixel)).value
  {
    var scale := SampleScale(samplesPerPixel);
    assert 0.0 < scale;
    MulMonotone(c1, c2, scale);
    SqrtMonotone(sqrt, c1 * scale, c2 * scale);
    ClipMonotone(sqrt(c1 * scale), sqrt(c2 * scale));
    ChannelValue(sqrt, c1, scale);
    ChannelValue(sqrt, c2, scale);
  }

  lemma ChannelValue(sqrt: real -> real, component: real, scale: real)
    requires 0.0 <= component * scale
    ensures Channel(sqrt, component, scale) == Ok(Byte(Clip(sqrt(component * scale), 0.0, ClipHigh)))
  {
  }

  lemma MulMonotone(a: real, b: real, s: real)
    requires 0.0 <= a <= b && 0.0 < s
    ensures 0.0 <= a * s <= b * s
  {
    MulNonNegative(b - a, s);
    MulNonNegative(a, s);
  }

  lemma ClipMonotone(a: real, b: real)
    requires a <= b
    ensures Byte(Clip(a, 0.0, ClipHigh)) <= Byte(Clip(b, 0.0, ClipHigh))
  {
  }

  /** A summed component equal to the sample count is full intensity: 255. */
  lemma FullIntensity(sqrt: real -> real, samplesPerPixel: int)
    requires IsSqrt(sqrt)
    requires samplesPerPixel != 0
    ensures Channel(sqrt, samplesPerPixel as real, SampleScale(samplesPerPixel)) == Ok(255)
  {
    var scale := SampleScale(samplesPerPixel);
    assert (samplesPerPixel as real) * scale == 1.0;
    SqrtUnique(sqrt, 1.0, 1.0);
  }

  /** A zero colour is black for any non-zero sample count. */
  lemma BlackStaysBlack(sqrt: real -> real, samplesPerPixel: int)
    requires IsSqrt(sqrt)
    requires samplesPerPixel != 0
    ensures ToneMap(sqrt, Zero, samplesPerPixel) == Ok(Rgb(0, 0, 0))
  {
    SqrtUnique(sqrt, 0.0, 0.0);
  }
}
