/** Rendering in `Camera/Camera.py`: `render_chunk`, which colours a band of
    rows, and `render`, which splits the rows into one chunk per core,
    concatenates the chunk results in submission order and pads the result
    with the last pixel up to `image_width ** 2` entries. */
module Rendering {
  import opened Errors
  import opened Vectors
  import opened HittableLists
  import opened Rays
  import opened Materials
  import opened Colors
  import opened Cameras

  /** The random values a render draws: the pixel-square offsets of sample
      `k` of pixel `(i, j)`, and the vectors its scatters use by depth. */
  datatype Randomness = Randomness(offset: (int, int, int) -> (real, real),
                                   draws: (int, int, int) -> int -> Vec3)

  /** `camera.ray_color(r, depth, world)` for a fixed world, as a function of
      the ray, the depth and the scatter draws. */
  type Shader = (Ray, int, int -> Vec3) -> Result<Vec3>

  /** The ray colour of `Camera.py` over the members of a world. */
  function Shade(sqrt: real -> real, world: seq<Hittable<Material>>): Shader
  {
    (r: Ray, depth: int, draw: int -> Vec3) => RayColor(sqrt, world, ShapesHit(sqrt), r, depth, draw)
  }

  /** What the camera and world give a worker: the settings, the frame set
      by `__initialize`, the ray colour over the world, the random draws, and
      the per-pixel tone map applied to a summed colour. */
  datatype Scene = Scene(settings: Settings, frame: Frame, shade: Shader, rand: Randomness,
                         toneMap: (Vec3, int) -> Result<Rgb>)

  /** `range(n)` runs `n` times, and not at all for a negative `n`. */
  function Times(n: int): nat
  {
    if n < 0 then 0 else n
  }

  /** The number of columns a row has: `range(camera.image_width)`. */
  function Columns(sc: Scene): nat
  {
    Times(sc.settings.imageWidth)
  }

  // ---------------------------------------------------------------------------
  // render_chunk

  /** The colour of sample `k` of pixel `(i, j)`. */
  function SampleColor(sc: Scene, i: int, j: int, k: int): Result<Vec3>
  {
    var offset := sc.rand.offset(i, j, k);
    sc.shade(GetRay(sc.frame, i, j, offset.0, offset.1), sc.settings.maxDepth, sc.rand.draws(i, j, k))
  }

  /** `pixel_color` after the first `n` samples; the first failing sample
      ends the pixel. */
  function SampleSum(sc: Scene, i: int, j: int, n: nat): (sum: Result<Vec3>)
    decreases n
  {
    if n == 0 then Ok(Zero)
    else
      match SampleSum(sc, i, j, n - 1)
      case Err(e) => Err(e)
      case Ok(sum) =>
        match SampleColor(sc, i, j, n - 1)
        case Err(e) => Err(e)
        case Ok(c) => Ok(Add(sum, c))
  }

  /** The value appended for pixel `(i, j)`: the tone map of its summed samples. */
  function PixelValue(sc: Scene, i: int, j: int): (value: Result<Rgb>)
  {
    match SampleSum(sc, i, j, Times(sc.settings.samplesPerPixel))
    case Err(e) => Err(e)
    case Ok(sum) => sc.toneMap(sum, sc.settings.samplesPerPixel)
  }

  /** Every pixel's value, as a function of its column and row. */
  function Pixels(sc: Scene): (int, int) -> Result<Rgb>
  {
    (i, j) => PixelValue(sc, i, j)
  }

  /** The values of the first `n` pixels of row `j`, for pixel values `pixel`. */
  function RowPrefix<P>(pixel: (int, int) -> Result<P>, j: int, n: nat): (values: Result<seq<P>>)
    decreases n
  {
    if n == 0 then Ok([])
    else
      match RowPrefix(pixel, j, n - 1)
      case Err(e) => Err(e)
      case Ok(values) =>
        match pixel(n - 1, j)
        case Err(e) => Err(e)
        case Ok(v) => Ok(values + [v])
  }

  /** The values of the `m` rows from `start` on, `columns` pixels each, row
      after row; the first failing pixel ends them. */
  function Rows<P>(pixel: (int, int) -> Result<P>, columns: nat, start: int, m: nat): (values: Result<seq<P>>)
    decreases m
  {
    if m == 0 then Ok([]) else Join(Rows(pixel, columns, start, m - 1), RowPrefix(pixel, start + m - 1, columns))
  }

  /** `values.extend(more)` after computing `values` and then `more`: the
      first exception wins. */
  function Join<P>(values: Result<seq<P>>, more: Result<seq<P>>): (joined: Result<seq<P>>)
  {
    match values
    case Err(e) => Err(e)
    case Ok(vs) =>
      match more
      case Err(e) => Err(e)
      case Ok(ms) => Ok(vs + ms)
  }

  /** `render_chunk((chunk_start, chunk_end, camera, world))`: the values of
      rows `chunk_start .. chunk_end - 1` in row-major order, or the first
      exception. */
  method RenderChunk(camera: Camera, chunkStart: int, chunkEnd: int, shade: Shader, rand: Randomness,
                     toneMap: (Vec3, int) -> Result<Rgb>)
    returns (localResults: Result<seq<Rgb>>)
    ensures var sc := Scene(camera.CurrentSettings(), camera.CurrentFrame(), shade, rand, toneMap);
      localResults == Rows(Pixels(sc), Columns(sc), chunkStart, Times(chunkEnd - chunkStart))
  {
    var sc := Scene(camera.CurrentSettings(), camera.CurrentFrame(), shade, rand, toneMap);
    var rows := Times(chunkEnd - chunkStart);
    var values: seq<Rgb> := [];
    for m := 0 to rows
      invariant Rows(Pixels(sc), Columns(sc), chunkStart, m) == Ok(values)
    {
      var row := RenderRow(camera, chunkStart + m, shade, rand, toneMap);
      if row.Err? {
        RowsFail(Pixels(sc), Columns(sc), chunkStart, m + 1, rows);
        return Err(row.error);
      }
      RowsStep(Pixels(sc), Columns(sc), chunkStart, m, values, row.value);
      values := values + row.value;
    }
    return Ok(values);
  }

  /** The loop over the columns of row `j` of `render_chunk`. */
  method RenderRow(camera: Camera, j: int, shade: Shader, rand: Randomness, toneMap: (Vec3, int) -> Result<Rgb>)
    returns (row: Result<seq<Rgb>>)
    ensures var sc := Scene(camera.CurrentSettings(), camera.CurrentFrame(), shade, rand, toneMap);
      row == RowPrefix(Pixels(sc), j, Columns(sc))
  {
    var sc := Scene(camera.CurrentSettings(), camera.CurrentFrame(), shade, rand, toneMap);
    var values: seq<Rgb> := [];
    for i := 0 to Columns(sc)
      invariant RowPrefix(Pixels(sc), j, i) == Ok(values)
    {
      var pixel := RenderPixel(camera, i, j, shade, rand, toneMap);
      if pixel.Err? {
        RowPrefixFails(Pixels(sc), j, i, Columns(sc));
        return Err(pixel.error);
      }
      values := values + [pixel.value];
    }
    return Ok(values);
  }

  /** The body of `render_chunk`'s two inner loops for one pixel: the samples
      summed one after the other, then the tone map. */
  method RenderPixel(camera: Camera, i: int, j: int, shade: Shader, rand: Randomness,
                     toneMap: (Vec3, int) -> Result<Rgb>)
    returns (value: Result<Rgb>)
    ensures value
            == Pixels(Scene(camera.CurrentSettings(), camera.CurrentFrame(), shade, rand, toneMap))(i, j)
  {
    var sc := Scene(camera.CurrentSettings(), camera.CurrentFrame(), shade, rand, toneMap);
    var pixelColor := Zero;
    for k := 0 to Times(camera.samplesPerPixel)
      invariant SampleSum(sc, i, j, k) == Ok(pixelColor)
    {
      var offset := rand.offset(i, j, k);
      var r := GetRay(camera.CurrentFrame(), i, j, offset.0, offset.1);
      var rayColor := shade(r, camera.maxDepth, rand.draws(i, j, k));
      if rayColor.Err? {
        SampleFails(sc, i, j, k, Times(camera.samplesPerPixel));
        assert Pixels(sc)(i, j) == PixelValue(sc, i, j);
        return Err(rayColor.error);
      }
      pixelColor := Add(pixelColor, rayColor.value);
    }
    assert Pixels(sc)(i, j) == PixelValue(sc, i, j);
    return toneMap(pixelColor, camera.samplesPerPixel);
  }

  // ---------------------------------------------------------------------------
  // Exceptions end the chunk

  /** A failing sample decides the pixel's value. */
  lemma {:induction false} SampleFails(sc: Scene, i: int, j: int, k: nat, n: nat)
    requires k < n
    requires SampleSum(sc, i, j, k).Ok? && SampleColor(sc, i, j, k).Err?
    ensures SampleSum(sc, i, j, n) == Err(SampleColor(sc, i, j, k).error)
    decreases n
  {
    if n > k + 1 {
      SampleFails(sc, i, j, k, n - 1);
    }
  }

  /** A failing pixel decides the value of the whole row. */
  lemma {:induction false} RowPrefixFails<P>(pixel: (int, int) -> Result<P>, j: int, i: nat, n: nat)
    requires i < n
    requires RowPrefix(pixel, j, i).Ok? && pixel(i, j).Err?
    ensures RowPrefix(pixel, j, n) == Err(pixel(i, j).error)
    decreases n
  {
    if n > i + 1 {
      RowPrefixFails(pixel, j, i, n - 1);
    }
  }

  /** A rendered row extends the rows before it. */
  lemma RowsStep<P>(pixel: (int, int) -> Result<P>, columns: nat, start: int, m: nat, values: seq<P>, row: seq<P>)
    requires Rows(pixel, columns, start, m) == Ok(values)
    requires RowPrefix(pixel, start + m, columns) == Ok(row)
    ensures Rows(pixel, columns, start, m + 1) == Ok(values + row)
  {
  }

  /** Once a row fails, later rows change nothing. */
  lemma {:induction false} RowsFail<P>(pixel: (int, int) -> Result<P>, columns: nat, start: int, m: nat,
                                       rows: nat)
    requires m <= rows
    requires Rows(pixel, columns, start, m).Err?
    ensures Rows(pixel, columns, start, rows) == Rows(pixel, columns, start, m)
    decreases rows
  {
    if rows > m {
      RowsFail(pixel, columns, start, m, rows - 1);
    }
  }

  /** The samples of a pixel sum without exception exactly when every sample
      colour is computed; otherwise the exception is that of some sample. */
  lemma {:induction false} SampleSumLayout(sc: Scene, i: int, j: int, n: nat)
    ensures SampleSum(sc, i, j, n).Ok? <==> forall k :: 0 <= k < n ==> SampleColor(sc, i, j, k).Ok?
    ensures SampleSum(sc, i, j, n).Err? ==>
              exists k :: 0 <= k < n && SampleColor(sc, i, j, k) == Err(SampleSum(sc, i, j, n).error)
    decreases n
  {
    if n > 0 {
      SampleSumLayout(sc, i, j, n - 1);
    }
  }

  /** A pixel with a sample that raises has no value, whatever the tone map. */
  lemma PixelValueFails(sc: Scene, i: int, j: int, k: int)
    requires 0 <= k < Times(sc.settings.samplesPerPixel)
    requires SampleColor(sc, i, j, k).Err?
    ensures PixelValue(sc, i, j).Err?
  {
    SampleSumLayout(sc, i, j, Times(sc.settings.samplesPerPixel));
  }

  /** Extending succeeds exactly when both parts were computed; the earlier
      values stay in front and the lengths add up; the first exception wins. */
  lemma JoinKeepsFront<P>(values: Result<seq<P>>, more: Result<seq<P>>)
    ensures Join(values, more).Ok? <==> values.Ok? && more.Ok?
    ensures values.Err? ==> Join(values, more) == values
    ensures values.Ok? && more.Err? ==> Join(values, more) == more
    ensures Join(values, more).Ok? ==>
              values.value <= Join(values, more).value
              && |Join(values, more).value| == |values.value| + |more.value|
  {
  }

  // ---------------------------------------------------------------------------
  // render

  /** `image_width // num_cores`; for a positive divisor Python's floor
      division agrees with Dafny's. */
  function ChunkSize(width: int, cores: int): (cs: int)
    requires 1 <= cores
    ensures cores * cs <= width < cores * cs + cores
  {
    width / cores
  }

  /** The values of chunk `c`, rows `c * cs .. (c + 1) * cs - 1`. */
  function Chunk(sc: Scene, cs: int, c: int): (values: Result<seq<Rgb>>)
    ensures values.Ok? ==> |values.value| == Times(cs) * Columns(sc)
  {
    assert (c + 1) * cs - c * cs == cs;
    RowsLayout(Pixels(sc), Columns(sc), c * cs, Times(cs));
    Rows(Pixels(sc), Columns(sc), c * cs, Times((c + 1) * cs - c * cs))
  }

  /** `final_image_data` after the results of the first `n` chunks were taken
      from `pool.imap` in submission order; the first chunk that raised ends
      the render with its exception. */
  function Gathered(sc: Scene, cs: int, n: nat): (data: Result<seq<Rgb>>)
    ensures data.Ok? <==> forall c :: 0 <= c < n ==> Chunk(sc, cs, c).Ok?
    ensures data.Err? ==> exists c :: 0 <= c < n && Chunk(sc, cs, c) == Err(data.error)
  {
    if n == 0 then Ok([]) else Join(Gathered(sc, cs, n - 1), Chunk(sc, cs, n - 1))
  }

  /** `n` copies of `x`. */
  function Repeat<T>(x: T, n: nat): (xs: seq<T>)
    ensures |xs| == n
    ensures forall k :: 0 <= k < n ==> xs[k] == x
  {
    if n == 0 then [] else Repeat(x, n - 1) + [x]
  }

  /** The size check of `render`: with fewer than `width ** 2` triples, the
      last one is appended until there are; an empty list has no last triple
      and raises IndexError. */
  function Padded<T>(data: seq<T>, width: int): (padded: Result<seq<T>>)
    ensures padded.Ok? ==> data <= padded.value
    ensures padded.Err? ==> padded.error == IndexError && |data| == 0
  {
    var realSize := width * width * 3;
    var currentSize := |data| * 3;
    if currentSize < realSize then
      if |data| == 0 then Err(IndexError)
      else Ok(data + Repeat(data[|data| - 1], (realSize - currentSize) / 3))
    else Ok(data)
  }

  /** What `render` produces after a successful `__initialize`: the
      exception of a chunk or of the padding, or the padded pixel list. */
  function Rendered(sc: Scene, cores: int): (image: Result<seq<Rgb>>)
    requires 1 <= cores
    ensures var data := Gathered(sc, ChunkSize(sc.settings.imageWidth, cores), cores);
            (image.Ok? ==> data.Ok? && data.value <= image.value) &&
            (data.Ok? && image.Err? ==> image == Err(IndexError))
  {
    match Gathered(sc, ChunkSize(sc.settings.imageWidth, cores), cores)
    case Err(e) => Err(e)
    case Ok(data) => Padded(data, sc.settings.imageWidth)
  }

  /** What `camera.render(world)` produces on `cores` cores, as a function of
      the camera's state before the call: the exception of `__initialize`, or
      what the chunks and the padding produce with the frame it sets. */
  function RenderResult(s: Settings, before: Frame, sqrt: real -> real, tanHalf: real -> real, shade: Shader,
                        rand: Randomness, toneMap: (Vec3, int) -> Result<Rgb>, cores: int)
    : (image: Result<seq<Rgb>>)
    requires 1 <= cores
    ensures s.imageWidth == 0 ==> image == Err(ZeroDivisionError)
    ensures image.Ok? ==> Initialized(s, before, sqrt, tanHalf).1.None?
  {
    var (frame, raised) := Initialized(s, before, sqrt, tanHalf);
    if raised.Some? then Err(raised.value)
    else Rendered(Scene(s, frame, shade, rand, toneMap), cores)
  }

  /** `camera.render(world)` with `multiprocessing.cpu_count()` given as
      `cores`, up to the point where the pixel list becomes an image. */
  method Render(camera: Camera, world: HittableList<Material>, cores: int, sqrt: real -> real,
                tanHalf: real -> real, rand: Randomness, toneMap: (Vec3, int) -> Result<Rgb>)
    returns (image: Result<seq<Rgb>>)
    requires 1 <= cores
    modifies camera
    ensures camera.CurrentSettings() == old(camera.CurrentSettings())
    ensures camera.CurrentFrame() == Initialized(old(camera.CurrentSettings()), old(camera.CurrentFrame()), sqrt, tanHalf).0
    ensures image == RenderResult(old(camera.CurrentSettings()), old(camera.CurrentFrame()), sqrt, tanHalf,
                                  Shade(sqrt, world.objects), rand, toneMap, cores)
  {
    var raised := camera.Initialize(sqrt, tanHalf);
    if raised.Some? {
      return Err(raised.value);
    }
    image := RenderInitialized(camera, cores, Shade(sqrt, world.objects), rand, toneMap);
  }

  /** The part of `render` after `__initialize`: the chunks, then the padding. */
  method RenderInitialized(camera: Camera, cores: int, shade: Shader, rand: Randomness,
                           toneMap: (Vec3, int) -> Result<Rgb>)
    returns (image: Result<seq<Rgb>>)
    requires 1 <= cores
    ensures image == Rendered(Scene(camera.CurrentSettings(), camera.CurrentFrame(), shade, rand, toneMap), cores)
  {
    var sc := Scene(camera.CurrentSettings(), camera.CurrentFrame(), shade, rand, toneMap);
    var chunkSize := camera.imageWidth / cores;
    var finalImageData: seq<Rgb> := [];
    for c := 0 to cores
      invariant Gathered(sc, chunkSize, c) == Ok(finalImageData)
    {
      var localResults := RenderChunk(camera, c * chunkSize, (c + 1) * chunkSize, shade, rand, toneMap);
      if localResults.Err? {
        GatheredFails(sc, chunkSize, c + 1, cores);
        return Err(localResults.error);
      }
      finalImageData := finalImageData + localResults.value;
    }
    image := Pad(finalImageData, camera.imageWidth);
  }

  /** The size check and padding loop of `render`. */
  method Pad(data: seq<Rgb>, width: int) returns (padded: Result<seq<Rgb>>)
    ensures padded == Padded(data, width)
  {
    var realSize := width * width * 3;
    var currentSize := |data| * 3;
    var difference := realSize - currentSize;
    if currentSize < realSize {
      if |data| == 0 {
        return Err(IndexError);
      }
      var lastColorValue := data[|data| - 1];
      var finalImageData := data;
      for i := 0 to difference / 3
        invariant finalImageData == data + Repeat(lastColorValue, i)
      {
        finalImageData := finalImageData + [lastColorValue];
      }
      return Ok(finalImageData);
    }
    return Ok(data);
  }

  /** Once a chunk fails, later chunks change nothing. */
  lemma {:induction false} GatheredFails(sc: Scene, cs: int, m: nat, n: nat)
    requires m <= n
    requires Gathered(sc, cs, m).Err?
    ensures Gathered(sc, cs, n) == Gathered(sc, cs, m)
    decreases n
  {
    if n > m {
      GatheredFails(sc, cs, m, n - 1);
    }
  }

  // ---------------------------------------------------------------------------
  // Properties of the chunking

  /** Row `j` of the first `cores * cs` rows lies in chunk `j / cs` and in no
      other; the rows from `cores * cs` on, fewer than `cores`, lie in none. */
  lemma RowInOneChunk(width: int, cores: int, j: int)
    requires 1 <= cores
    ensures var cs := ChunkSize(width, cores);
      0 <= j < cores * cs ==> 0 <= j / cs < cores && (j / cs) * cs <= j < (j / cs + 1) * cs
    ensures var cs := ChunkSize(width, cores);
      forall c :: 0 <= c < cores && c * cs <= j < (c + 1) * cs ==> j < cores * cs && c == j / cs
  {
    var cs := ChunkSize(width, cores);
    if 0 <= j < cores * cs {
      assert 0 < cs by {
        if cs <= 0 { MulNonPositive(cores, cs); }
      }
      DivBounds(j, cs, cores);
    }
    forall c | 0 <= c < cores && c * cs <= j < (c + 1) * cs
      ensures j < cores * cs && c == j / cs
    {
      assert 0 < cs;
      MulMonotoneInt(c + 1, cores, cs);
      DivUnique(j, cs, c);
    }
  }

  lemma MulNonPositive(a: int, b: int)
    requires 0 <= a && b <= 0
    ensures a * b <= 0
  {
  }

  lemma MulMonotoneInt(a: int, b: int, c: int)
    requires a <= b && 0 <= c
    ensures a * c <= b * c
  {
    assert b * c - a * c == (b - a) * c;
  }

  /** The quotient of `j` by a positive `d` is the `q` with `q * d <= j < (q + 1) * d`. */
  lemma DivUnique(j: int, d: int, q: int)
    requires 0 < d && q * d <= j < (q + 1) * d
    ensures j / d == q && j % d == j - q * d
  {
    var q', r := j / d, j % d;
    assert j == q' * d + r && 0 <= r < d;
    if q' < q {
      MulMonotoneInt(q' + 1, q, d);
    } else if q < q' {
      MulMonotoneInt(q + 1, q', d);
    }
  }

  lemma DivBounds(j: int, d: int, n: int)
    requires 0 < d && 0 <= j < n * d
    ensures 0 <= j / d < n && (j / d) * d <= j < (j / d + 1) * d
  {
    var q := j / d;
    assert j == q * d + j % d;
    if q < 0 { MulMonotoneInt(q + 1, 0, d); }
    if n <= q { MulMonotoneInt(n, q, d); }
  }

  /** Joining with an empty list changes nothing, and joining is associative. */
  lemma JoinLaws<P>(x: Result<seq<P>>, y: Result<seq<P>>, z: Result<seq<P>>)
    ensures Join(x, Ok([])) == x
    ensures Join(Join(x, y), z) == Join(x, Join(y, z))
  {
    if x.Ok? {
      assert x.value + [] == x.value;
      if y.Ok? && z.Ok? {
        assert (x.value + y.value) + z.value == x.value + (y.value + z.value);
      }
    }
  }

  /** `a + b` rows from `start` are the first `a` of them followed by the next `b`. */
  lemma {:induction false} RowsSplit<P>(pixel: (int, int) -> Result<P>, columns: nat, start: int, a: nat, b: nat)
    ensures Rows(pixel, columns, start, a + b)
            == Join(Rows(pixel, columns, start, a), Rows(pixel, columns, start + a, b))
    decreases b
  {
    if b == 0 {
      JoinLaws(Rows(pixel, columns, start, a), Ok([]), Ok([]));
    } else {
      RowsSplit(pixel, columns, start, a, b - 1);
      JoinLaws(Rows(pixel, columns, start, a), Rows(pixel, columns, start + a, b - 1),
               RowPrefix(pixel, start + a + b - 1, columns));
    }
  }

  /** The chunks, taken in submission order, render the first
      `cores * chunk_size` rows in order, each exactly once. */
  lemma {:induction false} GatheredIsRows(sc: Scene, cs: int, n: nat)
    ensures Gathered(sc, cs, n) == Rows(Pixels(sc), Columns(sc), 0, Times(n * cs))
    decreases n
  {
    if n > 0 {
      GatheredIsRows(sc, cs, n - 1);
      GatheredStep(sc, cs, n - 1);
    }
  }

  /** One more chunk extends the gathered rows by the next `chunk_size` rows. */
  lemma GatheredStep(sc: Scene, cs: int, c: nat)
    requires Gathered(sc, cs, c) == Rows(Pixels(sc), Columns(sc), 0, Times(c * cs))
    ensures Gathered(sc, cs, c + 1) == Rows(Pixels(sc), Columns(sc), 0, Times((c + 1) * cs))
  {
    ChunkCounts(c, cs);
    var before := Rows(Pixels(sc), Columns(sc), 0, Times(c * cs));
    var chunk := Rows(Pixels(sc), Columns(sc), c * cs, Times(cs));
    assert Gathered(sc, cs, c + 1) == Join(before, chunk);
    if cs < 0 {
      assert chunk == Ok([]);
      JoinLaws(before, Ok([]), Ok([]));
    } else {
      RowsSplit(Pixels(sc), Columns(sc), 0, Times(c * cs), cs);
    }
  }

  /** Chunk `c` covers `chunk_size` rows, right after the `c * chunk_size`
      rows of the chunks before it; a negative chunk size covers none. */
  lemma ChunkCounts(c: nat, cs: int)
    ensures Times((c + 1) * cs - c * cs) == Times(cs)
    ensures cs < 0 ==> Times(c * cs) == 0 && Times((c + 1) * cs) == 0
    ensures 0 <= cs ==> Times((c + 1) * cs) == Times(c * cs) + cs && Times(c * cs) == c * cs
  {
    assert (c + 1) * cs - c * cs == cs;
    if cs < 0 {
      MulNonPositive(c, cs);
      MulNonPositive(c + 1, cs);
    } else {
      MulMonotoneInt(0, c, cs);
    }
  }

  /** A rendered row holds, in order, the value of every pixel of the row. */
  lemma {:induction false} RowPrefixLayout<P>(pixel: (int, int) -> Result<P>, j: int, n: nat)
    ensures RowPrefix(pixel, j, n).Ok? <==> forall i :: 0 <= i < n ==> pixel(i, j).Ok?
    ensures RowPrefix(pixel, j, n).Ok? ==>
              |RowPrefix(pixel, j, n).value| == n
              && forall i :: 0 <= i < n ==> pixel(i, j) == Ok(RowPrefix(pixel, j, n).value[i])
    decreases n
  {
    if n > 0 {
      RowPrefixLayout(pixel, j, n - 1);
    }
  }

  /** Rendered rows are laid out row-major: entry `k` is the value of the
      pixel in column `k % columns` of row `start + k / columns`; and they
      render exactly when every pixel does. */
  lemma {:induction false} RowsLayout<P>(pixel: (int, int) -> Result<P>, columns: nat, start: int, m: nat)
    ensures Rows(pixel, columns, start, m).Ok?
            <==> forall i, r :: 0 <= i < columns && start <= r < start + m ==> pixel(i, r).Ok?
    ensures Rows(pixel, columns, start, m).Ok? ==>
              |Rows(pixel, columns, start, m).value| == m * columns
              && forall k :: 0 <= k < m * columns ==>
                   pixel(k % columns, start + k / columns) == Ok(Rows(pixel, columns, start, m).value[k])
    decreases m
  {
    if m > 0 {
      var last := start + m - 1;
      RowsLayout(pixel, columns, start, m - 1);
      RowPrefixLayout(pixel, last, columns);
      var before := Rows(pixel, columns, start, m - 1);
      var row := RowPrefix(pixel, last, columns);
      if before.Ok? && row.Ok? {
        var vs := before.value + row.value;
        assert Rows(pixel, columns, start, m).value == vs;
        assert |vs| == m * columns by {
          assert m * columns == (m - 1) * columns + columns;
        }
        forall k | 0 <= k < m * columns
          ensures pixel(k % columns, start + k / columns) == Ok(vs[k])
        {
          if k < (m - 1) * columns {
            assert vs[k] == before.value[k];
          } else {
            var i := k - (m - 1) * columns;
            DivUnique(k, columns, m - 1);
            assert vs[k] == row.value[i];
          }
        }
      }
    }
  }

  // ---------------------------------------------------------------------------
  // Properties of the padding and of the whole render

  /** The padding raises exactly when nothing was rendered for a non-empty
      image; otherwise it keeps the rendered list and fills it with copies of
      its last entry up to `width ** 2` entries. */
  lemma PaddedLayout<T>(data: seq<T>, width: int)
    ensures Padded(data, width).Err? <==> |data| == 0 && width != 0
    ensures Padded(data, width).Err? ==> Padded(data, width).error == IndexError
    ensures Padded(data, width).Ok? ==>
              var padded := Padded(data, width).value;
              |padded| == (if |data| < width * width then width * width else |data|)
              && padded[..|data|] == data
              && forall k :: |data| <= k < |padded| ==> padded[k] == data[|data| - 1]
  {
    if width != 0 {
      assert 0 < width * width;
    }
    if |data| * 3 < width * width * 3 && |data| != 0 {
      assert (width * width * 3 - |data| * 3) / 3 == width * width - |data|;
      var padded := Padded(data, width).value;
      assert padded[..|data|] == data;
    }
  }

  /** A render that produces an image produces `width ** 2` triples, for an
      image at least as wide as the number of cores: first the rows
      `0 .. cores * chunk_size - 1` in row-major order, each entry the value of
      its pixel, then copies of the last rendered pixel. */
  lemma RenderedImage(sc: Scene, cores: int)
    requires 1 <= cores && sc.settings.imageWidth != 0
    requires Rendered(sc, cores).Ok?
    ensures cores <= sc.settings.imageWidth && 1 <= ChunkSize(sc.settings.imageWidth, cores)
    ensures var image := Rendered(sc, cores).value;
            var w := sc.settings.imageWidth;
            var rendered := cores * ChunkSize(w, cores) * w;
            |image| == w * w && 0 < rendered <= w * w
            && (forall k :: 0 <= k < rendered ==> Pixels(sc)(k % w, k / w) == Ok(image[k]))
            && (forall k :: rendered <= k < w * w ==> image[k] == image[rendered - 1])
  {
    var w := sc.settings.imageWidth;
    var cs := ChunkSize(w, cores);
    var gathered := Gathered(sc, cs, cores);
    assert gathered == Rows(Pixels(sc), Times(w), 0, Times(cores * cs)) by {
      GatheredIsRows(sc, cs, cores);
    }
    assert gathered.Ok? && Rendered(sc, cores) == Padded(gathered.value, w);
    ChunkedImage(Pixels(sc), gathered, w, cores);
  }

  /** `RenderedImage` for any pixel values. */
  lemma ChunkedImage<P>(pixel: (int, int) -> Result<P>, gathered: Result<seq<P>>, w: int, cores: int)
    requires 1 <= cores && w != 0
    requires gathered == Rows(pixel, Times(w), 0, Times(cores * ChunkSize(w, cores)))
    requires gathered.Ok? && Padded(gathered.value, w).Ok?
    ensures cores <= w && 1 <= ChunkSize(w, cores)
    ensures var image := Padded(gathered.value, w).value;
            var rendered := cores * ChunkSize(w, cores) * w;
            |image| == w * w && 0 < rendered <= w * w
            && (forall k :: 0 <= k < rendered ==> pixel(k % w, k / w) == Ok(image[k]))
            && (forall k :: rendered <= k < w * w ==> image[k] == image[rendered - 1])
  {
    var cs := ChunkSize(w, cores);
    PaddedRows(pixel, w, cores * cs);
    assert 1 <= cs by {
      if cs <= 0 { MulNonPositive(cores, cs); }
    }
    MulMonotoneInt(1, cs, cores);
  }

  /** The padded rows `0 .. n - 1` of a `width`-wide image, for any pixel
      values: `width ** 2` entries, the rows in row-major order, then copies
      of the last rendered entry. */
  lemma PaddedRows<P>(pixel: (int, int) -> Result<P>, w: int, n: int)
    requires w != 0 && n <= w
    requires Rows(pixel, Times(w), 0, Times(n)).Ok?
    requires Padded(Rows(pixel, Times(w), 0, Times(n)).value, w).Ok?
    ensures var image := Padded(Rows(pixel, Times(w), 0, Times(n)).value, w).value;
            0 < n && 0 < w && |image| == w * w && 0 < n * w <= w * w
            && (forall k :: 0 <= k < n * w ==> pixel(k % w, k / w) == Ok(image[k]))
            && (forall k :: n * w <= k < w * w ==> image[k] == image[n * w - 1])
  {
    var data := Rows(pixel, Times(w), 0, Times(n)).value;
    RowsLayout(pixel, Times(w), 0, Times(n));
    PaddedLayout(data, w);
    assert |data| == Times(n) * Times(w);
    assert |data| != 0;
    assert Times(n) != 0 && Times(w) != 0;
    assert |data| == n * w;
    MulMonotoneInt(n, w, w);
    var image := Padded(data, w).value;
    forall k | 0 <= k < n * w
      ensures pixel(k % w, k / w) == Ok(image[k])
    {
      assert image[k] == image[..|data|][k];
    }
  }

  /** An image narrower than the number of cores is never rendered: every
      chunk is empty and the padding finds no last pixel. (A zero width
      already fails in `__initialize`.) */
  lemma NarrowImageFails(sc: Scene, cores: int)
    requires 1 <= cores && sc.settings.imageWidth != 0 && sc.settings.imageWidth < cores
    ensures Rendered(sc, cores) == Err(IndexError)
  {
    var w := sc.settings.imageWidth;
    var cs := ChunkSize(w, cores);
    assert cs <= 0 by {
      if 0 < cs { MulMonotoneInt(1, cores, cs); }
    }
    MulNonPositive(cores, cs);
    GatheredIsRows(sc, cs, cores);
    PaddedLayout<Rgb>([], w);
  }

  // ---------------------------------------------------------------------------
  // The call of write_color in render_chunk

  /** `write_color(pixel_color, camera.samples_per_pixel)` as `render_chunk`
      calls it: `write_color` takes five arguments, so the call raises
      TypeError for every pixel. */
  function WriteColorAsCalled(pixelColor: Vec3, samplesPerPixel: int): (rgb: Result<Rgb>)
    ensures rgb.Err?
  {
    Err(TypeError)
  }

  /** With the call as written, `render` never produces an image. */
  lemma AsWrittenNeverRenders(s: Settings, before: Frame, sqrt: real -> real, tanHalf: real -> real,
                              shade: Shader, rand: Randomness, cores: int)
    requires 1 <= cores
    ensures RenderResult(s, before, sqrt, tanHalf, shade, rand, WriteColorAsCalled, cores).Err?
  {
    InitializedRaised(s, before, sqrt, tanHalf);
    var (frame, raised) := Initialized(s, before, sqrt, tanHalf);
    if raised.None? {
      var sc := Scene(s, frame, shade, rand, WriteColorAsCalled);
      if Rendered(sc, cores).Ok? {
        RenderedImage(sc, cores);
        assert false;
      }
    }
  }

  /** The evidently intended pixel value: the triple `write_color` computes
      for the summed samples. */
  function CorrectedToneMap(sqrt: real -> real): (toneMap: (Vec3, int) -> Result<Rgb>)
    ensures forall c, n :: toneMap(c, n).Ok? ==> InByteRange(toneMap(c, n).value)
  {
    (c: Vec3, n: int) => ToneMap(sqrt, c, n)
  }

  predicate InByteRange(rgb: Rgb)
  {
    0 <= rgb.r <= 255 && 0 <= rgb.g <= 255 && 0 <= rgb.b <= 255
  }

  /** With the corrected call, every entry of a rendered image is a triple of
      bytes, the form `numpy.array(..., dtype=numpy.uint8)` expects. */
  lemma CorrectedImageBytes(sc: Scene, sqrt: real -> real, cores: int)
    requires 1 <= cores && sc.toneMap == CorrectedToneMap(sqrt)
    requires Rendered(sc, cores).Ok?
    ensures var image := Rendered(sc, cores).value;
            forall k :: 0 <= k < |image| ==> InByteRange(image[k])
  {
    var image := Rendered(sc, cores).value;
    var w := sc.settings.imageWidth;
    if w == 0 {
      var cs := ChunkSize(w, cores);
      assert cs == 0;
      GatheredIsRows(sc, cs, cores);
      assert |image| == 0;
    } else {
      RenderedImage(sc, cores);
      var rendered := cores * ChunkSize(w, cores) * w;
      forall k | 0 <= k < |image|
        ensures InByteRange(image[k])
      {
        var k' := if k < rendered then k else rendered - 1;
        assert Pixels(sc)(k' % w, k' / w) == Ok(image[k']);
        assert image[k] == image[k'];
      }
    }
  }
}

