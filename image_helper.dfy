/**
 * The client-side image pipeline of lib/imageHelper.ts: option defaults,
 * the bounded resize that keeps the aspect ratio, one encode and at most one
 * corrective re-encode at a reduced quality, the size/ratio report of
 * compressAndConvertImage and the result record of useImageUpload.
 *
 * The browser services (FileReader, Image decoding, the canvas 2D context
 * and canvas.toBlob) are not modelled as pixels: they are the fields of a
 * `Browser` value, and the canvas keeps a log of what it was asked to encode.
 */
module ImageHelper {
  import opened Wrappers
  import opened DataUrls

  // ---------------------------------------------------------------------
  // Options and their defaults
  // ---------------------------------------------------------------------

  /** The accepted `outputFormat` values: image/jpeg, image/png, image/webp. */
  datatype Format = Jpeg | Png | Webp

  /** CompressionOptions: every field may be left undefined (None). */
  datatype CompressionOptions = CompressionOptions(
    maxWidth: Option<real>,
    maxHeight: Option<real>,
    quality: Option<real>,
    maxSizeKB: Option<real>,
    outputFormat: Option<Format>)

  /** The options once the destructuring defaults have been applied. */
  datatype Settings = Settings(
    maxWidth: real,
    maxHeight: real,
    quality: real,
    maxSizeKB: real,
    outputFormat: Format)

  const DefaultSettings := Settings(1920.0, 1080.0, 0.8, 500.0, Jpeg)

  /** `{}`: the caller passed no options. */
  const NoOptions := CompressionOptions(None, None, None, None, None)

  /** Options whose arithmetic stays finite: positive bounds and a
      non-negative byte budget (0 switches the budget off). */
  predicate Sensible(o: CompressionOptions) {
    && (o.maxWidth.Some? ==> o.maxWidth.value > 0.0)
    && (o.maxHeight.Some? ==> o.maxHeight.value > 0.0)
    && (o.maxSizeKB.Some? ==> o.maxSizeKB.value >= 0.0)
  }

  /** The options matter only for an image: a file of another type is
      passed through before they are read. */
  predicate Admissible(file: File, options: CompressionOptions) {
    IsImageType(file.mimeType) ==> Sensible(options)
  }

  predicate ValidSettings(s: Settings) {
    s.maxWidth > 0.0 && s.maxHeight > 0.0 && s.maxSizeKB >= 0.0
  }

  /** The destructuring with defaults at the top of convertFileToBase64. */
  function WithDefaults(o: CompressionOptions): (s: Settings)
    ensures o.maxWidth.Some? ==> s.maxWidth == o.maxWidth.value
    ensures o.maxHeight.Some? ==> s.maxHeight == o.maxHeight.value
    ensures o.quality.Some? ==> s.quality == o.quality.value
    ensures o.maxSizeKB.Some? ==> s.maxSizeKB == o.maxSizeKB.value
    ensures o.outputFormat.Some? ==> s.outputFormat == o.outputFormat.value
    ensures o.maxWidth.None? ==> s.maxWidth == 1920.0
    ensures o.maxHeight.None? ==> s.maxHeight == 1080.0
    ensures o.quality.None? ==> s.quality == 0.8
    ensures o.maxSizeKB.None? ==> s.maxSizeKB == 500.0
    ensures o.outputFormat.None? ==> s.outputFormat == Jpeg
    ensures Sensible(o) ==> ValidSettings(s)
  {
    Settings(
      o.maxWidth.GetOr(DefaultSettings.maxWidth),
      o.maxHeight.GetOr(DefaultSettings.maxHeight),
      o.quality.GetOr(DefaultSettings.quality),
      o.maxSizeKB.GetOr(DefaultSettings.maxSizeKB),
      o.outputFormat.GetOr(DefaultSettings.outputFormat))
  }

  /** Options that spell out every field of `s`. */
  function Supplied(s: Settings): CompressionOptions {
    CompressionOptions(Some(s.maxWidth), Some(s.maxHeight), Some(s.quality), Some(s.maxSizeKB), Some(s.outputFormat))
  }

  /** Defaults only fill gaps: fully supplied options come back unchanged,
      and no options at all give the default settings. */
  lemma DefaultsFillOnlyGaps(s: Settings)
    ensures WithDefaults(Supplied(s)) == s
    ensures WithDefaults(NoOptions) == DefaultSettings
  {
  }

  // ---------------------------------------------------------------------
  // Resize arithmetic
  // ---------------------------------------------------------------------

  datatype Dims = Dims(width: nat, height: nat)

  /** The guard of the resize: one side is over its bound. */
  predicate Exceeds(d: Dims, maxWidth: real, maxHeight: real)
    ensures !Exceeds(d, maxWidth, maxHeight) <==> d.width as real <= maxWidth && d.height as real <= maxHeight
  {
    d.width as real > maxWidth || d.height as real > maxHeight
  }

  function Max(a: real, b: real): real { if a >= b then a else b }

  /** `r` is a downscaling ratio that brings a `w` by `h` image within bounds. */
  predicate RatioFits(w: real, h: real, r: real, maxWidth: real, maxHeight: real) {
    w >= 0.0 && h >= 0.0 && 0.0 < r < 1.0 && w * r <= maxWidth && h * r <= maxHeight
  }

  /** `Math.min(maxWidth / width, maxHeight / height)` for an image of
      `w` by `h`. A zero side divides to +Infinity in IEEE arithmetic, so the
      other quotient is the minimum. */
  function ScaleRatio(w: real, h: real, maxWidth: real, maxHeight: real): (r: real)
    requires w >= 0.0 && h >= 0.0 && maxWidth > 0.0 && maxHeight > 0.0
    requires w > maxWidth || h > maxHeight
    ensures RatioFits(w, h, r, maxWidth, maxHeight)
    ensures w * r == maxWidth || h * r == maxHeight
  {
    if w == 0.0 then
      Quotient(maxHeight, h)
    else if h == 0.0 then
      Quotient(maxWidth, w)
    else
      var rw, rh := Quotient(maxWidth, w), Quotient(maxHeight, h);
      assert w * rw == maxWidth && h * rh == maxHeight;
      if rw <= rh then
        MulLe(rw, rh, h);
        rw
      else
        MulLe(rh, rw, w);
        rh
  }

  /** `Math.floor` of a non-negative number. */
  function FloorNat(x: real): (n: nat)
    requires x >= 0.0
    ensures n as real <= x < n as real + 1.0
  {
    x.Floor
  }

  /** One side of the image scaled by `r` and floored: `Math.floor(side * ratio)`
      for a ratio below one that keeps the side within its bound. */
  function FloorScaled(x: real, r: real, bound: real): (n: nat)
    requires x >= 0.0 && 0.0 < r < 1.0 && x * r <= bound
    ensures n as real <= x * r < n as real + 1.0
    ensures n as real <= bound && n as real <= x
  {
    MulLe(0.0, r, x);
    MulLe(r, 1.0, x);
    FloorNat(x * r)
  }

  /** Both sides of a `w` by `h` image scaled by `r` and floored. */
  function Downscaled(w: real, h: real, r: real, maxWidth: real, maxHeight: real): (t: Dims)
    requires RatioFits(w, h, r, maxWidth, maxHeight)
    ensures t.width as real <= maxWidth && t.height as real <= maxHeight
    ensures t.width as real <= w && t.height as real <= h
  {
    Dims(FloorScaled(w, r, maxWidth), FloorScaled(h, r, maxHeight))
  }

  /** The target canvas size: unchanged when it fits, otherwise both sides
      scaled by one ratio and floored. */
  function TargetSize(d: Dims, maxWidth: real, maxHeight: real): (t: Dims)
    requires maxWidth > 0.0 && maxHeight > 0.0
    ensures !Exceeds(d, maxWidth, maxHeight) ==> t == d
    ensures t.width as real <= maxWidth && t.height as real <= maxHeight
    ensures t.width <= d.width && t.height <= d.height
  {
    if Exceeds(d, maxWidth, maxHeight) then
      var w, h := d.width as real, d.height as real;
      Downscaled(w, h, ScaleRatio(w, h, maxWidth, maxHeight), maxWidth, maxHeight)
    else
      d
  }

  /** `t` is `d` with both sides multiplied by `r` and floored. */
  predicate FlooredBy(d: Dims, t: Dims, r: real) {
    && t.width as real <= d.width as real * r < t.width as real + 1.0
    && t.height as real <= d.height as real * r < t.height as real + 1.0
  }

  /** Cross-multiplied, the aspect ratios of `d` and `t` differ by less than
      one pixel of either side of `d`. */
  predicate AspectKept(d: Dims, t: Dims) {
    && t.width * d.height - t.height * d.width < d.width
    && t.height * d.width - t.width * d.height < d.height
  }

  /** A downscaled image is the floor of the common scaling of both sides. */
  lemma TargetIsFlooredScaling(d: Dims, maxWidth: real, maxHeight: real)
    requires maxWidth > 0.0 && maxHeight > 0.0
    requires Exceeds(d, maxWidth, maxHeight)
    ensures FlooredBy(d, TargetSize(d, maxWidth, maxHeight),
                      ScaleRatio(d.width as real, d.height as real, maxWidth, maxHeight))
  {
    var w, h := d.width as real, d.height as real;
    var r := ScaleRatio(w, h, maxWidth, maxHeight);
    assert TargetSize(d, maxWidth, maxHeight) == Downscaled(w, h, r, maxWidth, maxHeight);
    DownscaledIsFloored(d, r, maxWidth, maxHeight);
  }

  lemma DownscaledIsFloored(d: Dims, r: real, maxWidth: real, maxHeight: real)
    requires RatioFits(d.width as real, d.height as real, r, maxWidth, maxHeight)
    ensures FlooredBy(d, Downscaled(d.width as real, d.height as real, r, maxWidth, maxHeight), r)
  {
  }

  /** A downscaled image keeps its aspect ratio up to flooring. */
  lemma TargetKeepsAspect(d: Dims, maxWidth: real, maxHeight: real)
    requires maxWidth > 0.0 && maxHeight > 0.0
    requires d.width > 0 && d.height > 0
    ensures AspectKept(d, TargetSize(d, maxWidth, maxHeight))
  {
    var t := TargetSize(d, maxWidth, maxHeight);
    if Exceeds(d, maxWidth, maxHeight) {
      TargetIsFlooredScaling(d, maxWidth, maxHeight);
      FloorsKeepAspect(d, t, ScaleRatio(d.width as real, d.height as real, maxWidth, maxHeight));
    } else {
      assert t == d;
      assert d.width * d.height == d.height * d.width;
    }
  }

  /** Any common scaling, floored, keeps the aspect ratio up to one pixel. */
  lemma FloorsKeepAspect(d: Dims, t: Dims, r: real)
    requires d.width > 0 && d.height > 0
    requires FlooredBy(d, t, r)
    ensures AspectKept(d, t)
  {
    var u, v, a, b := d.width, d.height, t.width, t.height;
    var ur, vr, ar, br := u as real, v as real, a as real, b as real;
    FlooredCross(ar, br, ur, vr, r);
    FlooredCross(br, ar, vr, ur, r);
    CastProduct(a, v);
    CastProduct(b, u);
    CastDifference(a * v, b * u, u);
    CastDifference(b * u, a * v, v);
  }

  lemma CastProduct(a: nat, b: nat)
    ensures (a * b) as real == a as real * b as real
  {
  }

  lemma CastDifference(a: int, b: int, c: int)
    requires a as real - b as real < c as real
    ensures a - b < c
  {
  }

  // Real-arithmetic steps the solver is given one at a time.

  lemma MulLe(x: real, y: real, z: real)
    requires x <= y && z >= 0.0
    ensures z * x <= z * y
  {
    assert z * (y - x) >= 0.0;
  }

  lemma MulLt(x: real, y: real, z: real)
    requires x < y && z > 0.0
    ensures z * x < z * y
  {
    assert z * (y - x) > 0.0;
  }

  /** The quotient `a / b` of two positive numbers. */
  function Quotient(a: real, b: real): (q: real)
    requires a > 0.0 && b > 0.0
    ensures b * q == a && q > 0.0
    ensures a < b ==> q < 1.0
  {
    QuotientFacts(a, b);
    a / b
  }

  lemma QuotientFacts(a: real, b: real)
    requires a > 0.0 && b > 0.0
    ensures b * (a / b) == a
    ensures a / b > 0.0
    ensures a < b ==> a / b < 1.0
  {
    var q := a / b;
    assert b * q == a;
    if q <= 0.0 {
      MulLe(q, 0.0, b);
    }
    if a < b && q >= 1.0 {
      MulLe(1.0, q, b);
    }
  }

  lemma Gap(p: real, q: real, x: real, d: real)
    requires p <= x && x - d < q
    ensures p - q < d
  {
  }

  /** Floors `a` of `u * r` and `b` of `v * r`: cross-multiplied they differ by less than `u`. */
  lemma FlooredCross(a: real, b: real, u: real, v: real, r: real)
    requires u > 0.0 && v > 0.0
    requires a <= u * r && v * r < b + 1.0
    ensures a * v - b * u < u
  {
    var x, y := u * r, v * r;
    assert x * v == y * u;
    MulLe(a, x, v);
    MulLt(y - 1.0, b, u);
    assert u * (y - 1.0) == y * u - u;
    Gap(a * v, b * u, y * u, u);
  }

  // ---------------------------------------------------------------------
  // Byte budget and retry quality
  // ---------------------------------------------------------------------

  /** `maxSizeKB && blob.size > maxSizeKB * 1024`: a zero budget is falsy. */
  predicate NeedsRetry(maxSizeKB: real, size: nat)
    ensures maxSizeKB == 0.0 ==> !NeedsRetry(maxSizeKB, size)
    ensures maxSizeKB >= 0.0 ==>
      (NeedsRetry(maxSizeKB, size) <==> maxSizeKB > 0.0 && size as real > maxSizeKB * 1024.0)
  {
    maxSizeKB != 0.0 && size as real > maxSizeKB * 1024.0
  }

  /** The quality of the corrective pass: the first quality scaled down by the
      budget-to-size ratio, floored at 0.1. */
  function RetryQuality(quality: real, maxSizeKB: real, size: nat): (q: real)
    requires maxSizeKB >= 0.0 && NeedsRetry(maxSizeKB, size)
    ensures 0.1 <= q <= Max(0.1, quality)
    ensures quality > 0.1 ==> q < quality
    ensures size as real * q >= quality * (maxSizeKB * 1024.0)
  {
    var budget, n := maxSizeKB * 1024.0, size as real;
    ScaledQuality(quality, budget, n);
    var scaled := quality * budget / n;
    MulLe(scaled, Max(0.1, scaled), n);
    Max(0.1, scaled)
  }

  /** `quality * budget / size` with a budget below the size. */
  lemma ScaledQuality(quality: real, budget: real, size: real)
    requires 0.0 < budget < size
    ensures size * (quality * budget / size) == quality * budget
    ensures quality >= 0.0 ==> quality * budget / size <= quality
    ensures quality > 0.0 ==> quality * budget / size < quality
    ensures quality <= 0.0 ==> quality * budget / size <= 0.0
  {
    var f := budget / size;
    QuotientFacts(budget, size);
    var scaled := quality * budget / size;
    assert size * scaled == quality * budget;
    assert size * (quality * f) == quality * budget;
    if scaled < quality * f {
      MulLt(scaled, quality * f, size);
    } else if scaled > quality * f {
      MulLt(quality * f, scaled, size);
    }
    assert scaled == quality * f;
    if quality >= 0.0 {
      MulLe(f, 1.0, quality);
    }
    if quality > 0.0 {
      MulLt(f, 1.0, quality);
    }
    if quality <= 0.0 {
      MulLe(quality, 0.0, f);
    }
  }

  // ---------------------------------------------------------------------
  // The browser, abstracted
  // ---------------------------------------------------------------------

  /** A user-selected file: its declared type and its bytes (`size` is their count). */
  datatype File = File(mimeType: string, data: seq<Byte>)

  /** What the canvas holds when it is encoded: the decoded picture of these
      bytes, drawn at this size. */
  datatype Surface = Surface(picture: seq<Byte>, width: nat, height: nat)

  /** The arguments of one canvas.toBlob call. */
  datatype EncodeRequest = EncodeRequest(surface: Surface, format: Format, quality: real)

  /** What toBlob hands to its callback when it is not null. */
  datatype Blob = Blob(mimeType: string, data: seq<Byte>)

  /** The browser services the pipeline calls, as values:
      whether FileReader succeeds on the file and on blobs, what the Image
      element decodes a data URL's bytes to (None fires onerror), whether
      getContext('2d') returns a context, and what toBlob yields. */
  datatype Browser = Browser(
    fileReadable: bool,
    blobReadable: bool,
    decode: seq<Byte> -> Option<Dims>,
    hasContext: bool,
    encode: EncodeRequest -> Option<Blob>)

  /** A rejection: an Error with its message, or the event FileReader's
      onerror passes on, which is not an Error. */
  datatype Failure = Thrown(message: string) | ReadEvent

  const ContextMessage := "Impossible de créer le contexte canvas"
  const CompressionMessage := "Échec de la compression"
  const SecondaryMessage := "Échec de la compression secondaire"
  const LoadMessage := "Erreur de chargement de l'image"
  const UnknownMessage := "Erreur inconnue"

  /** Every rejection convertFileToBase64 can produce. */
  predicate KnownFailure(f: Failure)
    ensures KnownFailure(f) ==>
      ErrorText(f) in {ContextMessage, CompressionMessage, SecondaryMessage, LoadMessage, UnknownMessage}
  {
    f in {ReadEvent, Thrown(LoadMessage), Thrown(ContextMessage), Thrown(CompressionMessage), Thrown(SecondaryMessage)}
  }

  /** `type.startsWith('image/')`. */
  predicate IsImageType(t: string)
    ensures IsImageType(t) <==> |t| >= 6 && t[..6] == "image/"
  {
    "image/" <= t
  }

  /** convertBlobToBase64: FileReader.readAsDataURL on a blob. */
  function ReadBlob(b: Blob, env: Browser): (r: Result<DataUrl, Failure>)
    ensures r.Ok? <==> env.blobReadable
    ensures r.Ok? ==> r.value == DataUrl(b.mimeType, b.data)
  {
    if env.blobReadable then Ok(DataUrl(b.mimeType, b.data)) else Err(ReadEvent)
  }

  /** The outcome of convertFileToBase64 and the encode requests it made. */
  datatype Conversion = Conversion(result: Result<DataUrl, Failure>, requests: seq<EncodeRequest>)

  /** convertFileToBase64 as a function of its inputs and the browser. */
  function Convert(file: File, options: CompressionOptions, env: Browser): (c: Conversion)
    requires Admissible(file, options)
    ensures c.result.Err? ==> KnownFailure(c.result.error)
  {
    var s := WithDefaults(options);
    if !IsImageType(file.mimeType) then
      Conversion(if env.fileReadable then Ok(DataUrl(file.mimeType, file.data)) else Err(ReadEvent), [])
    else if !env.fileReadable then
      Conversion(Err(ReadEvent), [])
    else
      match env.decode(file.data)
      case None => Conversion(Err(Thrown(LoadMessage)), [])
      case Some(d) => OnLoad(file.data, d, s, env)
  }

  /** The `img.onload` handler: resize, then the first encode and, over
      budget, the one corrective encode of the same canvas. */
  function OnLoad(picture: seq<Byte>, d: Dims, s: Settings, env: Browser): (c: Conversion)
    requires ValidSettings(s)
    ensures c.result.Err? ==> KnownFailure(c.result.error)
  {
    var t := TargetSize(d, s.maxWidth, s.maxHeight);
    if !env.hasContext then
      Conversion(Err(Thrown(ContextMessage)), [])
    else
      var first := EncodeRequest(Surface(picture, t.width, t.height), s.outputFormat, s.quality);
      match env.encode(first)
      case None => Conversion(Err(Thrown(CompressionMessage)), [first])
      case Some(blob) =>
        if NeedsRetry(s.maxSizeKB, |blob.data|) then
          var second := first.(quality := RetryQuality(s.quality, s.maxSizeKB, |blob.data|));
          match env.encode(second)
          case None => Conversion(Err(Thrown(SecondaryMessage)), [first, second])
          case Some(smaller) => Conversion(ReadBlob(smaller, env), [first, second])
        else
          Conversion(ReadBlob(blob, env), [first])
  }

  /** A file that is not an image is read back as a data URL of its own type
      and bytes, whatever the options, and nothing is encoded. */
  lemma NonImagePassesThrough(file: File, options: CompressionOptions, env: Browser)
    requires !IsImageType(file.mimeType)
    ensures Convert(file, options, env).requests == []
    ensures Convert(file, options, env).result ==
      if env.fileReadable then Ok(DataUrl(file.mimeType, file.data)) else Err(ReadEvent)
  {
  }

  /** At most two encodes. The first uses the requested format and quality on
      the target-size surface; a second happens exactly when the first blob
      exists and is over a non-zero budget, and it re-encodes the same surface
      at the retry quality, which is floored at 0.1. */
  lemma EncodePolicy(file: File, options: CompressionOptions, env: Browser)
    requires Admissible(file, options)
    ensures var c, s := Convert(file, options, env), WithDefaults(options);
      && |c.requests| <= 2
      && (IsImageType(file.mimeType) && env.fileReadable && env.decode(file.data).Some? && env.hasContext ==>
            |c.requests| >= 1)
      && (|c.requests| >= 1 ==>
            && IsImageType(file.mimeType) && env.fileReadable && env.hasContext
            && env.decode(file.data).Some?
            && var t := TargetSize(env.decode(file.data).value, s.maxWidth, s.maxHeight);
               c.requests[0] == EncodeRequest(Surface(file.data, t.width, t.height), s.outputFormat, s.quality))
      && (|c.requests| == 2 <==>
            && |c.requests| >= 1
            && env.encode(c.requests[0]).Some?
            && NeedsRetry(s.maxSizeKB, |env.encode(c.requests[0]).value.data|))
      && (|c.requests| == 2 ==>
            && c.requests[1].surface == c.requests[0].surface
            && c.requests[1].format == c.requests[0].format
            && c.requests[1].quality == RetryQuality(s.quality, s.maxSizeKB, |env.encode(c.requests[0]).value.data|)
            && 0.1 <= c.requests[1].quality <= Max(0.1, s.quality))
  {
  }

  /** Every encoded surface is within the bounds and no larger than the decoded image. */
  lemma EncodedSurfacesAreBounded(file: File, options: CompressionOptions, env: Browser)
    requires Admissible(file, options)
    ensures var c, s := Convert(file, options, env), WithDefaults(options);
      forall i :: 0 <= i < |c.requests| ==>
        && c.requests[i].surface.width as real <= s.maxWidth
        && c.requests[i].surface.height as real <= s.maxHeight
        && c.requests[i].surface.width <= env.decode(file.data).value.width
        && c.requests[i].surface.height <= env.decode(file.data).value.height
  {
  }

  /** An image result is the blob of the last encode, even when the second
      pass is still over budget: whenever the last encode gives a blob, that
      blob is read back and returned. Each failure has its own message and
      yields no data URL. */
  lemma ImageOutcome(file: File, options: CompressionOptions, env: Browser)
    requires Sensible(options) && IsImageType(file.mimeType)
    ensures var c := Convert(file, options, env);
      && (c.result.Ok? ==>
            && |c.requests| >= 1
            && env.encode(c.requests[|c.requests| - 1]).Some?
            && c.result == ReadBlob(env.encode(c.requests[|c.requests| - 1]).value, env))
      && (|c.requests| >= 1 && env.encode(c.requests[|c.requests| - 1]).Some? ==>
            c.result == ReadBlob(env.encode(c.requests[|c.requests| - 1]).value, env))
      && (!env.fileReadable ==> c.result == Err(ReadEvent))
      && (c.result == Err(Thrown(ContextMessage)) <==> env.fileReadable && env.decode(file.data).Some? && !env.hasContext)
      && (c.result == Err(Thrown(LoadMessage)) <==> env.fileReadable && env.decode(file.data).None?)
      && (c.result == Err(Thrown(CompressionMessage)) <==> |c.requests| == 1 && env.encode(c.requests[0]).None?)
      && (c.result == Err(Thrown(SecondaryMessage)) <==> |c.requests| == 2 && env.encode(c.requests[1]).None?)
  {
  }

  // ---------------------------------------------------------------------
  // The canvas and convertFileToBase64 as the source runs it
  // ---------------------------------------------------------------------

  /** An HTML canvas: its size, what was drawn on it, and the log of toBlob calls. */
  class Canvas {
    var width: nat
    var height: nat
    var picture: seq<Byte>
    var requests: seq<EncodeRequest>

    /** document.createElement('canvas'): 300 by 150 and blank. */
    constructor ()
      ensures width == 300 && height == 150 && picture == [] && requests == []
    {
      width, height, picture, requests := 300, 150, [], [];
    }

    /** ctx.drawImage(img, 0, 0, width, height): paints the decoded image over the whole canvas. */
    method DrawImage(image: seq<Byte>)
      modifies this`picture
      ensures picture == image
    {
      picture := image;
    }

    /** canvas.toBlob(callback, format, quality): one encode of the current surface. */
    method ToBlob(encode: EncodeRequest -> Option<Blob>, format: Format, quality: real) returns (blob: Option<Blob>)
      modifies this`requests
      ensures requests == old(requests) + [EncodeRequest(Surface(picture, width, height), format, quality)]
      ensures blob == encode(EncodeRequest(Surface(picture, width, height), format, quality))
    {
      var request := EncodeRequest(Surface(picture, width, height), format, quality);
      requests := requests + [request];
      blob := encode(request);
    }
  }

  /** convertFileToBase64, step by step: defaults, type check, decode, resize,
      canvas, first encode, and the single corrective encode. */
  method ConvertFileToBase64(file: File, options: CompressionOptions, env: Browser)
    returns (result: Result<DataUrl, Failure>, requests: seq<EncodeRequest>)
    requires Admissible(file, options)
    ensures Conversion(result, requests) == Convert(file, options, env)
  {
    var s := WithDefaults(options);
    requests := [];
    if !IsImageType(file.mimeType) {
      result := if env.fileReadable then Ok(DataUrl(file.mimeType, file.data)) else Err(ReadEvent);
      return;
    }
    if !env.fileReadable {
      result := Err(ReadEvent);
      return;
    }
    var decoded := env.decode(file.data);
    if decoded.None? {
      result := Err(Thrown(LoadMessage));
      return;
    }
    result, requests := ImageLoaded(file.data, decoded.value, s, env);
  }

  /** The dimension update at the start of the `img.onload` handler: the
      image's own size, replaced by the floored scaling when a side is over
      its bound. */
  method NewDimensions(image: Dims, maxWidth: real, maxHeight: real) returns (width: nat, height: nat)
    requires maxWidth > 0.0 && maxHeight > 0.0
    ensures Dims(width, height) == TargetSize(image, maxWidth, maxHeight)
  {
    width, height := image.width, image.height;
    if width as real > maxWidth || height as real > maxHeight {
      var w, h := width as real, height as real;
      var ratio := ScaleRatio(w, h, maxWidth, maxHeight);
      width := FloorScaled(w, ratio, maxWidth);
      height := FloorScaled(h, ratio, maxHeight);
      assert TargetSize(image, maxWidth, maxHeight) == Downscaled(w, h, ratio, maxWidth, maxHeight);
    }
  }

  /** The `img.onload` handler: compute the target size, size the canvas,
      draw, encode, and re-encode once if the blob is over budget. */
  method ImageLoaded(picture: seq<Byte>, image: Dims, s: Settings, env: Browser)
    returns (result: Result<DataUrl, Failure>, requests: seq<EncodeRequest>)
    requires ValidSettings(s)
    ensures Conversion(result, requests) == OnLoad(picture, image, s, env)
  {
    var width, height := NewDimensions(image, s.maxWidth, s.maxHeight);
    var canvas := new Canvas();
    canvas.width, canvas.height := width, height;
    requests := [];
    if !env.hasContext {
      result := Err(Thrown(ContextMessage));
      return;
    }
    canvas.DrawImage(picture);
    var blob := canvas.ToBlob(env.encode, s.outputFormat, s.quality);
    if blob.None? {
      result, requests := Err(Thrown(CompressionMessage)), canvas.requests;
      return;
    }
    var size := |blob.value.data|;
    if NeedsRetry(s.maxSizeKB, size) {
      var newQuality := RetryQuality(s.quality, s.maxSizeKB, size);
      var compressed := canvas.ToBlob(env.encode, s.outputFormat, newQuality);
      if compressed.None? {
        result, requests := Err(Thrown(SecondaryMessage)), canvas.requests;
        return;
      }
      result := ReadBlob(compressed.value, env);
    } else {
      result := ReadBlob(blob.value, env);
    }
    requests := canvas.requests;
  }

  // ---------------------------------------------------------------------
  // compressAndConvertImage and useImageUpload
  // ---------------------------------------------------------------------

  /** `originalSize > 0 ? compressedSize / originalSize : 1`. */
  function CompressionRatio(compressedSize: nat, originalSize: nat): (r: real)
    ensures r >= 0.0
    ensures originalSize == 0 ==> r == 1.0
    ensures originalSize > 0 ==> r * originalSize as real == compressedSize as real
  {
    if originalSize > 0 then compressedSize as real / originalSize as real else 1.0
  }

  /** The record compressAndConvertImage resolves with. */
  datatype Info = Info(
    base64: string,
    originalSize: nat,
    compressedSize: nat,
    width: nat,
    height: nat,
    compressionRatio: real)

  /** A promise that resolves, rejects, or never settles. */
  datatype Settlement<+T> = Resolved(value: T) | Rejected(failure: Failure) | Pending

  /** compressAndConvertImage: convert, estimate the size from the text,
      then load the result as an image to read its dimensions; that load has
      no error handler, so a result that does not decode never settles. */
  function CompressAndConvertImage(file: File, options: CompressionOptions, env: Browser): (s: Settlement<Info>)
    requires Admissible(file, options)
    ensures var c := Convert(file, options, env);
      && (s.Rejected? <==> c.result.Err?)
      && (s.Rejected? ==> s.failure == c.result.error)
      && (s.Pending? <==> c.result.Ok? && env.decode(c.result.value.data).None?)
    ensures var c := Convert(file, options, env);
      s.Resolved? ==>
        && s.value.base64 == Text(c.result.value)
        && s.value.originalSize == |file.data|
        && Dims(s.value.width, s.value.height) == env.decode(c.result.value.data).value
        && s.value.compressedSize == SizeEstimate(s.value.base64)
        && s.value.compressedSize <= |s.value.base64|
        && s.value.compressionRatio == CompressionRatio(s.value.compressedSize, s.value.originalSize)
  {
    var c := Convert(file, options, env);
    match c.result
    case Err(f) => Rejected(f)
    case Ok(url) =>
      var text := Text(url);
      var compressedSize := SizeEstimate(text);
      match env.decode(url.data)
      case None => Pending
      case Some(d) =>
        Resolved(Info(text, |file.data|, compressedSize, d.width, d.height, CompressionRatio(compressedSize, |file.data|)))
  }

  /** The reported compressed size is the result's true byte count rounded up
      to whole base64 quanta: never below it and at most 2 bytes above. */
  lemma ReportedSizeTracksResult(file: File, options: CompressionOptions, env: Browser)
    requires Admissible(file, options)
    requires Convert(file, options, env).result.Ok?
    requires var mt := Convert(file, options, env).result.value.mediaType;
      forall i :: 0 <= i < |mt| ==> mt[i] != ','
    ensures var s, n := CompressAndConvertImage(file, options, env), |Convert(file, options, env).result.value.data|;
      s.Resolved? ==>
        && s.value.compressedSize == 3 * ((n + 2) / 3)
        && n <= s.value.compressedSize <= n + 2
  {
    EstimateOfDataUrl(Convert(file, options, env).result.value);
  }

  /** A browser whose decoder reads back, from every blob its encoder
      produces, the size of the surface that was encoded. */
  ghost predicate ReadsBackSize(env: Browser) {
    forall r: EncodeRequest :: env.encode(r).Some? ==>
      env.decode(env.encode(r).value.data) == Some(Dims(r.surface.width, r.surface.height))
  }

  /** In such a browser, the width and height compressAndConvertImage reports
      for an image are its target size: within the bounds, no larger than the
      decoded file, and of the same aspect ratio to within one pixel. */
  lemma ReportedDimensionsAreTarget(file: File, options: CompressionOptions, env: Browser)
    requires Sensible(options) && IsImageType(file.mimeType) && ReadsBackSize(env)
    ensures var s, o := CompressAndConvertImage(file, options, env), WithDefaults(options);
      s.Resolved? ==>
        && env.decode(file.data).Some?
        && var d, t := env.decode(file.data).value, Dims(s.value.width, s.value.height);
        && t == TargetSize(d, o.maxWidth, o.maxHeight)
        && t.width as real <= o.maxWidth && t.height as real <= o.maxHeight
        && t.width <= d.width && t.height <= d.height
        && (d.width > 0 && d.height > 0 ==> AspectKept(d, t))
  {
    var s, o := CompressAndConvertImage(file, options, env), WithDefaults(options);
    if s.Resolved? {
      var c := Convert(file, options, env);
      ImageOutcome(file, options, env);
      EncodePolicy(file, options, env);
      var last := c.requests[|c.requests| - 1];
      assert last.surface == c.requests[0].surface;
      var d := env.decode(file.data).value;
      assert env.decode(env.encode(last).value.data) == Some(Dims(last.surface.width, last.surface.height));
      if d.width > 0 && d.height > 0 {
        TargetKeepsAspect(d, o.maxWidth, o.maxHeight);
      }
    }
  }

  /** `Math.round`: to the nearest integer, halves upward. */
  function Round(x: real): (n: int)
    ensures n as real - 0.5 <= x < n as real + 0.5
  {
    (x + 0.5).Floor
  }

  /** The record uploadImage returns. The message of the success case is
      represented by the percentage it shows. */
  datatype UploadResult = Uploaded(data: Info, percent: int) | UploadFailed(error: string)

  /** `error instanceof Error ? error.message : 'Erreur inconnue'`. */
  function ErrorText(f: Failure): (m: string)
    ensures f.Thrown? ==> m == f.message
    ensures f == ReadEvent ==> m == UnknownMessage
  {
    match f
    case Thrown(m) => m
    case ReadEvent => UnknownMessage
  }

  /** uploadImage of useImageUpload: never rejects; None when the underlying
      promise never settles. */
  function UploadImage(file: File, options: CompressionOptions, env: Browser): (r: Option<UploadResult>)
    requires Admissible(file, options)
    ensures var s := CompressAndConvertImage(file, options, env);
      && (r.None? <==> s.Pending?)
      && (r.Some? && r.value.Uploaded? <==> s.Resolved?)
      && (s.Resolved? ==> r.value.data == s.value)
    ensures var s := CompressAndConvertImage(file, options, env);
      && (s.Rejected? ==> r == Some(UploadFailed(ErrorText(s.failure))))
      && (s.Resolved? ==> r.value.percent == Round(s.value.compressionRatio * 100.0))
    ensures r.Some? && r.value.UploadFailed? ==>
      r.value.error in {ContextMessage, CompressionMessage, SecondaryMessage, LoadMessage, UnknownMessage}
  {
    match CompressAndConvertImage(file, options, env)
    case Pending => None
    case Rejected(f) => Some(UploadFailed(ErrorText(f)))
    case Resolved(info) => Some(Uploaded(info, Round(info.compressionRatio * 100.0)))
  }

  // ---------------------------------------------------------------------
  // The creation form's options
  // ---------------------------------------------------------------------

  /** `{ maxWidth: 800, quality: 0.1, maxSizeKB: 100 }` from the creation form. */
  const ModalOptions := CompressionOptions(Some(800.0), None, Some(0.1), Some(100.0), None)

  /** With the form's options the height bound defaults to 1080, and a
      2000 by 1000 image is scaled by min(0.4, 1.08) = 0.4 to 800 by 400. */
  lemma ModalScenario()
    ensures WithDefaults(ModalOptions) == Settings(800.0, 1080.0, 0.1, 100.0, Jpeg)
    ensures ScaleRatio(2000.0, 1000.0, 800.0, 1080.0) == 0.4
    ensures TargetSize(Dims(2000, 1000), 800.0, 1080.0) == Dims(800, 400)
  {
    var r := ScaleRatio(2000.0, 1000.0, 800.0, 1080.0);
    assert 800.0 / 2000.0 == 0.4 && 1080.0 / 1000.0 == 1.08;
    assert r == 0.4;
    assert 2000.0 * r == 800.0 && 1000.0 * r == 400.0;
  }

  /** The form asks for quality 0.1, which is already the floor: a retry
      re-encodes the same surface at the same quality, so (the encoder being
      a function of its request) it yields the first blob again and the
      outcome is that of the first pass. */
  lemma ModalRetryRepeatsFirstPass(file: File, env: Browser)
    requires IsImageType(file.mimeType)
    ensures var c := Convert(file, ModalOptions, env);
      && (|c.requests| == 2 ==> c.requests[1] == c.requests[0])
      && c.result != Err(Thrown(SecondaryMessage))
      && (|c.requests| >= 1 && env.encode(c.requests[0]).Some? ==>
            c.result == ReadBlob(env.encode(c.requests[0]).value, env))
  {
    var c := Convert(file, ModalOptions, env);
    EncodePolicy(file, ModalOptions, env);
    if |c.requests| == 2 {
      assert c.requests[1].quality == 0.1;
    }
  }
}
