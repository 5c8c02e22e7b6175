/**
 * `processImages`: composites every image, in order, onto a fixed 640x480
 * canvas over the selected background and encodes the result. Decoding and
 * encoding are browser calls; a `Codec` stands for them, and its decoder may
 * fail. Drawing is recorded as the list of operations issued on the canvas.
 */
module ImageUtils {
  import opened Wrappers
  import opened Entities
  import Seqs

  const CanvasWidth := 640
  const CanvasHeight := 480
  const PhotoX := 180
  const PhotoY := 65
  const PhotoWidth := 280
  const PhotoHeight := 350

  const White := "#FFFFFF"
  const LightBlue := "#E6F0FF"
  const LightGray := "#F3F4F6"

  /** The predefined backgrounds, by id. */
  const Palette: map<int, string> := map[1 := White, 2 := LightBlue, 3 := LightGray]

  /** The background selection: `{ type: 'custom', file }` or a predefined `{ id }`. */
  datatype Background = Custom(file: FileRef) | Preset(id: int)

  /** A decoded image; only its size is visible to the model. */
  datatype Bitmap = Bitmap(width: nat, height: nat)

  datatype Rect = Rect(x: int, y: int, w: int, h: int)

  datatype DrawOp = FillRect(color: string, area: Rect) | DrawImage(bitmap: Bitmap, area: Rect)

  /** A canvas with its size and the drawing operations issued on it, oldest first. */
  datatype Canvas = Canvas(width: nat, height: nat, ops: seq<DrawOp>)

  /**
   * `createImageBitmap` (None when the file cannot be decoded), `toDataURL` and
   * `toBlob` of a JPEG at quality 0.9.
   */
  datatype Codec = Codec(decode: FileRef -> Option<Bitmap>, toDataUrl: Canvas -> string, toBlob: Canvas -> seq<byte>)

  /** The rejection of `processImages`: the file that could not be decoded. */
  datatype DecodeError = DecodeError(file: FileRef)

  const FullCanvas := Rect(0, 0, CanvasWidth, CanvasHeight)
  const PhotoBox := Rect(PhotoX, PhotoY, PhotoWidth, PhotoHeight)

  predicate Inside(r: Rect, width: int, height: int) {
    0 <= r.x && 0 <= r.y && r.x + r.w <= width && r.y + r.h <= height
  }

  /** `bgColors[id] || '#FFFFFF'`. */
  function PaletteColor(id: int): (color: string)
    ensures color == White || color == LightBlue || color == LightGray
    ensures color == White <==> id !in {2, 3}
    ensures id == 2 ==> color == LightBlue
    ensures id == 3 ==> color == LightGray
  {
    if id in Palette then Palette[id] else White
  }

  /** The photo box lies inside the canvas, away from its edges. */
  lemma PhotoBoxInsideCanvas()
    ensures Inside(PhotoBox, CanvasWidth, CanvasHeight)
    ensures PhotoBox.w > 0 && PhotoBox.h > 0
  {
  }

  /**
   * What the loop body does for one image, up to encoding: the background first
   * (the decoded custom image stretched over the whole canvas, or a fill in the
   * palette colour, white without a selection), then the photo stretched into
   * the fixed box. The background is decoded before the photo.
   */
  function Composite(photo: FileRef, background: Option<Background>, codec: Codec): (r: Result<Canvas, DecodeError>)
    ensures r.Failure? <==>
      (background.Some? && background.value.Custom? && codec.decode(background.value.file).None?)
      || codec.decode(photo).None?
    ensures r.Failure? && background.Some? && background.value.Custom? && codec.decode(background.value.file).None? ==>
      r.error == DecodeError(background.value.file)
    ensures r.Failure? && !(background.Some? && background.value.Custom? && codec.decode(background.value.file).None?) ==>
      r.error == DecodeError(photo)
    ensures r.Success? ==> r.value.width == CanvasWidth && r.value.height == CanvasHeight && |r.value.ops| == 2
    ensures r.Success? ==> r.value.ops[0].area == FullCanvas
    ensures r.Success? ==> r.value.ops[1] == DrawImage(codec.decode(photo).value, PhotoBox)
    ensures r.Success? ==> (r.value.ops[0].DrawImage? <==> background.Some? && background.value.Custom?)
    ensures r.Success? && background.Some? && background.value.Custom? ==>
      r.value.ops[0] == DrawImage(codec.decode(background.value.file).value, FullCanvas)
    ensures r.Success? && r.value.ops[0].FillRect? ==>
      r.value.ops[0].color == if background.None? then White else PaletteColor(background.value.id)
  {
    var backdrop :=
      if background.Some? && background.value.Custom? then
        match codec.decode(background.value.file)
        case None => Failure(DecodeError(background.value.file))
        case Some(bg) => Success(DrawImage(bg, FullCanvas))
      else if background.Some? then Success(FillRect(PaletteColor(background.value.id), FullCanvas))
      else Success(FillRect(White, FullCanvas));
    if backdrop.Failure? then Failure(backdrop.error)
    else match codec.decode(photo)
      case None => Failure(DecodeError(photo))
      case Some(img) => Success(Canvas(CanvasWidth, CanvasHeight, [backdrop.value, DrawImage(img, PhotoBox)]))
  }

  /** One iteration of the loop: composite, then `{ ...image, resultPreview, resultBlob }`. */
  function Render(image: Tagged, background: Option<Background>, codec: Codec): (r: Result<ProcessedImage, DecodeError>)
    ensures r.Failure? <==> Composite(image.image.file, background, codec).Failure?
    ensures r.Failure? ==> r.error == Composite(image.image.file, background, codec).error
    ensures r.Success? ==> r.value.source == image
    ensures r.Success? ==>
      var c := Composite(image.image.file, background, codec).value;
      r.value.resultPreview == codec.toDataUrl(c) && r.value.resultBlob == codec.toBlob(c)
  {
    match Composite(image.image.file, background, codec)
    case Failure(e) => Failure(e)
    case Success(canvas) => Success(ProcessedImage(image, codec.toDataUrl(canvas), codec.toBlob(canvas)))
  }

  /** `Math.round((i + 1) / n * 100)` in integers: round half up of (i+1)*100/n. */
  function Percent(i: nat, n: nat): int
    requires i < n
  {
    ((i + 1) * 200 + n) / (2 * n)
  }

  /** The progress values reported after the first `k` of `n` items. */
  function ProgressTrace(k: nat, n: nat): (t: seq<int>)
    requires k <= n
    ensures |t| == k
  {
    seq(k, i requires 0 <= i < k => Percent(i, n))
  }

  lemma MulMonotone(x: int, y: int, d: nat)
    ensures x <= y ==> x * d <= y * d
  {
  }

  lemma DivMonotone(a: nat, b: nat, d: nat)
    requires a <= b && d > 0
    ensures a / d <= b / d
  {
    var qa, qb := a / d, b / d;
    assert qa * d <= a && b < (qb + 1) * d;
    MulMonotone(qb + 1, qa, d);
  }

  /** Progress never goes back, and the last value is exactly 100. */
  lemma ProgressMonotone(i: nat, j: nat, n: nat)
    requires i <= j < n
    ensures Percent(i, n) <= Percent(j, n)
  {
    DivMonotone((i + 1) * 200 + n, (j + 1) * 200 + n, 2 * n);
  }

  lemma ProgressEndsAtHundred(n: nat)
    requires n > 0
    ensures Percent(n - 1, n) == 100
  {
  }

  /** The whole trace of a completed batch is non-decreasing, within 0..100, and ends at 100. */
  lemma ProgressTraceShape(n: nat)
    requires n > 0
    ensures forall i, j :: 0 <= i <= j < n ==> ProgressTrace(n, n)[i] <= ProgressTrace(n, n)[j]
    ensures forall i :: 0 <= i < n ==> 0 <= ProgressTrace(n, n)[i] <= 100
    ensures ProgressTrace(n, n)[n - 1] == 100
  {
    var t := ProgressTrace(n, n);
    forall i, j | 0 <= i <= j < n
      ensures t[i] <= t[j]
    {
      ProgressMonotone(i, j, n);
    }
    forall i | 0 <= i < n
      ensures 0 <= t[i] <= 100
    {
      ProgressInRange(i, n);
    }
    ProgressEndsAtHundred(n);
  }

  /** Every reported value is a percentage. */
  lemma ProgressInRange(i: nat, n: nat)
    requires i < n
    ensures 0 <= Percent(i, n) <= 100
  {
    ProgressMonotone(i, n - 1, n);
    ProgressEndsAtHundred(n);
  }

  /** Scenario: five items report 20, 40, 60, 80, 100. */
  lemma FiveItemsProgress()
    ensures ProgressTrace(5, 5) == [20, 40, 60, 80, 100]
  {
  }

  /** The index of the first image whose compositing fails, if any. */
  function FirstFailure(images: seq<Tagged>, background: Option<Background>, codec: Codec): Option<nat> {
    Seqs.FirstIndex(images, (t: Tagged) => Render(t, background, codec).Failure?)
  }

  /**
   * `processImages`: the images are processed strictly in order and progress is
   * reported after each one. The first decoding failure rejects the whole call:
   * no partial result, and progress has then been reported once per image before it.
   */
  method ProcessImages(images: seq<Tagged>, background: Option<Background>, codec: Codec)
    returns (result: Result<seq<ProcessedImage>, DecodeError>, progress: seq<int>)
    ensures result.Success? <==> FirstFailure(images, background, codec).None?
    ensures result.Success? ==> |result.value| == |images|
    ensures result.Success? ==> forall i :: 0 <= i < |images| ==>
      Render(images[i], background, codec) == Success(result.value[i]) && result.value[i].source == images[i]
    ensures result.Success? ==> progress == ProgressTrace(|images|, |images|)
    ensures result.Failure? ==>
      var k := FirstFailure(images, background, codec).value;
      && progress == ProgressTrace(k, |images|)
      && Render(images[k], background, codec) == Failure(result.error)
  {
    var processed: seq<ProcessedImage> := [];
    progress := [];
    var n := |images|;
    for i := 0 to n
      invariant |processed| == i
      invariant forall j :: 0 <= j < i ==> Render(images[j], background, codec) == Success(processed[j])
      invariant progress == ProgressTrace(i, n)
    {
      var item := Render(images[i], background, codec);
      if item.Failure? {
        ghost var failed := (t: Tagged) => Render(t, background, codec).Failure?;
        assert failed(images[i]);
        assert forall j :: 0 <= j < i ==> !failed(images[j]);
        return Failure(item.error), progress;
      }
      processed := processed + [item.value];
      progress := progress + [Percent(i, n)];
    }
    return Success(processed), progress;
  }
}
