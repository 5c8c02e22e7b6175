/**
 * The processing step: pairing uploaded photos with employee records by file
 * name, and running the batch when the user asks for it.
 */
module ImageProcessor {
  import opened Wrappers
  import opened Entities
  import opened JsStrings
  import opened ExcelUtils
  import Seqs
  import ImageUtils
  import AppState

  /** The file name, lowercased, before its last dot; "" when it has no dot (`substring(0, -1)`). */
  function BaseName(name: string): string {
    var fileName := Lower(name);
    Substring(fileName, 0, LastIndexOf(fileName, '.'))
  }

  lemma BaseNameCases(name: string)
    ensures LastIndexOf(name, '.') == -1 ==> BaseName(name) == ""
    ensures LastIndexOf(name, '.') >= 0 ==> BaseName(name) == Lower(name[..LastIndexOf(name, '.')])
  {
    LastIndexOfLower(name);
  }

  /**
   * The predicate given to `employeeData.find`: the record's `codigo_img`,
   * lowercased, equals the lowercased file name or its base name.
   */
  predicate MatchesImage(e: Row, name: string) {
    && CodeImageColumn in e
    && (Lower(e[CodeImageColumn]) == Lower(name) || Lower(e[CodeImageColumn]) == BaseName(name))
  }

  /** The position of the record `find` returns for a file name. */
  function MatchIndex(employees: seq<Row>, name: string): Option<nat> {
    Seqs.FirstIndex(employees, (e: Row) => MatchesImage(e, name))
  }

  /** One iteration of `findMatches`: the image tagged with its record, or as unmatched. */
  function MatchImage(employees: seq<Row>, image: UploadedImage): (t: Tagged)
    requires forall e :: e in employees ==> WellDerived(e)
    ensures t.image == image
    ensures t.Matched? <==> exists j :: 0 <= j < |employees| && MatchesImage(employees[j], image.name)
    ensures t.Matched? ==> exists j :: (0 <= j < |employees| && t.employeeData == employees[j]
      && MatchesImage(employees[j], image.name)
      && forall i :: 0 <= i < j ==> !MatchesImage(employees[i], image.name))
    ensures t.Matched? ==> t.newName == Interpolate(t.employeeData, UserColumn) + JpgSuffix
  {
    var found := MatchIndex(employees, image.name);
    if found.None? then Unmatched(image)
    else
      var j := found.value;
      assert WellDerived(employees[j]);
      Matched(image, employees[j], employees[j][FilenameColumn])
  }

  /** The first matching record wins: no record after another matching one is ever chosen. */
  lemma EarliestRecordWins(employees: seq<Row>, name: string, j: nat)
    requires j < |employees| && MatchesImage(employees[j], name)
    ensures MatchIndex(employees, name).Some? && MatchIndex(employees, name).value <= j
  {
  }

  function Classify(employees: seq<Row>, images: seq<UploadedImage>): (ts: seq<Tagged>)
    requires forall e :: e in employees ==> WellDerived(e)
    ensures |ts| == |images|
  {
    seq(|images|, i requires 0 <= i < |images| => MatchImage(employees, images[i]))
  }

  /** Classifying one more image appends its tag. */
  lemma ClassifyExtend(employees: seq<Row>, images: seq<UploadedImage>, i: nat)
    requires forall e :: e in employees ==> WellDerived(e)
    requires i < |images|
    ensures Classify(employees, images[..i + 1]) == Classify(employees, images[..i]) + [MatchImage(employees, images[i])]
  {
    var a, b := Classify(employees, images[..i + 1]), Classify(employees, images[..i]) + [MatchImage(employees, images[i])];
    assert |a| == |b|;
    forall j | 0 <= j < |a|
      ensures a[j] == b[j]
    {
      assert images[..i + 1][j] == images[j];
    }
  }

  /** The `matching` list: matched entries, in input order. */
  function Matching(ts: seq<Tagged>): seq<Tagged> {
    if |ts| == 0 then []
    else Matching(ts[..|ts| - 1]) + (if ts[|ts| - 1].Matched? then [ts[|ts| - 1]] else [])
  }

  /** The `nonMatching` list: unmatched entries, in input order. */
  function NonMatching(ts: seq<Tagged>): seq<Tagged> {
    if |ts| == 0 then []
    else NonMatching(ts[..|ts| - 1]) + (if ts[|ts| - 1].Unmatched? then [ts[|ts| - 1]] else [])
  }

  /** Every image lands in exactly one of the two lists. */
  lemma {:induction false} PartitionCount(ts: seq<Tagged>)
    ensures |Matching(ts)| + |NonMatching(ts)| == |ts|
  {
    if |ts| > 0 {
      PartitionCount(ts[..|ts| - 1]);
    }
  }

  /** The lists hold only entries of their kind, all taken from the input. */
  lemma {:induction false} PartitionMembers(ts: seq<Tagged>)
    ensures forall t :: t in Matching(ts) ==> t.Matched? && t in ts
    ensures forall t :: t in NonMatching(ts) ==> t.Unmatched? && t in ts
  {
    if |ts| > 0 {
      PartitionMembers(ts[..|ts| - 1]);
    }
  }

  /** Both lists keep input order: splitting the input splits each list the same way. */
  lemma {:induction false} PartitionAppend(a: seq<Tagged>, b: seq<Tagged>)
    ensures Matching(a + b) == Matching(a) + Matching(b)
    ensures NonMatching(a + b) == NonMatching(a) + NonMatching(b)
  {
    if |b| == 0 {
      assert a + b == a;
    } else {
      assert (a + b)[..|a + b| - 1] == a + b[..|b| - 1];
      PartitionAppend(a, b[..|b| - 1]);
    }
  }

  /** `findMatches`: one pass over the images, pushing each onto one of two lists. */
  method FindMatches(images: seq<UploadedImage>, employees: seq<Row>) returns (matching: seq<Tagged>, nonMatching: seq<Tagged>)
    requires forall e :: e in employees ==> WellDerived(e)
    ensures matching == Matching(Classify(employees, images))
    ensures nonMatching == NonMatching(Classify(employees, images))
    ensures |matching| + |nonMatching| == |images|
    ensures forall t :: t in matching ==> t.Matched?
    ensures forall t :: t in nonMatching ==> t.Unmatched?
  {
    matching, nonMatching := [], [];
    ghost var tagged: seq<Tagged> := [];
    for i := 0 to |images|
      invariant tagged == Classify(employees, images[..i])
      invariant matching == Matching(tagged) && nonMatching == NonMatching(tagged)
    {
      var t := MatchImage(employees, images[i]);
      if t.Matched? {
        matching := matching + [t];
      } else {
        nonMatching := nonMatching + [t];
      }
      ClassifyExtend(employees, images, i);
      assert (tagged + [t])[..|tagged|] == tagged;
      tagged := tagged + [t];
    }
    assert images[..|images|] == images;
    PartitionCount(tagged);
    PartitionMembers(tagged);
  }

  /** The processing step's own state. */
  class ProcessorView {
    var progress: int
    var matchingImages: seq<Tagged>
    var nonMatchingImages: seq<Tagged>
    var startProcessing: bool

    ghost predicate Valid()
      reads this
    {
      && (forall t :: t in matchingImages ==> t.Matched?)
      && (forall t :: t in nonMatchingImages ==> t.Unmatched?)
    }

    constructor ()
      ensures Valid()
      ensures progress == 0 && matchingImages == [] && nonMatchingImages == [] && !startProcessing
    {
      progress := 0;
      matchingImages := [];
      nonMatchingImages := [];
      startProcessing := false;
    }

    /** The matching effect: it runs only with images and a non-empty employee table; otherwise the lists keep their values. */
    method OnInputsChanged(app: AppState.App)
      requires Valid() && app.Valid()
      modifies this`matchingImages, this`nonMatchingImages
      ensures Valid()
      ensures if |app.images| > 0 && app.employeeData.Some? && |app.employeeData.value| > 0 then
          && matchingImages == Matching(Classify(app.employeeData.value, app.images))
          && nonMatchingImages == NonMatching(Classify(app.employeeData.value, app.images))
        else
          matchingImages == old(matchingImages) && nonMatchingImages == old(nonMatchingImages)
    {
      if |app.images| > 0 && app.employeeData.Some? && |app.employeeData.value| > 0 {
        matchingImages, nonMatchingImages := FindMatches(app.images, app.employeeData.value);
      }
    }

    /** The process button: shown only while not processing, disabled without matches. */
    method HandleProcess(app: AppState.App)
      modifies this`startProcessing
      ensures startProcessing == (old(startProcessing) || (|matchingImages| > 0 && !app.isProcessing))
    {
      if |matchingImages| > 0 && !app.isProcessing {
        startProcessing := true;
      }
    }

    /**
     * The processing effect. Success stores the processed images and advances
     * the wizard; a failure does neither. Both flags end cleared, and the
     * progress shown is the last value reported.
     */
    method ProcessAllImages(app: AppState.App, codec: ImageUtils.Codec)
      requires Valid() && app.Valid()
      modifies this`progress, this`startProcessing, app`isProcessing, app`processedImages, app`currentStep
      ensures Valid() && app.Valid()
      ensures !old(startProcessing) ==>
        && progress == old(progress) && !startProcessing && app.isProcessing == old(app.isProcessing)
        && app.processedImages == old(app.processedImages) && app.currentStep == old(app.currentStep)
      ensures old(startProcessing) ==> !startProcessing && !app.isProcessing
      ensures old(startProcessing) ==>
        var failure := ImageUtils.FirstFailure(matchingImages, app.backgroundImage, codec);
        var n := |matchingImages|;
        if failure.None? then
          && |app.processedImages| == n
          && (forall i :: 0 <= i < n ==>
                ImageUtils.Render(matchingImages[i], app.backgroundImage, codec) == Success(app.processedImages[i]))
          && app.currentStep == AppState.ClampedNext(old(app.currentStep))
          && progress == (if n == 0 then old(progress) else 100)
        else
          && app.processedImages == old(app.processedImages)
          && app.currentStep == old(app.currentStep)
          && progress == (if failure.value == 0 then old(progress) else ImageUtils.Percent(failure.value - 1, n))
    {
      if !startProcessing {
        return;
      }
      app.isProcessing := true;
      var result, reports := ImageUtils.ProcessImages(matchingImages, app.backgroundImage, codec);
      if |reports| > 0 {
        progress := reports[|reports| - 1];
      }
      if result.Success? {
        forall p | p in result.value
          ensures p.source.Matched?
        {
          var i :| 0 <= i < |result.value| && result.value[i] == p;
        }
        app.processedImages := result.value;
        app.NextStep();
        if |matchingImages| > 0 {
          ImageUtils.ProgressEndsAtHundred(|matchingImages|);
        }
      }
      app.isProcessing := false;
      startProcessing := false;
    }
  }
}
