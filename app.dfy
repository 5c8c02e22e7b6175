/**
 * The application shell: the wizard's step counter and the state shared by
 * the steps (employee table, uploaded images, processed images, background,
 * processing flag).
 */
module AppState {
  import opened Wrappers
  import opened Entities
  import opened ExcelUtils
  import ImageUtils

  /** Excel, images, background, processing, results. */
  const StepCount := 5
  const LastStep := StepCount - 1

  /** `Math.min(prev + 1, steps.length - 1)`. */
  function ClampedNext(step: int): (r: int)
    ensures r <= LastStep
    ensures step < LastStep ==> r == step + 1
    ensures step >= LastStep ==> r == LastStep
  {
    if step + 1 < LastStep then step + 1 else LastStep
  }

  /** `Math.max(prev - 1, 0)`. */
  function ClampedPrev(step: int): (r: int)
    ensures r >= 0
    ensures step > 0 ==> r == step - 1
    ensures step <= 0 ==> r == 0
  {
    if step - 1 > 0 then step - 1 else 0
  }

  /** From a valid step, moving forward or back stays within the wizard; the ends are fixed points. */
  lemma StepsStayInRange(step: int)
    requires 0 <= step <= LastStep
    ensures 0 <= ClampedNext(step) <= LastStep && 0 <= ClampedPrev(step) <= LastStep
    ensures ClampedNext(LastStep) == LastStep && ClampedPrev(0) == 0
  {
  }

  /** A step counter moved past the end by `goToStep` is pulled back by `nextStep` but not by `prevStep`. */
  lemma OutOfRangeStep(step: int)
    requires step > LastStep + 1
    ensures ClampedNext(step) == LastStep
    ensures ClampedPrev(step) == step - 1 > LastStep
  {
  }

  datatype Panel = ExcelUploaderPanel | ImageUploaderPanel | BackgroundSelectorPanel | ImageProcessorPanel | ResultsViewerPanel

  /** The panel rendered for a step value (`currentStep === k && ...`). */
  function PanelAt(step: int): (p: Option<Panel>)
    ensures p.Some? <==> 0 <= step <= LastStep
  {
    if step == 0 then Some(ExcelUploaderPanel)
    else if step == 1 then Some(ImageUploaderPanel)
    else if step == 2 then Some(BackgroundSelectorPanel)
    else if step == 3 then Some(ImageProcessorPanel)
    else if step == 4 then Some(ResultsViewerPanel)
    else None
  }

  /** Different steps render different panels. */
  lemma PanelsDistinct(s: int, t: int)
    requires 0 <= s <= LastStep && 0 <= t <= LastStep && s != t
    ensures PanelAt(s) != PanelAt(t)
  {
  }

  class App {
    var currentStep: int
    var employeeData: Option<seq<Row>>
    var images: seq<UploadedImage>
    var processedImages: seq<ProcessedImage>
    var backgroundImage: Option<ImageUtils.Background>
    var isProcessing: bool

    /**
     * The employee table only ever holds rows from the spreadsheet parser, and
     * the processed images only ever come from matched images.
     */
    ghost predicate Valid()
      reads this
    {
      && (employeeData.Some? ==> forall e :: e in employeeData.value ==> WellDerived(e))
      && (forall p :: p in processedImages ==> p.source.Matched?)
    }

    constructor ()
      ensures Valid()
      ensures currentStep == 0 && employeeData == None && images == [] && processedImages == []
      ensures backgroundImage == None && !isProcessing
    {
      currentStep := 0;
      employeeData := None;
      images := [];
      processedImages := [];
      backgroundImage := None;
      isProcessing := false;
    }

    method NextStep()
      modifies this`currentStep
      ensures currentStep == ClampedNext(old(currentStep))
    {
      currentStep := ClampedNext(currentStep);
    }

    method PrevStep()
      modifies this`currentStep
      ensures currentStep == ClampedPrev(old(currentStep))
    {
      currentStep := ClampedPrev(currentStep);
    }

    /** No bounds check: the step becomes exactly `step`. */
    method GoToStep(step: int)
      modifies this`currentStep
      ensures currentStep == step
    {
      currentStep := step;
    }

    /** A click on the stepper's circle `index` jumps back only to an earlier step. */
    method StepperClick(index: int)
      requires 0 <= index < StepCount
      modifies this`currentStep
      ensures currentStep == if index < old(currentStep) then index else old(currentStep)
      ensures currentStep <= old(currentStep)
    {
      if index < currentStep {
        GoToStep(index);
      }
    }

    function CurrentPanel(): (p: Option<Panel>)
      reads this
      ensures p.Some? <==> 0 <= currentStep <= LastStep
    {
      PanelAt(currentStep)
    }
  }
}
