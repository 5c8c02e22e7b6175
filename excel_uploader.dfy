/**
 * The spreadsheet upload step: the file extension check, the transition when
 * the file has been read and parsed, the guard on continuing, and the preview.
 */
module ExcelUploader {
  import opened Wrappers
  import opened Entities
  import opened JsStrings
  import opened ExcelUtils
  import AppState

  const InvalidFileError := "Por favor, selecciona un archivo Excel válido (.xlsx o .xls)"
  const ParseError := "Error al procesar el archivo. Verifica que tenga el formato correcto."
  const NoDataError := "Por favor, carga un archivo Excel válido antes de continuar."
  const PreviewLimit := 5

  /** `name.substring(name.lastIndexOf('.')).toLowerCase()`: the whole name when it has no dot. */
  function Extension(name: string): string {
    Lower(Substring(name, LastIndexOf(name, '.'), |name|))
  }

  predicate AcceptedExtension(name: string) {
    Extension(name) == ".xlsx" || Extension(name) == ".xls"
  }

  /** `name` ends with `suffix`, ignoring ASCII case. */
  predicate EndsWithIgnoringCase(name: string, suffix: string) {
    |suffix| <= |name| && Lower(name[|name| - |suffix|..]) == suffix
  }

  lemma LowerCharDot(c: char)
    ensures LowerChar(c) == '.' <==> c == '.'
  {
  }

  /** The last dot of a name that ends, ignoring case, in a suffix with a single leading dot. */
  lemma LastDotOfSuffix(name: string, suffix: string)
    requires EndsWithIgnoringCase(name, suffix)
    requires |suffix| > 0 && suffix[0] == '.' && forall j :: 0 < j < |suffix| ==> suffix[j] != '.'
    ensures LastIndexOf(name, '.') == |name| - |suffix|
  {
    var k := |name| - |suffix|;
    var tail := name[k..];
    assert Lower(tail)[0] == '.';
    LowerCharDot(tail[0]);
    forall j | k < j < |name|
      ensures name[j] != '.'
    {
      assert Lower(tail)[j - k] == suffix[j - k];
      LowerCharDot(tail[j - k]);
    }
  }

  /**
   * The check accepts exactly the names that end, ignoring case, in ".xlsx"
   * or ".xls" (the extension runs from the last dot, so "report.xls.csv" is refused).
   */
  lemma {:induction false} AcceptedIffExcelSuffix(name: string)
    ensures AcceptedExtension(name) <==> EndsWithIgnoringCase(name, ".xlsx") || EndsWithIgnoringCase(name, ".xls")
  {
    var i := LastIndexOf(name, '.');
    var tail := if i < 0 then name else name[i..];
    assert Substring(name, i, |name|) == tail;
    if EndsWithIgnoringCase(name, ".xlsx") {
      LastDotOfSuffix(name, ".xlsx");
    } else if EndsWithIgnoringCase(name, ".xls") {
      LastDotOfSuffix(name, ".xls");
    }
    if Extension(name) == ".xlsx" || Extension(name) == ".xls" {
      assert name[|name| - |tail|..] == tail;
    }
  }

  /** The preview table: the first rows, and how many more there are when that is not all of them. */
  datatype Preview = Preview(rows: seq<Row>, more: Option<nat>)

  function PreviewOf(data: seq<Row>): (p: Preview)
    ensures |p.rows| == if |data| < PreviewLimit then |data| else PreviewLimit
    ensures p.rows == data[..|p.rows|]
    ensures p.more.Some? <==> |data| > PreviewLimit
    ensures p.more.Some? ==> |p.rows| + p.more.value == |data|
  {
    if |data| > PreviewLimit then Preview(data[..PreviewLimit], Some(|data| - PreviewLimit))
    else Preview(data, None)
  }

  class Uploader {
    var fileName: string
    var error: string

    constructor ()
      ensures fileName == "" && error == ""
    {
      fileName := "";
      error := "";
    }

    /**
     * `handleFileChange`: nothing happens without a file; a file with another
     * extension sets the error; an accepted one is named, clears the error and
     * is read (`readStarted`).
     */
    method HandleFileChange(file: Option<FileRef>) returns (readStarted: bool)
      modifies this`fileName, this`error
      ensures file.None? ==> !readStarted && fileName == old(fileName) && error == old(error)
      ensures file.Some? && !AcceptedExtension(file.value.name) ==>
        !readStarted && error == InvalidFileError && fileName == old(fileName)
      ensures file.Some? && AcceptedExtension(file.value.name) ==>
        readStarted && fileName == file.value.name && error == ""
    {
      if file.None? {
        return false;
      }
      if !AcceptedExtension(file.value.name) {
        error := InvalidFileError;
        return false;
      }
      fileName := file.value.name;
      error := "";
      readStarted := true;
    }

    /**
     * `reader.onload`: `sheet` holds the first sheet's rows, or None when the
     * workbook could not be read. Only a table that passes validation replaces
     * the employee data; any failure sets the error and keeps the old data.
     */
    method OnReaderLoad(app: AppState.App, sheet: Option<seq<Row>>)
      requires app.Valid()
      modifies this`error, app`employeeData
      ensures app.Valid()
      ensures sheet.Some? && ProcessExcelFile(sheet.value).Success? ==>
        app.employeeData == Some(ProcessExcelFile(sheet.value).value) && error == old(error)
      ensures sheet.None? || ProcessExcelFile(sheet.value).Failure? ==>
        error == ParseError && app.employeeData == old(app.employeeData)
    {
      if sheet.None? {
        error := ParseError;
        return;
      }
      var processed := ProcessExcelFile(sheet.value);
      if processed.Failure? {
        error := ParseError;
        return;
      }
      app.employeeData := Some(processed.value);
    }

    method HandleContinue(app: AppState.App)
      modifies this`error, app`currentStep
      ensures app.employeeData.None? || |app.employeeData.value| == 0 ==>
        error == NoDataError && app.currentStep == old(app.currentStep)
      ensures app.employeeData.Some? && |app.employeeData.value| > 0 ==>
        error == old(error) && app.currentStep == AppState.ClampedNext(old(app.currentStep))
    {
      if app.employeeData.None? || |app.employeeData.value| == 0 {
        error := NoDataError;
        return;
      }
      app.NextStep();
    }
  }
}
