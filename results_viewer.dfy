/**
 * The results step: the username/filename spreadsheet download and the
 * image download, which only shows a notice.
 */
module ResultsViewer {
  import opened Wrappers
  import opened Entities
  import opened ExcelUtils
  import ImageProcessor

  const SheetName := "Usuarios_Imagenes"
  const WorkbookFileName := "usuarios_imagenes.xlsx"
  const ArchiveNotice := "En un entorno de producción, aquí se descargaría un archivo ZIP con todas las imágenes procesadas."

  /** What a download button does: save a one-sheet workbook, or show an alert. */
  datatype Effect =
    | SaveWorkbook(fileName: string, sheetName: string, rows: seq<ReportRow>)
    | Alert(message: string)

  /** `handleDownloadExcel`: one row per processed image, in order, duplicates kept. */
  function HandleDownloadExcel(processed: seq<ProcessedImage>): (e: Effect)
    requires forall p :: p in processed ==> p.source.Matched?
    ensures e.SaveWorkbook? && e.fileName == WorkbookFileName && e.sheetName == SheetName
    ensures |e.rows| == |processed|
    ensures forall i :: 0 <= i < |processed| ==>
      e.rows[i].username == Lookup(processed[i].source.employeeData, UserColumn)
      && e.rows[i].filename == processed[i].source.newName
  {
    SaveWorkbook(WorkbookFileName, SheetName, ReportRows(processed))
  }

  /** `handleDownloadImages`: no archive is produced, only the notice. */
  function HandleDownloadImages(processed: seq<ProcessedImage>): (e: Effect)
    ensures e.Alert? && e.message == ArchiveNotice
  {
    Alert(ArchiveNotice)
  }

  /** The file name a username is exported under: `${username}.jpg`. */
  function ExportedName(username: Option<string>): string {
    match username
    case Some(u) => u + JpgSuffix
    case None => "undefined" + JpgSuffix
  }

  /**
   * Through the whole pipeline (parse the sheet, match the images, process the
   * matched ones in order), the spreadsheet has at most one row per uploaded
   * image, and every row's file name is its username followed by ".jpg".
   */
  lemma ExportRowsNameUsernames(sheet: seq<Row>, images: seq<UploadedImage>, processed: seq<ProcessedImage>)
    requires ProcessExcelFile(sheet).Success?
    requires
      var matched := ImageProcessor.Matching(ImageProcessor.Classify(ProcessExcelFile(sheet).value, images));
      |processed| == |matched| && forall i :: 0 <= i < |processed| ==> processed[i].source == matched[i]
    ensures forall p :: p in processed ==> p.source.Matched?
    ensures |HandleDownloadExcel(processed).rows| <= |images|
    ensures forall r :: r in HandleDownloadExcel(processed).rows ==> r.filename == ExportedName(r.username)
  {
    var employees := ProcessExcelFile(sheet).value;
    var tagged := ImageProcessor.Classify(employees, images);
    var matched := ImageProcessor.Matching(tagged);
    ImageProcessor.PartitionCount(tagged);
    ImageProcessor.PartitionMembers(tagged);
    forall i | 0 <= i < |processed|
      ensures processed[i].source.Matched?
      ensures processed[i].source.newName == ExportedName(Lookup(processed[i].source.employeeData, UserColumn))
    {
      assert matched[i] in matched;
      var j :| 0 <= j < |tagged| && tagged[j] == matched[i];
      assert tagged[j] == ImageProcessor.MatchImage(employees, images[j]);
    }
    var rows := HandleDownloadExcel(processed).rows;
    forall r | r in rows
      ensures r.filename == ExportedName(r.username)
    {
      var i :| 0 <= i < |rows| && rows[i] == r;
    }
  }
}
