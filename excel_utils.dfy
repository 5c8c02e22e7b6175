/**
 * Spreadsheet helpers: validation of the employee table with its two derived
 * lookup columns, and the username/filename report rows.
 */
module ExcelUtils {
  import opened Wrappers
  import opened Entities

  const UserColumn := "Nombre de usuario"
  const CodeColumn := "Código de empleado"
  const FilenameColumn := "filename"
  const CodeImageColumn := "codigo_img"
  const JpgSuffix := ".jpg"
  const FormatErrorMessage :=
    "El archivo Excel no tiene el formato correcto. Debe contener las columnas \"Nombre de usuario\" y \"Código de empleado\"."

  /** `!row[key]` on stringified cells: the cell is missing or empty. */
  predicate Falsy(row: Row, key: string) {
    key !in row || row[key] == ""
  }

  /** The template literal `${row[key]}`: a missing cell prints as "undefined". */
  function Interpolate(row: Row, key: string): string {
    if key in row then row[key] else "undefined"
  }

  /**
   * A row carries both derived columns, each computed from its source column:
   * what every employee record must satisfy for matching and export.
   */
  predicate WellDerived(e: Row) {
    && FilenameColumn in e && e[FilenameColumn] == Interpolate(e, UserColumn) + JpgSuffix
    && CodeImageColumn in e && e[CodeImageColumn] == Interpolate(e, CodeColumn) + JpgSuffix
  }

  /**
   * `out` is `{ ...row, filename, codigo_img }`: every original column kept
   * verbatim except the two derived ones, which are (re)written.
   */
  ghost predicate DerivedFrom(out: Row, row: Row) {
    && out.Keys == row.Keys + {FilenameColumn, CodeImageColumn}
    && out[FilenameColumn] == Interpolate(row, UserColumn) + JpgSuffix
    && out[CodeImageColumn] == Interpolate(row, CodeColumn) + JpgSuffix
    && forall k :: k in row && k != FilenameColumn && k != CodeImageColumn ==> out[k] == row[k]
  }

  function DeriveRow(row: Row): (out: Row)
    ensures DerivedFrom(out, row)
    ensures WellDerived(out)
  {
    row[FilenameColumn := Interpolate(row, UserColumn) + JpgSuffix]
       [CodeImageColumn := Interpolate(row, CodeColumn) + JpgSuffix]
  }

  /**
   * `processExcelFile`, from the rows of the first sheet on: only the first row
   * is validated; every row gets the two derived columns, in order, with no
   * deduplication.
   */
  function ProcessExcelFile(rows: seq<Row>): (r: Result<seq<Row>, string>)
    ensures r.Failure? <==> |rows| == 0 || Falsy(rows[0], UserColumn) || Falsy(rows[0], CodeColumn)
    ensures r.Failure? ==> r.error == FormatErrorMessage
    ensures r.Success? ==> |r.value| == |rows|
    ensures r.Success? ==> forall i :: 0 <= i < |rows| ==> DerivedFrom(r.value[i], rows[i])
    ensures r.Success? ==> forall e :: e in r.value ==> WellDerived(e)
  {
    if |rows| == 0 || Falsy(rows[0], UserColumn) || Falsy(rows[0], CodeColumn) then
      Failure(FormatErrorMessage)
    else
      Success(seq(|rows|, i requires 0 <= i < |rows| => DeriveRow(rows[i])))
  }

  /** Rows after the first are not validated: a later row without a username still yields a record, named "undefined.jpg". */
  lemma LaterRowsUnchecked(first: Row, later: Row)
    requires !Falsy(first, UserColumn) && !Falsy(first, CodeColumn)
    requires UserColumn !in later
    ensures ProcessExcelFile([first, later]).Success?
    ensures ProcessExcelFile([first, later]).value[1][FilenameColumn] == "undefined.jpg"
  {
  }

  /** A pre-existing `filename` or `codigo_img` column is overwritten by the derived value. */
  lemma DerivedColumnsOverwrite(row: Row)
    requires !Falsy(row, UserColumn) && !Falsy(row, CodeColumn)
    ensures FilenameColumn in row && row[FilenameColumn] != Interpolate(row, UserColumn) + JpgSuffix ==>
      ProcessExcelFile([row]).value[0][FilenameColumn] != row[FilenameColumn]
    ensures CodeImageColumn in row && row[CodeImageColumn] != Interpolate(row, CodeColumn) + JpgSuffix ==>
      ProcessExcelFile([row]).value[0][CodeImageColumn] != row[CodeImageColumn]
  {
  }

  /** One row of the username/filename report. */
  datatype ReportRow = ReportRow(username: Option<string>, filename: string)

  /**
   * The row mapping of `createExcelReport` (and of the results view's
   * spreadsheet download): `{ Username: employeeData['Nombre de usuario'], Filename: newName }`.
   */
  function ReportRows(data: seq<ProcessedImage>): (rows: seq<ReportRow>)
    requires forall p :: p in data ==> p.source.Matched?
    ensures |rows| == |data|
    ensures forall i :: 0 <= i < |data| ==>
      rows[i].username == Lookup(data[i].source.employeeData, UserColumn) && rows[i].filename == data[i].source.newName
  {
    if |data| == 0 then []
    else [ReportRow(Lookup(data[0].source.employeeData, UserColumn), data[0].source.newName)] + ReportRows(data[1..])
  }

  /** The report is built item by item in order: it distributes over concatenation, so nothing is merged or reordered. */
  lemma ReportRowsAppend(a: seq<ProcessedImage>, b: seq<ProcessedImage>)
    requires forall p :: p in a + b ==> p.source.Matched?
    ensures ReportRows(a + b) == ReportRows(a) + ReportRows(b)
  {
  }
}
