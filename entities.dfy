/**
 * The values that flow between the tool's steps. The JavaScript objects are
 * open records built with object spread; here each shape the tool builds gets
 * its own constructor, and spreading an object becomes keeping it as a field.
 */
module Entities {
  import opened Wrappers

  newtype byte = x: int | 0 <= x < 256

  /** One spreadsheet row as `sheet_to_json` yields it: column header to cell text. */
  type Row = map<string, string>

  /** A browser `File`: its name, its MIME type and its bytes. */
  datatype FileRef = FileRef(name: string, mimeType: string, content: seq<byte>)

  /** An entry of the uploaded-images list, `{ file, name }`. */
  datatype UploadedImage = UploadedImage(file: FileRef, name: string)

  /**
   * An uploaded image after matching: `{ ...image, matched: true, employeeData, newName }`
   * or `{ ...image, matched: false }`; the `matched` flag is the constructor.
   */
  datatype Tagged =
    | Matched(image: UploadedImage, employeeData: Row, newName: string)
    | Unmatched(image: UploadedImage)

  /** A composited image: `{ ...image, resultPreview, resultBlob }`. */
  datatype ProcessedImage = ProcessedImage(source: Tagged, resultPreview: string, resultBlob: seq<byte>)

  /** Reading a cell that may be absent (`row[key]`, undefined when missing). */
  function Lookup(row: Row, key: string): Option<string> {
    if key in row then Some(row[key]) else None
  }
}
