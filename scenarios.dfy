/** Worked examples of the matching rule and the pipeline on concrete inputs. */
module Scenarios {
  import opened Wrappers
  import opened Entities
  import opened JsStrings
  import opened ExcelUtils
  import opened ImageProcessor

  const JdoeRow: Row := map[UserColumn := "jdoe", CodeColumn := "1001"]

  function Upload(name: string): UploadedImage {
    UploadedImage(FileRef(name, "image/jpeg", []), name)
  }

  /** A photo named after the code with ".jpg", in any case, is matched and renamed after the username. */
  lemma JpgNameMatches(name: string)
    requires name == "1001.jpg" || name == "1001.JPG"
    ensures ProcessExcelFile([JdoeRow]).Success?
    ensures MatchImage(ProcessExcelFile([JdoeRow]).value, Upload(name)).Matched?
    ensures MatchImage(ProcessExcelFile([JdoeRow]).value, Upload(name)).newName == "jdoe.jpg"
  {
  }

  /** The second comparison is against `codigo_img`, which already ends in ".jpg": a ".png" photo of the same code is not matched. */
  lemma PngNameDoesNotMatch()
    ensures ProcessExcelFile([JdoeRow]).Success?
    ensures MatchImage(ProcessExcelFile([JdoeRow]).value, Upload("1001.png")).Unmatched?
  {
    var e := ProcessExcelFile([JdoeRow]).value;
    LastIndexOfAt("1001.png", '.', 4);
    BaseNameCases("1001.png");
    assert BaseName("1001.png") == "1001";
    assert e[0][CodeImageColumn] == "1001.jpg";
    assert !MatchesImage(e[0], "1001.png");
  }

  /** The base name keeps an inner ".jpg": a photo named "1001.jpg.png" is matched through it. */
  lemma DoubleExtensionMatches()
    ensures ProcessExcelFile([JdoeRow]).Success?
    ensures MatchImage(ProcessExcelFile([JdoeRow]).value, Upload("1001.jpg.png")).Matched?
  {
    var e := ProcessExcelFile([JdoeRow]).value;
    LastIndexOfAt("1001.jpg.png", '.', 8);
    BaseNameCases("1001.jpg.png");
    assert BaseName("1001.jpg.png") == "1001.jpg";
    assert MatchesImage(e[0], "1001.jpg.png");
  }

  /** A different code is not matched. */
  lemma OtherCodeDoesNotMatch()
    ensures ProcessExcelFile([JdoeRow]).Success?
    ensures MatchImage(ProcessExcelFile([JdoeRow]).value, Upload("1002.jpg")).Unmatched?
  {
    var e := ProcessExcelFile([JdoeRow]).value;
    LastIndexOfAt("1002.jpg", '.', 4);
    BaseNameCases("1002.jpg");
    assert BaseName("1002.jpg") == "1002";
    assert Lower("1001.jpg")[3] != Lower("1002.jpg")[3];
    assert e[0][CodeImageColumn] == "1001.jpg";
    assert !MatchesImage(e[0], "1002.jpg");
  }

  /** A name without a dot has an empty base name. */
  lemma NoDotEmptyBase(name: string)
    requires forall j :: 0 <= j < |name| ==> name[j] != '.'
    ensures BaseName(name) == ""
  {
    BaseNameCases(name);
  }
}
