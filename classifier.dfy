/** The folder a file is sorted into, by its extension. */
module Classifier {
  import opened Paths

  /** The four folder labels the importer ever produces. */
  const Labels: set<string> := {"Pictures", "Videos", "PicturesJPG", "Overig"}

  /**
   * `get_file_type`: a case-sensitive suffix test, tried in the order
   * `.NEF`, `.MOV`, `.JPG`; anything else is sorted under "Overig".
   */
  function FileType(fileName: string): (folder: string)
    ensures folder in Labels
    ensures folder == "Pictures" <==> EndsWith(fileName, ".NEF")
    ensures folder == "Videos" <==> EndsWith(fileName, ".MOV")
    ensures folder == "PicturesJPG" <==> EndsWith(fileName, ".JPG")
    ensures folder == "Overig" <==>
      !EndsWith(fileName, ".NEF") && !EndsWith(fileName, ".MOV") && !EndsWith(fileName, ".JPG")
  {
    if EndsWith(fileName, ".NEF") then "Pictures"
    else if EndsWith(fileName, ".MOV") then "Videos"
    else if EndsWith(fileName, ".JPG") then "PicturesJPG"
    else "Overig"
  }

  /**
   * The importer classifies the whole joined path rather than the base name;
   * since no extension marker contains '/', the answer is the same.
   */
  lemma {:induction false} FileTypeOfPath(p: Path)
    requires p != []
    ensures FileType(Render(p)) == FileType(Basename(p))
  {
    if |p| > 1 {
      var head, last := Render(p[..|p| - 1]), p[|p| - 1];
      assert Render(p) == head + "/" + last;
      EndsWithAfterSeparator(head, last, ".NEF");
      EndsWithAfterSeparator(head, last, ".MOV");
      EndsWithAfterSeparator(head, last, ".JPG");
    }
  }
}
