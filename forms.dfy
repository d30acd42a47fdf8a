/**
 * What several pages share: the label shown while no file is chosen, and
 * the file name a page keeps after its file input changes.
 */
module Forms {

  const NoFileName: string := "(未选择文件)"

  /** The first selected file's name, or the placeholder when nothing is selected. */
  function ChosenName(files: seq<string>): (name: string)
    ensures |files| > 0 ==> name == files[0]
    ensures |files| == 0 ==> name == NoFileName
  {
    if |files| > 0 then files[0] else NoFileName
  }
}
