/**
 * The format-conversion page (`src/components/Develop.tsx`): the parameter
 * validator with its first-failure error order, the in-progress guard, the
 * file-name label, the status/error display, the advanced-row toggle and the
 * choice of loader by scene format.
 *
 * The form's numeric fields arrive already parsed (`None` stands for `NaN`);
 * the scene centre arrives as text, split on `,`, and each part is read by
 * the `parseFloat` parameter, so JavaScript's number lexing stays outside the
 * model. Block size is a `real`, not a float.
 */
module Develop {
  import opened Wrappers
  import opened Text
  import opened Forms

  // ---------------------------------------------------------------- file name

  predicate IsSlash(c: char) {
    c == '/' || c == '\\'
  }

  /**
   * Lines 104-109: the text after the later of the last `/` and the last `\`.
   * It is the longest suffix of `url` without a slash of either kind.
   */
  function BaseName(url: string): (name: string)
    ensures |name| <= |url| && name == url[|url| - |name|..]
    ensures forall i :: 0 <= i < |name| ==> !IsSlash(name[i])
    ensures |name| < |url| ==> IsSlash(url[|url| - |name| - 1])
  {
    var forward := LastIndexOf(url, '/');
    var backward := LastIndexOf(url, '\\');
    var cut := if forward < backward then backward else forward;
    url[cut + 1..]
  }

  /** A path ending in a slash-free name is labelled with that name, on either platform. */
  lemma BaseNameOfPath(dir: string, slash: char, name: string)
    requires IsSlash(slash)
    requires forall i :: 0 <= i < |name| ==> !IsSlash(name[i])
    ensures BaseName(dir + [slash] + name) == name
  {
    var url := dir + [slash] + name;
    assert url[|url| - |name| - 1] == slash;
    assert url[|url| - |name|..] == name;
  }

  // ---------------------------------------------------------------- validation

  const CenterCountError: string := "场景中心点必须包含 3 个坐标"
  const CoordinateError: string := "坐标输入无效"
  const LevelError: string := "压缩级别无效"
  const AlphaError: string := "Alpha 删除阈值无效"
  const ShError: string := "SH 级别无效"
  const BlockSizeError: string := "Block 块大小无效"
  const BucketSizeError: string := "Bucket 桶大小无效"
  const NoFileError: string := "请选择要转换的文件"
  const ReadingNotice: string := "加载文件中..."
  const ParsingNotice: string := "解析文件中..."
  const SuccessNotice: string := "转换成功"
  const FailureError: string := "无法转换文件"

  /** The checks in the order the page runs them (lines 138-183), each with its message. */
  const Messages: seq<string> :=
    [CenterCountError, CoordinateError, LevelError, AlphaError, ShError, BlockSizeError, BucketSizeError, NoFileError]

  /** What the form holds when the convert button is pressed (lines 121-134). */
  datatype ConversionForm = ConversionForm(
    sceneCenter: string,
    compressionLevel: Option<int>,
    alphaThreshold: Option<int>,
    shDegree: Option<int>,
    blockSize: Option<real>,
    bucketSize: Option<int>,
    files: seq<string>)

  /** The parameters handed to the loader once every check passed. */
  datatype Settings = Settings(
    center: seq<real>, level: int, alpha: int, sh: int, blockSize: real, bucketSize: int, file: string)

  datatype Verdict = Accepted(settings: Settings) | Rejected(message: string)

  /** A parsed integer that is a number within `[lo, hi]`. */
  predicate InRange(v: Option<int>, lo: int, hi: int) {
    v.Some? && lo <= v.value <= hi
  }

  /** Reads every part of the scene centre; `None` as soon as one part is not a number. */
  function CenterCoordinates(parts: seq<string>, parseFloat: string -> Option<real>): (center: Option<seq<real>>)
    ensures center.Some? <==> forall i :: 0 <= i < |parts| ==> parseFloat(parts[i]).Some?
    ensures center.Some? ==>
      |center.value| == |parts| && forall i :: 0 <= i < |parts| ==> center.value[i] == parseFloat(parts[i]).value
    decreases |parts|
  {
    if parts == [] then Some([])
    else
      match parseFloat(parts[0])
      case None => None
      case Some(x) =>
        match CenterCoordinates(parts[1..], parseFloat)
        case None => None
        case Some(rest) => Some([x] + rest)
  }

  /**
   * Lines 143-149: each of the three parts is replaced in place by its value;
   * the first part that is not a number ends the loop.
   */
  method ParseCenter(parts: seq<string>, parseFloat: string -> Option<real>) returns (center: Option<seq<real>>)
    requires |parts| == 3
    ensures center == CenterCoordinates(parts, parseFloat)
  {
    var coordinates := new real[3];
    var i := 0;
    while i < 3
      invariant 0 <= i <= 3
      invariant forall j :: 0 <= j < i ==> parseFloat(parts[j]).Some? && coordinates[j] == parseFloat(parts[j]).value
    {
      var x := parseFloat(parts[i]);
      if x.None? {
        return None;
      }
      coordinates[i] := x.value;
      i := i + 1;
    }
    assert coordinates[..] == CenterCoordinates(parts, parseFloat).value;
    center := Some(coordinates[..]);
  }

  /** Whether the form passes check `k` of `Messages` (each check read on its own). */
  predicate Passes(form: ConversionForm, parseFloat: string -> Option<real>, k: nat)
    requires k < |Messages|
  {
    var parts := Split(form.sceneCenter, ',');
    match k
    case 0 => |parts| == 3
    case 1 => CenterCoordinates(parts, parseFloat).Some?
    case 2 => InRange(form.compressionLevel, 0, 2)
    case 3 => InRange(form.alphaThreshold, 0, 255)
    case 4 => InRange(form.shDegree, 0, 2)
    case 5 => form.blockSize.Some? && form.blockSize.value >= 0.1
    case 6 => InRange(form.bucketSize, 2, 65536)
    case _ => |form.files| > 0
  }

  /** Lines 136-183 as one decision: the first failing check, or the settings to convert with. */
  function Validate(form: ConversionForm, parseFloat: string -> Option<real>): (v: Verdict)
    ensures v.Accepted? ==> |v.settings.center| == 3 && |form.files| > 0 && v.settings.file == form.files[0]
    ensures v.Accepted? ==>
      Some(v.settings.center) == CenterCoordinates(Split(form.sceneCenter, ','), parseFloat)
      && Some(v.settings.level) == form.compressionLevel && Some(v.settings.alpha) == form.alphaThreshold
      && Some(v.settings.sh) == form.shDegree && Some(v.settings.blockSize) == form.blockSize
      && Some(v.settings.bucketSize) == form.bucketSize
  {
    var parts := Split(form.sceneCenter, ',');
    if |parts| != 3 then Rejected(CenterCountError)
    else
      match CenterCoordinates(parts, parseFloat)
      case None => Rejected(CoordinateError)
      case Some(center) =>
        if !InRange(form.compressionLevel, 0, 2) then Rejected(LevelError)
        else if !InRange(form.alphaThreshold, 0, 255) then Rejected(AlphaError)
        else if !InRange(form.shDegree, 0, 2) then Rejected(ShError)
        else if form.blockSize.None? || form.blockSize.value < 0.1 then Rejected(BlockSizeError)
        else if !InRange(form.bucketSize, 2, 65536) then Rejected(BucketSizeError)
        else if |form.files| == 0 then Rejected(NoFileError)
        else Accepted(Settings(center, form.compressionLevel.value, form.alphaThreshold.value,
                               form.shDegree.value, form.blockSize.value, form.bucketSize.value, form.files[0]))
  }

  /** The form is accepted exactly when every check passes. */
  lemma AcceptedIffAllPass(form: ConversionForm, parseFloat: string -> Option<real>)
    ensures Validate(form, parseFloat).Accepted? <==> forall k :: 0 <= k < |Messages| ==> Passes(form, parseFloat, k)
  {
    if !Validate(form, parseFloat).Accepted? {
      var k := FailingCheck(form, parseFloat);
      assert !Passes(form, parseFloat, k);
    } else {
      forall k | 0 <= k < |Messages| ensures Passes(form, parseFloat, k) {
        PassesWhenAccepted(form, parseFloat, k);
      }
    }
  }

  lemma PassesWhenAccepted(form: ConversionForm, parseFloat: string -> Option<real>, k: nat)
    requires k < |Messages|
    requires Validate(form, parseFloat).Accepted?
    ensures Passes(form, parseFloat, k)
  {
  }

  /** The index of the check whose message a rejected form shows. */
  lemma FailingCheck(form: ConversionForm, parseFloat: string -> Option<real>) returns (k: nat)
    requires Validate(form, parseFloat).Rejected?
    ensures k < |Messages| && Validate(form, parseFloat).message == Messages[k]
    ensures !Passes(form, parseFloat, k)
    ensures forall j :: 0 <= j < k ==> Passes(form, parseFloat, j)
  {
    var parts := Split(form.sceneCenter, ',');
    if |parts| != 3 { k := 0; }
    else if CenterCoordinates(parts, parseFloat).None? { k := 1; }
    else if !InRange(form.compressionLevel, 0, 2) { k := 2; }
    else if !InRange(form.alphaThreshold, 0, 255) { k := 3; }
    else if !InRange(form.shDegree, 0, 2) { k := 4; }
    else if form.blockSize.None? || form.blockSize.value < 0.1 { k := 5; }
    else if !InRange(form.bucketSize, 2, 65536) { k := 6; }
    else { k := 7; }
  }

  /** The eight messages are pairwise different, so a message names its check. */
  lemma MessagesDistinct()
    ensures forall i, j :: 0 <= i < j < |Messages| ==> Messages[i] != Messages[j]
  {
    assert Messages[0][0] == '场' && Messages[1][0] == '坐' && Messages[2][0] == '压';
    assert Messages[3][0] == 'A' && Messages[4][0] == 'S' && Messages[5][0] == 'B';
    assert Messages[6][0] == 'B' && Messages[6][1] == 'u' && Messages[5][1] == 'l';
    assert Messages[7][0] == '请';
  }

  /**
   * Only the first failing check is reported: the form shows the message of
   * check `k` exactly when check `k` fails and every earlier one passes.
   */
  lemma FirstFailureShown(form: ConversionForm, parseFloat: string -> Option<real>, k: nat)
    requires k < |Messages|
    ensures Validate(form, parseFloat) == Rejected(Messages[k]) <==>
      !Passes(form, parseFloat, k) && forall j :: 0 <= j < k ==> Passes(form, parseFloat, j)
  {
    MessagesDistinct();
    var v := Validate(form, parseFloat);
    if v.Rejected? {
      var f := FailingCheck(form, parseFloat);
      if f < k {
        assert Messages[f] != Messages[k];
      } else if k < f {
        assert Passes(form, parseFloat, k);
      }
    } else {
      AcceptedIffAllPass(form, parseFloat);
    }
  }

  // ---------------------------------------------------------------- loaders

  /** What `sceneFormatFromPath` can report; names it does not know map to `Unknown`. */
  datatype SceneFormat = Ply | Splat | KSplat | Unknown

  /** The loader call `fileBufferToSplatBuffer` makes, with the arguments it forwards. */
  datatype LoaderCall =
    | PlyLoad(alpha: int, level: int, optimize: bool, sh: int, sectionSize: int, center: seq<real>, blockSize: real, bucketSize: int)
    | SplatLoad(alpha: int, level: int, optimize: bool, sectionSize: int, center: seq<real>, blockSize: real, bucketSize: int)
    | KSplatLoad

  /** Section size is fixed at 0 (line 131). */
  const SectionSize: int := 0

  /**
   * Lines 33-74: PLY files go to the PLY loader (the only one told the SH
   * degree), splat files to the splat loader, anything else to the KSplat
   * loader, which takes the data alone.
   */
  function LoaderCallFor(format: SceneFormat, s: Settings): (call: LoaderCall)
    ensures call.PlyLoad? <==> format == Ply
    ensures call.SplatLoad? <==> format == Splat
    ensures call.KSplatLoad? <==> format != Ply && format != Splat
    ensures call.PlyLoad? ==> call == PlyLoad(s.alpha, s.level, true, s.sh, SectionSize, s.center, s.blockSize, s.bucketSize)
    ensures call.SplatLoad? ==> call == SplatLoad(s.alpha, s.level, true, SectionSize, s.center, s.blockSize, s.bucketSize)
  {
    if format == Ply then PlyLoad(s.alpha, s.level, true, s.sh, SectionSize, s.center, s.blockSize, s.bucketSize)
    else if format == Splat then SplatLoad(s.alpha, s.level, true, SectionSize, s.center, s.blockSize, s.bucketSize)
    else KSplatLoad
  }

  // ---------------------------------------------------------------- the page

  /** Which of `advancedCompressionRow1..3` the page's markup renders: none. */
  const RenderedRows: seq<bool> := [false, false, false]

  /** The page's display elements and the conversion flag. */
  class ConversionPage {
    var statusText: string
    var errorText: string
    var loadingIcon: bool
    var successIcon: bool
    var buttonDisabled: bool
    var inProgress: bool
    /** The text of the file-name label element, when the page has one. */
    var nameLabel: Option<string>
    var fileName: string
    /** The display of `advancedCompressionRow1..3`, were they rendered: true is `"none"`. */
    const rowHidden: array<bool>
    /** The settings of the conversion under way, between acceptance and the read's completion. */
    var accepted: Option<Settings>

    /** At most one of the status and the error text is non-empty (lines 246-260). */
    ghost predicate Valid()
      reads this
    {
      (statusText == "" || errorText == "") && rowHidden.Length == 3
    }

    constructor ()
      ensures Valid()
      ensures statusText == "" && errorText == "" && !loadingIcon && !successIcon
      ensures !buttonDisabled && !inProgress && nameLabel.None? && fileName == NoFileName && accepted.None?
      ensures fresh(rowHidden) && rowHidden[..] == [false, false, false]
    {
      statusText, errorText := "", "";
      loadingIcon, successIcon, buttonDisabled, inProgress := false, false, false, false;
      nameLabel, fileName, accepted := None, NoFileName, None;
      rowHidden := new bool[3](_ => false);
    }

    /** Lines 246-253: both icons off, the status cleared, the error shown. */
    method SetConversionError(message: string)
      requires Valid()
      modifies this`statusText, this`errorText, this`loadingIcon, this`successIcon
      ensures Valid()
      ensures statusText == "" && errorText == message && !loadingIcon && !successIcon
    {
      loadingIcon, successIcon := false, false;
      statusText := "";
      errorText := message;
    }

    /** Lines 255-260: the error cleared, the status shown; the icons are left alone. */
    method SetConversionStatus(message: string)
      requires Valid()
      modifies this`statusText, this`errorText
      ensures Valid()
      ensures errorText == "" && statusText == message
    {
      errorText := "";
      statusText := message;
    }

    /**
     * Lines 76-100: a level that is not a number in `[0, 2]` changes nothing;
     * otherwise each advanced row the page renders (`present[i]` is whether
     * `getElementById("advancedCompressionRow" + (i + 1))` finds one) is
     * hidden exactly when the level is 0, and a missing row is skipped.
     */
    method OnCompressionLevelChange(level: Option<int>, present: seq<bool>)
      requires Valid() && |present| == 3
      modifies rowHidden
      ensures Valid()
      ensures forall i :: 0 <= i < 3 ==>
        rowHidden[i] == if InRange(level, 0, 2) && present[i] then level.value == 0 else old(rowHidden[i])
    {
      if !InRange(level, 0, 2) {
        return;
      }
      var i := 0;
      while i < 3
        invariant 0 <= i <= 3
        invariant forall j :: 0 <= j < i ==> rowHidden[j] == if present[j] then level.value == 0 else old(rowHidden[j])
        invariant forall j :: i <= j < 3 ==> rowHidden[j] == old(rowHidden[j])
      {
        if present[i] {
          rowHidden[i] := level.value == 0;
        }
        i := i + 1;
      }
    }

    /**
     * The page as rendered has no `advancedCompressionRow` element at all
     * (its markup never declares one), so changing the level, whatever its
     * value, leaves every row as it was.
     */
    method LevelChangeOnRenderedPage(level: Option<int>)
      requires Valid()
      modifies rowHidden
      ensures Valid()
      ensures rowHidden[..] == old(rowHidden[..])
    {
      OnCompressionLevelChange(level, RenderedRows);
    }

    /** Lines 102-116: the label (when present) shows the base name; `fileName` the first file's name. */
    method OnFileChange(url: string, files: seq<string>, nameLabelPresent: bool)
      requires Valid()
      modifies this`nameLabel, this`fileName
      ensures Valid()
      ensures nameLabel == if nameLabelPresent then Some(BaseName(url)) else old(nameLabel)
      ensures fileName == ChosenName(files)
    {
      if nameLabelPresent {
        nameLabel := Some(BaseName(url));
      }
      fileName := ChosenName(files);
    }

    /**
     * Lines 119-184 and 238-241: a press while a conversion is under way does
     * nothing; otherwise the first failing check's message is shown, or the
     * error is cleared, the flag is set and the file is read.
     */
    method ConvertPlyFile(form: ConversionForm, parseFloat: string -> Option<real>) returns (readStarted: bool)
      requires Valid()
      modifies this`statusText, this`errorText, this`loadingIcon, this`successIcon, this`inProgress, this`accepted
      ensures Valid()
      ensures old(inProgress) ==> !readStarted && unchanged(this)
      ensures !old(inProgress) ==> match Validate(form, parseFloat)
        case Rejected(message) =>
          !readStarted && errorText == message && statusText == "" && !loadingIcon && !successIcon
          && inProgress == old(inProgress) && accepted == old(accepted)
        case Accepted(settings) =>
          readStarted && inProgress && accepted == Some(settings)
          && errorText == "" && statusText == ReadingNotice && loadingIcon && !successIcon
    {
      if inProgress {
        return false;
      }
      var parts := Split(form.sceneCenter, ',');
      if |parts| != 3 {
        SetConversionError(CenterCountError);
        return false;
      }
      var center := ParseCenter(parts, parseFloat);
      if center.None? {
        SetConversionError(CoordinateError);
        return false;
      }
      if !InRange(form.compressionLevel, 0, 2) {
        SetConversionError(LevelError);
        return false;
      } else if !InRange(form.alphaThreshold, 0, 255) {
        SetConversionError(AlphaError);
        return false;
      } else if !InRange(form.shDegree, 0, 2) {
        SetConversionError(ShError);
        return false;
      } else if form.blockSize.None? || form.blockSize.value < 0.1 {
        SetConversionError(BlockSizeError);
        return false;
      } else if !InRange(form.bucketSize, 2, 65536) {
        SetConversionError(BucketSizeError);
        return false;
      } else if |form.files| == 0 {
        SetConversionError(NoFileError);
        return false;
      }
      SetConversionError("");
      accepted := Some(Settings(center.value, form.compressionLevel.value, form.alphaThreshold.value,
                                form.shDegree.value, form.blockSize.value, form.bucketSize.value, form.files[0]));
      inProgress := true;
      SetConversionStatus(ReadingNotice);
      loadingIcon := true;
      readStarted := true;
    }

    /**
     * Lines 201-223: once the file is read, the button is disabled, parsing
     * is announced and the loader for the file's format is called.
     */
    method FileLoaded(format: SceneFormat) returns (call: LoaderCall)
      requires Valid() && accepted.Some?
      modifies this`statusText, this`errorText, this`loadingIcon, this`successIcon, this`buttonDisabled
      ensures Valid()
      ensures buttonDisabled && statusText == ParsingNotice && errorText == "" && loadingIcon && !successIcon
      ensures call == LoaderCallFor(format, accepted.value)
    {
      buttonDisabled := true;
      SetConversionStatus(ParsingNotice);
      loadingIcon, successIcon := true, false;
      call := LoaderCallFor(format, accepted.value);
    }

    /**
     * Lines 187-198: a failure shows the conversion error, a success the
     * success notice and icon; either way the button comes back and the flag
     * is cleared.
     */
    method ConversionDone(failed: bool)
      requires Valid()
      modifies this`statusText, this`errorText, this`loadingIcon, this`successIcon, this`buttonDisabled, this`inProgress
      ensures Valid()
      ensures !buttonDisabled && !inProgress
      ensures failed ==> errorText == FailureError && statusText == "" && !loadingIcon && !successIcon
      ensures !failed ==> statusText == SuccessNotice && errorText == "" && !loadingIcon && successIcon
    {
      if failed {
        SetConversionError(FailureError);
      } else {
        SetConversionStatus(SuccessNotice);
        loadingIcon, successIcon := false, true;
      }
      buttonDisabled := false;
      inProgress := false;
    }
  }
}
