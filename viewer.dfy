/**
 * The viewer form (`src/components/Viewer.tsx`): the input validator with its
 * first-failure order, the keystroke filters of the alpha, SH and vector
 * fields, the chunked byte-to-binary-string loop followed by base64
 * (section 4 of RFC 4648), the reset, and the early exits of "view".
 *
 * `parseInt` and `Number` are parameters (`None` stands for `NaN`), except
 * that `Number("")` is 0, which the vector check depends on.
 */
module Viewer {
  import opened Wrappers
  import opened Text
  import opened Forms
  import opened Base64

  // ---------------------------------------------------------------- validation

  const AlphaNaNError: string := "Alpha阈值必须为数字"
  const AlphaRangeError: string := "Alpha值范围1-255"
  const ShError: string := "SH度数必须为0-2"
  const UpError: string := "相机上方向量格式错误"
  const PositionError: string := "相机位置格式错误"
  const LookAtError: string := "相机目标点格式错误"
  const NoFileError: string := "请选择文件"
  const ReadError: string := "文件处理失败"

  /** The checks of `validateInputs` in order (lines 45-63), each with its message. */
  const Messages: seq<string> := [AlphaNaNError, AlphaRangeError, ShError, UpError, PositionError, LookAtError]

  /** The text fields of the form. */
  datatype ViewSettings = ViewSettings(
    alphaThreshold: string, cameraUp: string, cameraPosition: string, cameraLookAt: string, shDegree: string)

  /** `Number(part)`: the empty string is 0; anything else is up to `numeral`. */
  function ToNumber(part: string, numeral: string -> Option<real>): Option<real> {
    if part == "" then Some(0.0) else numeral(part)
  }

  /** Lines 53-56: exactly three comma-separated parts, none of them `NaN`. */
  predicate ValidVector(value: string, numeral: string -> Option<real>) {
    var parts := Split(value, ',');
    |parts| == 3 && forall i :: 0 <= i < 3 ==> ToNumber(parts[i], numeral).Some?
  }

  /** Empty parts read as 0, so two bare commas make a valid vector whatever `numeral` says. */
  lemma EmptyPartsAreZero(numeral: string -> Option<real>)
    ensures ValidVector(",,", numeral)
  {
    assert ",," == Join(["", "", ""], ',');
    SplitJoin(["", "", ""], ',');
  }

  /** A vector of two parts is never valid, whatever its parts hold. */
  lemma TwoPartsInvalid(x: string, y: string, numeral: string -> Option<real>)
    requires ',' !in x && ',' !in y
    ensures !ValidVector(x + "," + y, numeral)
  {
    assert x + "," + y == Join([x, y], ',');
    SplitJoin([x, y], ',');
  }

  /** Whether the settings pass check `k` of `Messages`. */
  predicate Passes(f: ViewSettings, parseInt: string -> Option<int>, numeral: string -> Option<real>, k: nat)
    requires k < |Messages|
  {
    var alpha := parseInt(f.alphaThreshold);
    var sh := parseInt(f.shDegree);
    match k
    case 0 => alpha.Some?
    case 1 => alpha.None? || 1 <= alpha.value <= 255
    case 2 => sh.Some? && 0 <= sh.value <= 2
    case 3 => ValidVector(f.cameraUp, numeral)
    case 4 => ValidVector(f.cameraPosition, numeral)
    case _ => ValidVector(f.cameraLookAt, numeral)
  }

  /** Lines 45-63: the message of the first failing check, or `None` (JavaScript's `null`). */
  function ValidateInputs(f: ViewSettings, parseInt: string -> Option<int>, numeral: string -> Option<real>): (message: Option<string>)
    ensures message.None? ==> parseInt(f.alphaThreshold).Some? && 1 <= parseInt(f.alphaThreshold).value <= 255
    ensures message.None? ==> parseInt(f.shDegree).Some? && 0 <= parseInt(f.shDegree).value <= 2
  {
    var alpha := parseInt(f.alphaThreshold);
    if alpha.None? then Some(AlphaNaNError)
    else if alpha.value < 1 || alpha.value > 255 then Some(AlphaRangeError)
    else
      var sh := parseInt(f.shDegree);
      if sh.None? || sh.value < 0 || sh.value > 2 then Some(ShError)
      else if !ValidVector(f.cameraUp, numeral) then Some(UpError)
      else if !ValidVector(f.cameraPosition, numeral) then Some(PositionError)
      else if !ValidVector(f.cameraLookAt, numeral) then Some(LookAtError)
      else None
  }

  /** The index of the check whose message a rejected form shows. */
  lemma FailingCheck(f: ViewSettings, parseInt: string -> Option<int>, numeral: string -> Option<real>) returns (k: nat)
    requires ValidateInputs(f, parseInt, numeral).Some?
    ensures k < |Messages| && ValidateInputs(f, parseInt, numeral).value == Messages[k]
    ensures !Passes(f, parseInt, numeral, k)
    ensures forall j :: 0 <= j < k ==> Passes(f, parseInt, numeral, j)
  {
    var alpha := parseInt(f.alphaThreshold);
    var sh := parseInt(f.shDegree);
    if alpha.None? { k := 0; }
    else if alpha.value < 1 || alpha.value > 255 { k := 1; }
    else if sh.None? || sh.value < 0 || sh.value > 2 { k := 2; }
    else if !ValidVector(f.cameraUp, numeral) { k := 3; }
    else if !ValidVector(f.cameraPosition, numeral) { k := 4; }
    else { k := 5; }
  }

  /** `validateInputs` returns `null` exactly when every check passes. */
  lemma NullIffAllPass(f: ViewSettings, parseInt: string -> Option<int>, numeral: string -> Option<real>)
    ensures ValidateInputs(f, parseInt, numeral).None? <==> forall k :: 0 <= k < |Messages| ==> Passes(f, parseInt, numeral, k)
  {
    if ValidateInputs(f, parseInt, numeral).Some? {
      var k := FailingCheck(f, parseInt, numeral);
    }
  }

  lemma MessagesDistinct()
    ensures forall i, j :: 0 <= i < j < |Messages| ==> Messages[i] != Messages[j]
  {
    assert Messages[0][5] == '阈' && Messages[1][5] == '值';
    assert Messages[0][0] == 'A' && Messages[2][0] == 'S' && Messages[3][0] == '相';
    assert Messages[3][2] == '上' && Messages[4][2] == '位' && Messages[5][2] == '目';
  }

  /**
   * Only the first failing check is reported: the form shows the message of
   * check `k` exactly when check `k` fails and every earlier one passes.
   */
  lemma FirstFailureShown(f: ViewSettings, parseInt: string -> Option<int>, numeral: string -> Option<real>, k: nat)
    requires k < |Messages|
    ensures ValidateInputs(f, parseInt, numeral) == Some(Messages[k]) <==>
      !Passes(f, parseInt, numeral, k) && forall j :: 0 <= j < k ==> Passes(f, parseInt, numeral, j)
  {
    MessagesDistinct();
    var v := ValidateInputs(f, parseInt, numeral);
    if v.Some? {
      var g := FailingCheck(f, parseInt, numeral);
      if g < k {
        assert Messages[g] != Messages[k];
      } else if k < g {
        assert Passes(f, parseInt, numeral, k);
      }
    } else {
      NullIffAllPass(f, parseInt, numeral);
    }
  }

  // ---------------------------------------------------------------- keystroke filters

  predicate IsAsciiDigit(c: char) {
    '0' <= c <= '9'
  }

  predicate IsShDigit(c: char) {
    '0' <= c <= '2'
  }

  predicate IsVectorChar(c: char) {
    IsAsciiDigit(c) || c == ',' || c == '.' || c == '-'
  }

  /** Line 229: digits only, at most three of them. */
  function AlphaFilter(s: string): (r: string)
    ensures |r| <= 3 && forall i :: 0 <= i < |r| ==> IsAsciiDigit(r[i])
    ensures |r| <= |Filter(s, IsAsciiDigit)| && r == Filter(s, IsAsciiDigit)[..|r|]
    ensures |r| == if |Filter(s, IsAsciiDigit)| < 3 then |Filter(s, IsAsciiDigit)| else 3
  {
    Take(Filter(s, IsAsciiDigit), 3)
  }

  /** Line 242: the first of the characters `0`, `1`, `2`, if any. */
  function ShFilter(s: string): (r: string)
    ensures r == "" || r == "0" || r == "1" || r == "2"
    ensures r == "" <==> forall i :: 0 <= i < |s| ==> !IsShDigit(s[i])
    ensures r != "" ==>
      exists k :: 0 <= k < |s| && IsShDigit(s[k]) && r == [s[k]] && forall j :: 0 <= j < k ==> !IsShDigit(s[j])
  {
    var kept := Filter(s, IsShDigit);
    FilterEmpty(s, IsShDigit);
    if kept != [] then
      OneShDigit(kept[0]);
      FilterFirst(s, IsShDigit);
      assert Take(kept, 1) == [kept[0]];
      Take(kept, 1)
    else Take(kept, 1)
  }

  lemma OneShDigit(c: char)
    requires IsShDigit(c)
    ensures [c] == "0" || [c] == "1" || [c] == "2"
  {
  }

  /** Typing into a filtered field and filtering again is filtering once. */
  lemma AlphaFilterIdempotent(s: string)
    ensures AlphaFilter(AlphaFilter(s)) == AlphaFilter(s)
  {
    FilterKeepsAll(AlphaFilter(s), IsAsciiDigit);
  }

  /** The sh field, filtered again, stays as it is. */
  lemma ShFilterIdempotent(s: string)
    ensures ShFilter(ShFilter(s)) == ShFilter(s)
  {
    var r := ShFilter(s);
    if r != "" {
      FilterKeepsAll(r, IsShDigit);
    }
  }

  function DotCount(s: string): nat {
    multiset(s)['.']
  }

  /**
   * Line 294, `.replace(/(\..*)\./g, "$1")` on text that holds no line
   * terminator: the leftmost match runs from the first dot to the last (the
   * `.*` is greedy) and loses its final dot; with fewer than two dots there
   * is no match.
   */
  function CollapseDots(s: string): (r: string)
    ensures DotCount(s) >= 2 ==> var last := LastIndexOf(s, '.'); last >= 0 && r == s[..last] + s[last + 1..]
    ensures DotCount(s) < 2 ==> r == s
    ensures DotCount(r) == if DotCount(s) >= 2 then DotCount(s) - 1 else DotCount(s)
  {
    var first := IndexOf(s, '.');
    var last := LastIndexOf(s, '.');
    DotsAtEnds(s);
    if 0 <= first < last then
      assert s == s[..last] + [s[last]] + s[last + 1..];
      s[..last] + s[last + 1..]
    else s
  }

  /** Two different dots exist exactly when there are at least two dots. */
  lemma DotsAtEnds(s: string)
    ensures var first, last := IndexOf(s, '.'), LastIndexOf(s, '.');
      (0 <= first < last) <==> DotCount(s) >= 2
  {
    var first, last := IndexOf(s, '.'), LastIndexOf(s, '.');
    if first < 0 {
      assert '.' !in s;
    } else if first == last {
      OnlyDot(s, first);
    } else {
      TwoDots(s, first, last);
    }
  }

  lemma OnlyDot(s: string, k: nat)
    requires k < |s| && s[k] == '.'
    requires forall j :: 0 <= j < |s| && j != k ==> s[j] != '.'
    ensures DotCount(s) == 1
  {
    var a, b := s[..k], s[k + 1..];
    assert s == a + [s[k]] + b;
    assert '.' !in a;
    assert forall j :: 0 <= j < |b| ==> b[j] == s[k + 1 + j];
    assert '.' !in b;
  }

  lemma TwoDots(s: string, i: nat, j: nat)
    requires i < j < |s| && s[i] == '.' && s[j] == '.'
    ensures DotCount(s) >= 2
  {
    var a, b := s[..j], s[j..];
    assert s == a + b;
    assert a[i] == '.' && b[0] == '.';
    assert '.' in a && '.' in b;
  }

  /** Lines 292-294: only `[0-9,.-]` survive, then the last of several dots goes. */
  function VectorFilter(s: string): (r: string)
    ensures r == CollapseDots(Filter(s, IsVectorChar))
    ensures forall i :: 0 <= i < |r| ==> IsVectorChar(r[i])
    ensures DotCount(r) == var d := DotCount(s); if d >= 2 then d - 1 else d
  {
    var kept := Filter(s, IsVectorChar);
    FilterKeepsDots(s);
    CollapseKeepsVectorChars(kept);
    CollapseDots(kept)
  }

  /** The character filter of line 292 keeps every dot. */
  lemma FilterKeepsDots(s: string)
    ensures DotCount(Filter(s, IsVectorChar)) == DotCount(s)
  {
    FilterCounts(s, IsVectorChar);
    assert IsVectorChar('.');
  }

  /** Collapsing dots only removes characters, so the vector class survives it. */
  lemma CollapseKeepsVectorChars(s: string)
    requires forall i :: 0 <= i < |s| ==> IsVectorChar(s[i])
    ensures forall i :: 0 <= i < |CollapseDots(s)| ==> IsVectorChar(CollapseDots(s)[i])
  {
    var r := CollapseDots(s);
    if DotCount(s) >= 2 {
      var last := LastIndexOf(s, '.');
      forall i | 0 <= i < |r| ensures IsVectorChar(r[i]) {
        if i < last {
          assert r[i] == s[i];
        } else {
          assert r[i] == s[i + 1];
        }
      }
    }
  }

  /** One keystroke at a time keeps the field to at most one dot. */
  lemma VectorKeystroke(s: string, c: char)
    requires DotCount(s) <= 1
    ensures DotCount(VectorFilter(s + [c])) <= 1
  {
    assert multiset(s + [c]) == multiset(s) + multiset([c]);
  }

  /** Pasted text with three dots, such as `1.2.3.4`, keeps two of them: one change removes one dot. */
  lemma PastedDotsSurvive(s: string)
    requires DotCount(s) == 3
    ensures DotCount(VectorFilter(s)) == 2
  {
  }

  // ---------------------------------------------------------------- base64

  /** Line 113. */
  const ChunkSize: nat := 0x8000

  /** Binary strings of adjacent byte runs concatenate. */
  lemma BinaryStringAppend(a: seq<byte>, b: seq<byte>)
    ensures BinaryString(a + b) == BinaryString(a) + BinaryString(b)
  {
    var l, r := BinaryString(a + b), BinaryString(a) + BinaryString(b);
    assert |l| == |r|;
    forall i | 0 <= i < |l| ensures l[i] == r[i] {
      if i < |a| {
        assert l[i] as int == (a + b)[i] as int == a[i] as int == r[i] as int;
      } else {
        assert l[i] as int == (a + b)[i] as int == b[i - |a|] as int == r[i] as int;
      }
    }
  }

  /** What the page sends: the base64 of the bytes, read as a binary string. */
  function Encoded(bytes: seq<byte>): (s: string)
    ensures Btoa(BinaryString(bytes)) == Some(s)
  {
    var b := BinaryString(bytes);
    assert IsBinaryString(b);
    Btoa(b).value
  }

  /**
   * Lines 110-121: the bytes are turned into characters one chunk at a time
   * (the last chunk may be short) and the whole string is base64-encoded.
   * Whatever the chunk size, each byte becomes one character with its value.
   */
  method ArrayBufferToBase64(bytes: array<byte>, chunkSize: nat) returns (encoded: string)
    requires chunkSize > 0
    ensures encoded == Encoded(bytes[..])
  {
    var result := "";
    var i := 0;
    while i < bytes.Length
      invariant result == BinaryString(bytes[..if i < bytes.Length then i else bytes.Length])
    {
      var end := if i + chunkSize < bytes.Length then i + chunkSize else bytes.Length;
      BinaryStringAppend(bytes[..i], bytes[i..end]);
      assert bytes[..i] + bytes[i..end] == bytes[..end];
      result := result + BinaryString(bytes[i..end]);
      i := i + chunkSize;
    }
    assert bytes[..bytes.Length] == bytes[..];
    encoded := Encoded(bytes[..]);
    assert Btoa(result) == Some(encoded);
    encoded := Btoa(result).value;
  }

  // ---------------------------------------------------------------- the page

  /** A chosen file: its name and its bytes. */
  datatype Upload = Upload(name: string, bytes: seq<byte>)

  /** The query the page navigates to (lines 87-97); flags are spelled `"true"`/`"false"`. */
  datatype ViewQuery = ViewQuery(
    file: string, data: string, alpha: string, cu: string, cp: string, cla: string, aa: string, twoD: string, sh: string)

  function BoolText(b: bool): string {
    if b then "true" else "false"
  }

  const DefaultAlpha: string := "1"
  const DefaultUp: string := "0,1,0"
  const DefaultPosition: string := "-0.02885, 0.064, 0.812"
  const DefaultLookAt: string := "0,0,0"
  const DefaultSh: string := "0"

  /** The three camera fields that share one filter. */
  datatype VectorField = Up | Position | LookAt

  class ViewerPage {
    var file: Option<Upload>
    var alphaThreshold: string
    var cameraUp: string
    var cameraPosition: string
    var cameraLookAt: string
    var shDegree: string
    var antialiased: bool
    var scene2D: bool
    var error: string
    var isLoading: bool
    var fileName: string
    /** The value of the hidden file input. */
    var inputValue: string

    function Settings(): ViewSettings
      reads this
    {
      ViewSettings(alphaThreshold, cameraUp, cameraPosition, cameraLookAt, shDegree)
    }

    /** The initial state (lines 31-43, 64). */
    constructor ()
      ensures file.None? && alphaThreshold == DefaultAlpha && cameraUp == DefaultUp
      ensures cameraPosition == DefaultPosition && cameraLookAt == DefaultLookAt && shDegree == DefaultSh
      ensures !antialiased && !scene2D && error == "" && !isLoading && fileName == NoFileName && inputValue == ""
    {
      file := None;
      alphaThreshold, cameraUp, cameraPosition, cameraLookAt, shDegree :=
        DefaultAlpha, DefaultUp, DefaultPosition, DefaultLookAt, DefaultSh;
      antialiased, scene2D := false, false;
      error, isLoading, fileName, inputValue := "", false, NoFileName, "";
    }

    /** Lines 198-204: the first chosen file, and its name or the placeholder. */
    method SelectFile(files: seq<Upload>, value: string)
      modifies this`file, this`fileName, this`inputValue
      ensures file == (if |files| > 0 then Some(files[0]) else None)
      ensures fileName == (if |files| > 0 then files[0].name else NoFileName)
      ensures inputValue == value
    {
      if |files| > 0 {
        file, fileName := Some(files[0]), files[0].name;
      } else {
        file, fileName := None, NoFileName;
      }
      inputValue := value;
    }

    /** Lines 229, 242, 292-294: each keystroke stores the filtered text. */
    method TypeAlpha(text: string)
      modifies this`alphaThreshold
      ensures alphaThreshold == AlphaFilter(text)
    {
      alphaThreshold := AlphaFilter(text);
    }

    method TypeSh(text: string)
      modifies this`shDegree
      ensures shDegree == ShFilter(text)
    {
      shDegree := ShFilter(text);
    }

    /** Lines 286-296: the one vector field being edited stores the filtered text. */
    method TypeVector(field: VectorField, text: string)
      modifies this`cameraUp, this`cameraPosition, this`cameraLookAt
      ensures field == Up ==> cameraUp == VectorFilter(text) && unchanged(this`cameraPosition, this`cameraLookAt)
      ensures field == Position ==> cameraPosition == VectorFilter(text) && unchanged(this`cameraUp, this`cameraLookAt)
      ensures field == LookAt ==> cameraLookAt == VectorFilter(text) && unchanged(this`cameraUp, this`cameraPosition)
    {
      var filtered := VectorFilter(text);
      match field
      case Up => cameraUp := filtered;
      case Position => cameraPosition := filtered;
      case LookAt => cameraLookAt := filtered;
    }

    /**
     * Lines 123-134: every field back to its default and the file input
     * emptied; the shown file name is not reset.
     */
    method HandleReset()
      modifies this`file, this`alphaThreshold, this`cameraUp, this`cameraPosition, this`cameraLookAt
      modifies this`shDegree, this`antialiased, this`scene2D, this`error, this`inputValue
      ensures file.None? && alphaThreshold == DefaultAlpha && cameraUp == DefaultUp
      ensures cameraPosition == DefaultPosition && cameraLookAt == DefaultLookAt && shDegree == DefaultSh
      ensures !antialiased && !scene2D && error == "" && inputValue == ""
      ensures fileName == old(fileName) && isLoading == old(isLoading)
    {
      file := None;
      alphaThreshold, cameraUp, cameraPosition, cameraLookAt, shDegree :=
        DefaultAlpha, DefaultUp, DefaultPosition, DefaultLookAt, DefaultSh;
      antialiased, scene2D := false, false;
      error := "";
      inputValue := "";
    }

    /**
     * Lines 65-84: without a file, or with an invalid form, the error is
     * shown and nothing else happens; otherwise the shown name is taken from
     * the event's files (a button click carries none), loading starts and
     * the error is cleared.
     */
    method BeginView(eventFiles: seq<string>, parseInt: string -> Option<int>, numeral: string -> Option<real>)
      returns (proceed: bool)
      modifies this`error, this`fileName, this`isLoading
      ensures file.None? ==> !proceed && error == NoFileError && fileName == old(fileName) && isLoading == old(isLoading)
      ensures file.Some? && ValidateInputs(Settings(), parseInt, numeral).Some? ==>
        !proceed && error == ValidateInputs(Settings(), parseInt, numeral).value
        && fileName == old(fileName) && isLoading == old(isLoading)
      ensures file.Some? && ValidateInputs(Settings(), parseInt, numeral).None? ==>
        proceed && error == "" && isLoading && fileName == ChosenName(eventFiles)
    {
      if file.None? {
        error := NoFileError;
        return false;
      }
      var message := ValidateInputs(Settings(), parseInt, numeral);
      if message.Some? {
        error := message.value;
        return false;
      }
      fileName := ChosenName(eventFiles);
      isLoading := true;
      error := "";
      proceed := true;
    }

    /**
     * Lines 86-107: once the file's bytes are read (`None` when reading
     * fails), the page navigates with the base64 of the bytes and the form's
     * text; loading ends either way.
     */
    method FinishView(read: Option<array<byte>>) returns (query: Option<ViewQuery>)
      requires file.Some?
      modifies this`error, this`isLoading
      ensures !isLoading
      ensures read.None? ==> query.None? && error == ReadError
      ensures read.Some? ==> error == old(error) && query == Some(ViewQuery(file.value.name, Encoded(read.value[..]),
        alphaThreshold, cameraUp, cameraPosition, cameraLookAt, BoolText(antialiased), BoolText(scene2D), shDegree))
    {
      if read.None? {
        error := ReadError;
        query := None;
      } else {
        var data := ArrayBufferToBase64(read.value, ChunkSize);
        query := Some(ViewQuery(file.value.name, data, alphaThreshold, cameraUp, cameraPosition, cameraLookAt,
                                BoolText(antialiased), BoolText(scene2D), shDegree));
      }
      isLoading := false;
    }
  }
}
