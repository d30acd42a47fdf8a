/**
 * The scene page the viewer navigates to (`src/modelEx/Universal.tsx`): the
 * query parameters with their defaults, base64 back to bytes, the MIME type,
 * and the load/teardown life cycle (mounted flag, abort, object URL
 * revocation, viewer disposal). The viewer library and `URL.createObjectURL`
 * are outside the model: the created URL is a parameter and the library's
 * outcome an event.
 */
module Universal {
  import opened Wrappers
  import opened Text
  import opened Base64
  import Viewer

  // ---------------------------------------------------------------- parameters

  const DefaultFile: string := "model.splat"
  const DefaultAlpha: string := "1"
  const DefaultUp: string := "0,1,0"
  const DefaultPosition: string := "0,1,0"
  const DefaultLookAt: string := "1,0,0"
  const DefaultSh: string := "0"

  /** `searchParams.get(key)`. */
  function Get(query: map<string, string>, key: string): Option<string> {
    if key in query then Some(query[key]) else None
  }

  /** `get(key) || fallback`: a missing key and an empty value both give the fallback. */
  function OrDefault(value: Option<string>, fallback: string): (r: string)
    ensures value.Some? && value.value != "" ==> r == value.value
    ensures value.None? || value.value == "" ==> r == fallback
  {
    match value
    case Some(v) => if v != "" then v else fallback
    case None => fallback
  }

  /** `get(key) === "true"`. */
  predicate Flag(value: Option<string>) {
    value == Some("true")
  }

  /** `text.split(",").map(Number)`. */
  function Coordinates(text: string, numeral: string -> Option<real>): (v: seq<Option<real>>)
    ensures |v| == |Split(text, ',')|
    ensures forall i :: 0 <= i < |v| ==> v[i] == Viewer.ToNumber(Split(text, ',')[i], numeral)
  {
    var parts := Split(text, ',');
    seq(|parts|, i requires 0 <= i < |parts| => Viewer.ToNumber(parts[i], numeral))
  }

  /** What `loadScene` reads from the query (lines 26-34). */
  datatype SceneParams = SceneParams(
    fileName: string, data: string, alpha: Option<int>,
    cameraUp: seq<Option<real>>, cameraPosition: seq<Option<real>>, cameraLookAt: seq<Option<real>>,
    antialiased: bool, scene2D: bool, sh: Option<int>)

  /** The base64 payload; it has no default but the empty string. */
  function DataOf(query: map<string, string>): string {
    OrDefault(Get(query, "data"), "")
  }

  function ReadParams(query: map<string, string>, parseInt: string -> Option<int>, numeral: string -> Option<real>): SceneParams
  {
    SceneParams(
      OrDefault(Get(query, "file"), DefaultFile),
      DataOf(query),
      parseInt(OrDefault(Get(query, "alpha"), DefaultAlpha)),
      Coordinates(OrDefault(Get(query, "cu"), DefaultUp), numeral),
      Coordinates(OrDefault(Get(query, "cp"), DefaultPosition), numeral),
      Coordinates(OrDefault(Get(query, "cla"), DefaultLookAt), numeral),
      Flag(Get(query, "aa")),
      Flag(Get(query, "2d")),
      parseInt(OrDefault(Get(query, "sh"), DefaultSh)))
  }

  /** An empty query gives every default; the scene defaults to the splat format's file name. */
  lemma EmptyQueryDefaults(parseInt: string -> Option<int>, numeral: string -> Option<real>)
    ensures var p := ReadParams(map[], parseInt, numeral);
      p.fileName == DefaultFile && p.data == "" && p.alpha == parseInt("1") && p.sh == parseInt("0")
      && p.cameraUp == Coordinates("0,1,0", numeral) && p.cameraPosition == Coordinates("0,1,0", numeral)
      && p.cameraLookAt == Coordinates("1,0,0", numeral) && !p.antialiased && !p.scene2D
  {
  }

  /** The query the viewer builds (Viewer.tsx, lines 87-97), as a key-value map. */
  function QueryMap(q: Viewer.ViewQuery): map<string, string> {
    map["file" := q.file, "data" := q.data, "alpha" := q.alpha, "cu" := q.cu, "cp" := q.cp,
        "cla" := q.cla, "aa" := q.aa, "2d" := q.twoD, "sh" := q.sh]
  }

  /**
   * What the viewer sends is what this page reads: non-empty fields come
   * through unchanged, and the two flags are read back as they were set.
   */
  lemma ViewerQueryRead(file: string, data: string, alpha: string, cu: string, cp: string, cla: string,
                        aa: bool, twoD: bool, sh: string,
                        parseInt: string -> Option<int>, numeral: string -> Option<real>)
    requires file != "" && alpha != "" && cu != "" && cp != "" && cla != "" && sh != ""
    ensures var p := ReadParams(QueryMap(Viewer.ViewQuery(file, data, alpha, cu, cp, cla,
                                 Viewer.BoolText(aa), Viewer.BoolText(twoD), sh)), parseInt, numeral);
      p.fileName == file && p.data == data && p.alpha == parseInt(alpha) && p.sh == parseInt(sh)
      && p.cameraUp == Coordinates(cu, numeral) && p.cameraPosition == Coordinates(cp, numeral)
      && p.cameraLookAt == Coordinates(cla, numeral) && p.antialiased == aa && p.scene2D == twoD
  {
    var v := Viewer.ViewQuery(file, data, alpha, cu, cp, cla, Viewer.BoolText(aa), Viewer.BoolText(twoD), sh);
    QueryMapGets(v);
    FlagOfBoolText(aa);
    FlagOfBoolText(twoD);
  }

  /** Every key of the viewer's query map holds the field it was built from. */
  lemma QueryMapGets(v: Viewer.ViewQuery)
    ensures var q := QueryMap(v);
      Get(q, "file") == Some(v.file) && Get(q, "data") == Some(v.data) && Get(q, "alpha") == Some(v.alpha)
      && Get(q, "cu") == Some(v.cu) && Get(q, "cp") == Some(v.cp) && Get(q, "cla") == Some(v.cla)
      && Get(q, "aa") == Some(v.aa) && Get(q, "2d") == Some(v.twoD) && Get(q, "sh") == Some(v.sh)
  {
  }

  /** A flag written with `String(b)` reads back as `b`. */
  lemma FlagOfBoolText(b: bool)
    ensures Flag(Some(Viewer.BoolText(b))) == b
  {
    if !b {
      assert Viewer.BoolText(b)[0] == 'f';
    }
  }

  // ---------------------------------------------------------------- bytes

  /**
   * Lines 98-105: `atob` (which throws, here `None`, on text that is not
   * base64), then a byte array filled with each character's code.
   */
  method Base64ToArrayBuffer(base64: string) returns (buffer: Option<seq<byte>>)
    ensures buffer.Some? <==> Atob(base64).Some?
    ensures buffer.Some? ==> (|buffer.value| == |Atob(base64).value|
      && forall i :: 0 <= i < |buffer.value| ==> buffer.value[i] as int == Atob(base64).value[i] as int)
  {
    var decoded := Atob(base64);
    if decoded.None? {
      return None;
    }
    var binary := decoded.value;
    var bytes := new byte[|binary|];
    var i := 0;
    while i < |binary|
      invariant 0 <= i <= |binary|
      invariant forall j :: 0 <= j < i ==> bytes[j] as int == binary[j] as int
    {
      bytes[i] := binary[i] as int;
      i := i + 1;
    }
    buffer := Some(bytes[..]);
  }

  /** Decoding what the viewer encoded gives back the bytes. */
  lemma DecodeWhatViewerEncoded(b: seq<byte>)
    ensures Atob(Viewer.Encoded(b)) == Some(BinaryString(b))
  {
    AtobBtoa(BinaryString(b));
  }

  /**
   * The whole path between the two pages: the viewer's chunked encoding
   * (Viewer.tsx, lines 110-121) followed by this page's decoding gives the
   * file's bytes back.
   */
  method Transfer(bytes: array<byte>) returns (received: Option<seq<byte>>)
    ensures received == Some(bytes[..])
  {
    var encoded := Viewer.ArrayBufferToBase64(bytes, Viewer.ChunkSize);
    DecodeWhatViewerEncoded(bytes[..]);
    received := Base64ToArrayBuffer(encoded);
    assert received.value == bytes[..];
  }

  // ---------------------------------------------------------------- MIME type

  const OctetStream: string := "application/octet-stream"

  /** The text after the last dot (`split(".").pop()`); lower-casing is not modelled. */
  function Extension(fileName: string): string {
    Last(Split(fileName, '.'))
  }

  /** Lines 108-116: every branch, and the default, give the same type. */
  function GetMimeType(fileName: string): (mime: string)
    ensures mime == OctetStream
  {
    match Extension(fileName)
    case "ply" => "application/octet-stream"
    case "splat" => "application/octet-stream"
    case "ksplat" => "application/octet-stream"
    case _ => "application/octet-stream"
  }

  // ---------------------------------------------------------------- life cycle

  /** How the scene loading ended (the `try` of lines 64-72 or its `catch`). */
  datatype Failure = AbortError | ErrorObject(message: string) | NotAnError
  datatype Outcome = Loaded | Failed(failure: Failure)

  const LoadError: string := "无法加载模型"

  /** The effect of lines 14-95 and the state it touches. */
  class SceneView {
    var mounted: bool
    var aborted: bool
    var loading: bool
    var error: string
    /** `objectURLRef.current`; empty until a URL is created. */
    var objectUrl: string
    var viewerLive: bool
    var viewerStarted: bool
    var viewerDisposed: bool
    /** Every object URL revoked so far, in order. */
    var revoked: seq<string>
    /** Whether `addSplatScene` is being awaited. */
    var awaiting: bool

    constructor ()
      ensures mounted && !aborted && loading && error == "" && objectUrl == ""
      ensures !viewerLive && !viewerStarted && !viewerDisposed && revoked == [] && !awaiting
    {
      mounted, aborted, loading, error, objectUrl := true, false, true, "", "";
      viewerLive, viewerStarted, viewerDisposed, revoked, awaiting := false, false, false, [], false;
    }

    /**
     * Lines 18-63: without a container or once unmounted, nothing but the
     * `finally`; otherwise the parameters are read, the data decoded (a
     * decoding error is reported like any other), the object URL created and
     * the viewer built, and the scene is awaited.
     */
    method LoadScene(containerPresent: bool, query: map<string, string>,
                     parseInt: string -> Option<int>, numeral: string -> Option<real>,
                     createdUrl: string, decodeMessage: string)
      returns (params: Option<SceneParams>)
      requires !awaiting && createdUrl != ""
      modifies this`loading, this`error, this`objectUrl, this`viewerLive, this`awaiting
      ensures mounted == old(mounted)
      ensures !containerPresent || !mounted ==>
        params.None? && !awaiting && loading == (old(loading) && !mounted) && error == old(error)
        && objectUrl == old(objectUrl) && viewerLive == old(viewerLive)
      ensures containerPresent && mounted ==>
        if Atob(DataOf(query)).None? then
          params.None? && !awaiting && !loading && error == decodeMessage
          && objectUrl == old(objectUrl) && viewerLive == old(viewerLive)
        else
          params == Some(ReadParams(query, parseInt, numeral)) && awaiting && loading && error == "" && objectUrl == createdUrl && viewerLive
    {
      if !containerPresent || !mounted {
        if mounted {
          loading := false;
        }
        return None;
      }
      loading := true;
      error := "";
      var buffer := Base64ToArrayBuffer(DataOf(query));
      if buffer.None? {
        error := decodeMessage;
        loading := false;
        return None;
      }
      objectUrl := createdUrl;
      viewerLive := true;
      awaiting := true;
      params := Some(ReadParams(query, parseInt, numeral));
    }

    /**
     * Lines 64-82: an abort is not reported; another failure shows its
     * message, or a fixed one when what was thrown is not an `Error`; loading
     * is cleared only while the page is still mounted.
     */
    method SceneSettled(outcome: Outcome)
      requires awaiting
      modifies this`error, this`loading, this`viewerStarted, this`awaiting
      ensures !awaiting
      ensures viewerStarted == (old(viewerStarted) || outcome == Loaded)
      ensures error == match outcome
        case Loaded => old(error)
        case Failed(AbortError) => old(error)
        case Failed(ErrorObject(m)) => m
        case Failed(NotAnError) => LoadError
      ensures loading == (old(loading) && !mounted)
    {
      match outcome {
        case Loaded => viewerStarted := true;
        case Failed(AbortError) =>
        case Failed(ErrorObject(m)) => error := m;
        case Failed(NotAnError) => error := LoadError;
      }
      if mounted {
        loading := false;
      }
      awaiting := false;
    }

    /**
     * Lines 87-94: unmounted, the load aborted, the object URL revoked only
     * if one was created, and the viewer disposed if there is one.
     */
    method Teardown()
      modifies this`mounted, this`aborted, this`revoked, this`viewerDisposed
      ensures !mounted && aborted
      ensures revoked == old(revoked) + (if objectUrl != "" then [objectUrl] else [])
      ensures viewerDisposed == (old(viewerDisposed) || viewerLive)
    {
      mounted := false;
      aborted := true;
      if objectUrl != "" {
        revoked := revoked + [objectUrl];
      }
      if viewerLive {
        viewerDisposed := true;
      }
    }
  }
}
