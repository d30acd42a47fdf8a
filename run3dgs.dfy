/**
 * The streaming job client of the "run UniHair" page
 * (src/components/Run3dgs.tsx): it uploads a photo, reads the server's
 * plain-text log as it streams in, reassembles it into lines, watches the
 * completed lines for the two artifact markers, and lets the user cancel.
 *
 * Each `await` of `handleUploadWithStream` and `cancelProcessing` is a
 * method boundary: the methods of JobClient are the events that resume the
 * suspended code, and their arguments are what the awaited promise delivered
 * (chunks arrive already decoded to text).
 */
module Run3dgs {
  import opened Wrappers
  import opened Text
  import opened Forms

  // ---------------------------------------------------------------------
  // Line reassembly
  // ---------------------------------------------------------------------

  /** The log entries for completed lines: each line with its line feed put back. */
  function Terminated(lines: seq<string>): (entries: seq<string>)
    ensures |entries| == |lines|
    ensures forall i :: 0 <= i < |lines| ==> entries[i] == lines[i] + "\n"
  {
    seq(|lines|, i requires 0 <= i < |lines| => lines[i] + "\n")
  }

  /** The text of a sequence of log entries or chunks, concatenated in order. */
  function Flatten(pieces: seq<string>): string
    decreases |pieces|
  {
    if pieces == [] then "" else pieces[0] + Flatten(pieces[1..])
  }

  /** A log entry made by the read loop: a line-feed-free line with exactly one line feed appended. */
  predicate IsLogLine(e: string) {
    |e| >= 1 && e[|e| - 1] == '\n' && '\n' !in e[..|e| - 1]
  }

  /** What the read loop holds after consuming some text: the completed lines and the pending fragment. */
  datatype Fed = Fed(complete: seq<string>, pending: string)

  /**
   * One turn of the read loop on the buffer (lines 184-189): append the
   * chunk to the pending fragment, split at line feeds, keep the last piece
   * as the new pending fragment.
   */
  function Feed(pending: string, chunk: string): (r: Fed)
    ensures '\n' !in r.pending
    ensures forall i :: 0 <= i < |r.complete| ==> '\n' !in r.complete[i]
    ensures Flatten(Terminated(r.complete)) + r.pending == pending + chunk
  {
    var parts := Split(pending + chunk, '\n');
    SplitPartsLackSeparator(pending + chunk, '\n');
    LinesRebuild(pending + chunk);
    Fed(Init(parts), Last(parts))
  }

  /** The read loop over a whole sequence of chunks, starting from an empty buffer. */
  function FeedAll(chunks: seq<string>): Fed
    decreases |chunks|
  {
    if chunks == [] then Fed([], "")
    else
      var before := FeedAll(Init(chunks));
      var step := Feed(before.pending, Last(chunks));
      Fed(before.complete + step.complete, step.pending)
  }

  lemma {:induction false} FlattenAppend(a: seq<string>, b: seq<string>)
    ensures Flatten(a + b) == Flatten(a) + Flatten(b)
    decreases |a|
  {
    if a != [] {
      FlattenAppend(a[1..], b);
      assert (a + b)[1..] == a[1..] + b;
    } else {
      assert a + b == b;
    }
  }

  lemma TerminatedAppend(a: seq<string>, b: seq<string>)
    ensures Terminated(a + b) == Terminated(a) + Terminated(b)
  {
  }

  /**
   * The completed lines of a text, each with its line feed, followed by its
   * last (unterminated) piece, spell the text again.
   */
  lemma {:induction false} LinesRebuild(s: string)
    ensures Flatten(Terminated(Init(Split(s, '\n')))) + Last(Split(s, '\n')) == s
  {
    JoinRebuild(Split(s, '\n'));
    JoinSplit(s, '\n');
  }

  lemma {:induction false} JoinRebuild(parts: seq<string>)
    requires |parts| >= 1
    ensures Flatten(Terminated(Init(parts))) + Last(parts) == Join(parts, '\n')
    decreases |parts|
  {
    if |parts| > 1 {
      JoinRebuild(parts[1..]);
      assert Init(parts) == [parts[0]] + Init(parts[1..]);
      TerminatedAppend([parts[0]], Init(parts[1..]));
      assert Terminated(Init(parts)) == [parts[0] + "\n"] + Terminated(Init(parts[1..]));
      assert Terminated(Init(parts))[1..] == Terminated(Init(parts[1..]));
    }
  }

  /**
   * A chunk made of whole terminated lines, read after a line boundary,
   * completes exactly those lines and leaves nothing pending.
   */
  lemma FeedWholeLines(lines: seq<string>)
    requires forall i :: 0 <= i < |lines| ==> '\n' !in lines[i]
    ensures Feed("", Flatten(Terminated(lines))) == Fed(lines, "")
  {
    var parts := lines + [""];
    assert Init(parts) == lines;
    JoinRebuild(parts);
    var text := Flatten(Terminated(lines));
    assert text + "" == text;
    forall i | 0 <= i < |parts| ensures '\n' !in parts[i] {
      if i < |lines| {
        assert parts[i] == lines[i];
      }
    }
    SplitJoin(parts, '\n');
    assert "" + text == text;
  }

  /**
   * One more chunk after `before`: the completed lines of the longer text
   * are those of `before` followed by those the read loop completes from the
   * pending fragment, whose last piece is the new fragment.
   */
  lemma ReadStep(before: string, chunk: string)
    ensures Init(Split(before + chunk, '\n')) == Init(Split(before, '\n')) + Init(Split(Last(Split(before, '\n')) + chunk, '\n'))
    ensures Last(Split(before + chunk, '\n')) == Last(Split(Last(Split(before, '\n')) + chunk, '\n'))
  {
    var head := Split(before, '\n');
    var lines := Split(Last(head) + chunk, '\n');
    SplitAppend(before, chunk, '\n');
    assert Split(before + chunk, '\n') == Init(head) + lines;
  }

  /**
   * Chunk-split invariance, exactly: whatever the chunk boundaries, the read
   * loop has completed the lines of the whole text received so far and holds
   * its last piece as the pending fragment.
   */
  lemma {:induction false} FeedAllIsSplit(chunks: seq<string>)
    ensures FeedAll(chunks) == Fed(Init(Split(Flatten(chunks), '\n')), Last(Split(Flatten(chunks), '\n')))
    decreases |chunks|
  {
    if chunks != [] {
      var c0, c := Init(chunks), Last(chunks);
      FeedAllIsSplit(c0);
      var s0 := Flatten(c0);
      FlattenLast(chunks);
      ReadStep(s0, c);
      var pending := Last(Split(s0, '\n'));
      assert FeedAll(c0).pending == pending;
      var step := Feed(pending, c);
      assert step == Fed(Init(Split(pending + c, '\n')), Last(Split(pending + c, '\n')));
    }
  }

  /** The text of all chunks is the text of all but the last, then the last. */
  lemma FlattenLast(chunks: seq<string>)
    requires chunks != []
    ensures Flatten(chunks) == Flatten(Init(chunks)) + Last(chunks)
  {
    assert chunks == Init(chunks) + [Last(chunks)];
    FlattenAppend(Init(chunks), [Last(chunks)]);
    assert Flatten([Last(chunks)]) == Last(chunks);
  }

  /** Two ways of cutting the same text into chunks leave the same lines and the same pending fragment. */
  lemma ChunkSplitInvariance(chunks1: seq<string>, chunks2: seq<string>)
    requires Flatten(chunks1) == Flatten(chunks2)
    ensures FeedAll(chunks1) == FeedAll(chunks2)
  {
    FeedAllIsSplit(chunks1);
    FeedAllIsSplit(chunks2);
  }

  /**
   * No text is lost or repeated: the emitted log entries concatenated, then
   * the pending fragment, are everything received; every entry is one
   * line-feed-free line plus one line feed, and the fragment has no line feed.
   */
  lemma NoLossNoDuplication(chunks: seq<string>)
    ensures Flatten(Terminated(FeedAll(chunks).complete)) + FeedAll(chunks).pending == Flatten(chunks)
    ensures forall i :: 0 <= i < |FeedAll(chunks).complete| ==> IsLogLine(Terminated(FeedAll(chunks).complete)[i])
    ensures '\n' !in FeedAll(chunks).pending
  {
    FeedAllIsSplit(chunks);
    LinesRebuild(Flatten(chunks));
    var r := FeedAll(chunks);
    forall i | 0 <= i < |r.complete| ensures IsLogLine(Terminated(r.complete)[i]) {
      var e := Terminated(r.complete)[i];
      assert e[..|e| - 1] == r.complete[i];
    }
  }

  // ---------------------------------------------------------------------
  // Artifact markers (lines 196-209)
  // ---------------------------------------------------------------------

  const EnhanceMarker: string := "增强文件: "
  const RefineMarker: string := "精细文件: "
  const DownloadPrefix: string := "/download/"
  const PlySuffix: string := ".ply"

  /** JavaScript's `\w` without the `u` flag; the `\d` and `_` of `[\w\d_]` add nothing to it. */
  predicate IsWordChar(c: char) {
    ('A' <= c <= 'Z') || ('a' <= c <= 'z') || ('0' <= c <= '9') || c == '_'
  }

  predicate AllWord(w: string) {
    forall i :: 0 <= i < |w| ==> IsWordChar(w[i])
  }

  /** A captured link: `/download/` + a non-empty run of word characters + `.ply`. */
  predicate IsDownloadUri(u: string) {
    |u| > |DownloadPrefix| + |PlySuffix|
    && u[..|DownloadPrefix|] == DownloadPrefix
    && u[|u| - |PlySuffix|..] == PlySuffix
    && AllWord(u[|DownloadPrefix|..|u| - |PlySuffix|])
  }

  /** The length of the run of word characters that starts at index `k`. */
  function WordRun(text: string, k: nat): (n: nat)
    requires k <= |text|
    ensures k + n <= |text|
    ensures forall j :: k <= j < k + n ==> IsWordChar(text[j])
    ensures k + n == |text| || !IsWordChar(text[k + n])
    decreases |text| - k
  {
    if k == |text| || !IsWordChar(text[k]) then 0 else 1 + WordRun(text, k + 1)
  }

  /**
   * The regular expression `marker(\/download\/[\w\d_]+\.ply)` tried at
   * index `i`: the captured group if it matches there. The greedy run of
   * word characters cannot give anything back, since `.` is not one.
   */
  function MatchAt(text: string, i: nat, marker: string): (r: Option<string>)
    requires i <= |text|
    ensures r.Some? ==> IsDownloadUri(r.value)
  {
    var k := i + |marker| + |DownloadPrefix|;
    if k <= |text| && text[i..k] == marker + DownloadPrefix then
      var n := WordRun(text, k);
      if n > 0 && k + n + |PlySuffix| <= |text| && text[k + n..k + n + |PlySuffix|] == PlySuffix then
        var w := text[k..k + n];
        var u := DownloadPrefix + w + PlySuffix;
        assert u[..|DownloadPrefix|] == DownloadPrefix;
        assert u[|u| - |PlySuffix|..] == PlySuffix;
        assert u[|DownloadPrefix|..|u| - |PlySuffix|] == w;
        Some(u)
      else None
    else None
  }

  /** What the regular expression means at index `i`: marker, prefix, word run `w`, suffix, literally. */
  ghost predicate RegexMatches(text: string, i: nat, marker: string, w: string) {
    |w| > 0 && AllWord(w)
    && OccursAt(text, marker + DownloadPrefix + w + PlySuffix, i)
  }

  /** Whatever MatchAt captures is a literal match of the regular expression at that index. */
  lemma MatchAtSound(text: string, i: nat, marker: string)
    requires i <= |text|
    requires MatchAt(text, i, marker).Some?
    ensures exists w :: RegexMatches(text, i, marker, w) && MatchAt(text, i, marker) == Some(DownloadPrefix + w + PlySuffix)
  {
    var head := marker + DownloadPrefix;
    var k := i + |head|;
    var n := WordRun(text, k);
    var w := text[k..k + n];
    assert AllWord(w) by {
      forall j | 0 <= j < |w| ensures IsWordChar(w[j]) { assert w[j] == text[k + j]; }
    }
    PartsOccur(text, head, w, PlySuffix, i);
    assert RegexMatches(text, i, marker, w);
  }

  /** Every literal match of the regular expression at an index is what MatchAt captures there. */
  lemma MatchAtComplete(text: string, i: nat, marker: string, w: string)
    requires i <= |text|
    requires RegexMatches(text, i, marker, w)
    ensures MatchAt(text, i, marker) == Some(DownloadPrefix + w + PlySuffix)
  {
    var head := marker + DownloadPrefix;
    var k := i + |head|;
    var e := k + |w|;
    OccurrenceParts(text, head, w, PlySuffix, i);
    forall j | k <= j < e ensures IsWordChar(text[j]) {
      assert text[j] == text[k..e][j - k];
    }
    assert text[e] == text[e..e + |PlySuffix|][0];
    WordRunFrom(text, k, |w|);
  }

  /** An occurrence of `a + b + c` holds `a`, `b` and `c` side by side. */
  lemma OccurrenceParts(text: string, a: string, b: string, c: string, i: nat)
    requires OccursAt(text, a + b + c, i)
    ensures var j, k := i + |a|, i + |a| + |b|;
      text[i..j] == a && text[j..k] == b && text[k..k + |c|] == c
  {
    var m := a + b + c;
    var t := text[i..i + |m|];
    assert t == m;
    SliceOfSlice(text, i, i + |m|, 0, |a|);
    SliceOfSlice(text, i, i + |m|, |a|, |a| + |b|);
    SliceOfSlice(text, i, i + |m|, |a| + |b|, |m|);
    assert m[..|a|] == a && m[|a|..|a| + |b|] == b && m[|a| + |b|..|m|] == c;
  }

  /** `a`, `b` and `c` side by side are an occurrence of `a + b + c`. */
  lemma PartsOccur(text: string, a: string, b: string, c: string, i: nat)
    requires var j, k := i + |a|, i + |a| + |b|;
      k + |c| <= |text| && text[i..j] == a && text[j..k] == b && text[k..k + |c|] == c
    ensures OccursAt(text, a + b + c, i)
  {
    var j, k := i + |a|, i + |a| + |b|;
    assert text[i..k + |c|] == text[i..j] + text[j..k] + text[k..k + |c|];
  }

  /** A run of `n` word characters followed by a non-word character is the maximal run. */
  lemma {:induction false} WordRunFrom(text: string, k: nat, n: nat)
    requires k + n < |text|
    requires forall j :: k <= j < k + n ==> IsWordChar(text[j])
    requires !IsWordChar(text[k + n])
    ensures WordRun(text, k) == n
    decreases n
  {
    if n > 0 {
      WordRunFrom(text, k + 1, n - 1);
    }
  }

  /** The expression matches at no index in `lo..hi` (bounded by the text). */
  predicate NoMatchIn(text: string, marker: string, lo: nat, hi: nat) {
    forall j :: lo <= j < hi && j <= |text| ==> MatchAt(text, j, marker).None?
  }

  /**
   * The search behind `text.match(regex)` without the `g` flag: the leftmost
   * index at or after `from` where the expression matches.
   */
  function Search(text: string, marker: string, from: nat): (r: Option<nat>)
    requires from <= |text|
    ensures r.Some? ==> from <= r.value <= |text| && MatchAt(text, r.value, marker).Some?
                        && NoMatchIn(text, marker, from, r.value)
    ensures r.None? ==> NoMatchIn(text, marker, from, |text| + 1)
    decreases |text| - from
  {
    if MatchAt(text, from, marker).Some? then Some(from)
    else if from == |text| then None
    else Search(text, marker, from + 1)
  }

  /** `text.match(regex)?.[1]`: the group captured by the leftmost match. */
  function FirstMatch(text: string, marker: string): Option<string> {
    match Search(text, marker, 0)
    case Some(j) => MatchAt(text, j, marker)
    case None => None
  }

  datatype Links = Links(enhance: string, refine: string)

  /**
   * The marker scan of one chunk (lines 196-209): the completed lines are
   * joined with line feeds and both expressions are matched against them;
   * links come out only when both match.
   */
  function ScanLinks(complete: seq<string>): (r: Option<Links>)
    ensures r.Some? ==> IsDownloadUri(r.value.enhance) && IsDownloadUri(r.value.refine)
  {
    var outputText := Join(complete, '\n');
    var enhanceMatch := FirstMatch(outputText, EnhanceMarker);
    var refineMatch := FirstMatch(outputText, RefineMarker);
    if enhanceMatch.Some? && refineMatch.Some? then Some(Links(enhanceMatch.value, refineMatch.value)) else None
  }

/**
   * Links are found exactly when both expressions match somewhere in the
   * joined completed lines, and each link is the group of the leftmost match.
   */
  lemma ScanLinksMeaning(complete: seq<string>)
    ensures var t := Join(complete, '\n');
      ScanLinks(complete).Some? <==> !NoMatchIn(t, EnhanceMarker, 0, |t| + 1) && !NoMatchIn(t, RefineMarker, 0, |t| + 1)
    ensures var t := Join(complete, '\n');
      ScanLinks(complete).Some? ==>
        exists i, j :: 0 <= i <= |t| && 0 <= j <= |t|
          && NoMatchIn(t, EnhanceMarker, 0, i) && MatchAt(t, i, EnhanceMarker) == Some(ScanLinks(complete).value.enhance)
          && NoMatchIn(t, RefineMarker, 0, j) && MatchAt(t, j, RefineMarker) == Some(ScanLinks(complete).value.refine)
  {
    var t := Join(complete, '\n');
    var e := Search(t, EnhanceMarker, 0);
    var f := Search(t, RefineMarker, 0);
    if e.Some? && f.Some? {
      assert MatchAt(t, e.value, EnhanceMarker) == Some(ScanLinks(complete).value.enhance);
    }
  }

  // ---------------------------------------------------------------------
  // The client
  // ---------------------------------------------------------------------

  /** Where `handleUploadWithStream` is suspended. */
  datatype Stage = Idle | AwaitingResponse | AwaitingJson | Reading

  /** A JSON reply body; a missing `error`, `enhance` or `refine` field reads as "". */
  datatype JsonReply = JsonReply(error: string, enhance: string, refine: string)

  const StartNotice: string := "开始处理，请稍候...\n"
  const CancelNotice: string := "正在尝试取消处理...\n"
  const AbortNotice: string := "用户取消了请求\n"
  const UnknownError: string := "未知错误"
  const NoStreamError: string := "无法读取响应流"
  const JsonContentType: string := "application/json"

  /** The two servers an upload can go to (lines 140-142). */
  datatype Server = Remote | Local

  /** The remote target listens on port 6006, the local one on 5001. */
  function UploadUrl(server: Server): string {
    match server
    case Remote => "http://127.0.0.1:6006/run-unihair"
    case Local => "http://127.0.0.1:5001/run-unihair"
  }

  /** Lines 59 and 87-88: cancellation always goes to the local server. */
  function CancelUrl(id: string): string {
    "http://127.0.0.1:5001/cancel/" + id
  }

  function ServerErrorMessage(status: nat): string {
    "服务器返回错误: " + NatToString(status)
  }

  /** `err instanceof Error ? err.message : "未知错误"`, with `None` for a non-Error value. */
  function ErrorText(message: Option<string>): string {
    message.GetOr(UnknownError)
  }

  /**
   * The read loop's invariant: having received `received`, it has appended
   * the terminated completed lines and holds the last piece as its buffer.
   */
  ghost predicate ReadLoopHolds(received: string, streamed: seq<string>, buffer: string) {
    && streamed == Terminated(Init(Split(received, '\n')))
    && buffer == Last(Split(received, '\n'))
  }

  /** Before the first chunk nothing is received, streamed or buffered. */
  lemma ReadLoopStarts()
    ensures ReadLoopHolds("", [], "")
  {
    assert Split("", '\n') == [""];
  }

  class JobClient {
    var file: Option<string>
    var fileName: string
    var loading: bool
    var showOutput: bool
    var processingOutput: seq<string>
    var downloadLinks: Option<Links>
    var error: Option<string>
    var processId: Option<string>
    /** `abortControllerRef.current !== null` */
    var controllerLive: bool
    /** The signal of the running upload's controller has been aborted. */
    var signalAborted: bool
    var stage: Stage
    var accumulatedOutput: string
    /** `cancelProcessing` activations waiting for the cancel request to settle. */
    var pendingCancels: nat
    /** Everything the read loop has been given since the stream opened. */
    ghost var received: string
    /** The log entries the read loop has appended since the stream opened. */
    ghost var streamed: seq<string>

    /**
     * The client's invariant: a live controller belongs to a running upload;
     * a process id is never empty; and while reading, the read loop has
     * appended exactly the completed lines of what it received and holds the
     * last piece as the pending fragment.
     */
    ghost predicate Valid()
      reads this
    {
      && (controllerLive ==> stage != Idle)
      && (processId.Some? ==> processId.value != "")
      && (stage == Reading ==> ReadLoopHolds(received, streamed, accumulatedOutput))
    }

    constructor ()
      ensures Valid()
      ensures file.None? && fileName == NoFileName && !loading && !showOutput && processingOutput == []
      ensures downloadLinks.None? && error.None? && processId.None?
      ensures !controllerLive && stage == Idle && pendingCancels == 0
    {
      file, fileName := None, NoFileName;
      loading, showOutput := false, false;
      processingOutput := [];
      downloadLinks, error, processId := None, None, None;
      controllerLive, signalAborted := false, false;
      stage, accumulatedOutput, pendingCancels := Idle, "", 0;
      received, streamed := "", [];
    }

    /** The file input's change handler (lines 300-306): the first selected file, or none. */
    method SelectFile(files: seq<string>)
      requires Valid()
      modifies this`file, this`fileName
      ensures Valid()
      ensures |files| > 0 ==> file == Some(files[0]) && fileName == files[0]
      ensures |files| == 0 ==> file.None? && fileName == NoFileName
    {
      if |files| > 0 {
        file, fileName := Some(files[0]), files[0];
      } else {
        file, fileName := None, NoFileName;
      }
    }

    /** The `finally` block of `handleUploadWithStream` (lines 223-226). */
    method Settle()
      requires stage != Idle
      modifies this`loading, this`controllerLive, this`stage
      ensures !loading && !controllerLive && stage == Idle
    {
      loading := false;
      controllerLive := false;
      stage := Idle;
    }

    /**
     * `handleUploadWithStream` up to its first `await` (lines 123-148):
     * without a file nothing happens; otherwise the display is reset, a
     * fresh controller is made, and the upload is posted to the server in
     * `request` (at `UploadUrl` of it).
     */
    method HandleUpload(useRemote: bool) returns (request: Option<Server>)
      requires Valid() && stage == Idle
      modifies this`loading, this`showOutput, this`processingOutput, this`downloadLinks, this`error, this`processId
      modifies this`controllerLive, this`signalAborted, this`stage
      ensures Valid()
      ensures file.None? ==> request.None? && unchanged(this)
      ensures file.Some? ==>
        && request == Some(if useRemote then Remote else Local)
        && loading && showOutput && processingOutput == [StartNotice]
        && downloadLinks.None? && error.None? && processId.None?
        && controllerLive && !signalAborted && stage == AwaitingResponse
    {
      if file.None? {
        return None;
      }
      loading, showOutput, processingOutput := true, true, [StartNotice];
      downloadLinks, error, processId := None, None, None;
      controllerLive, signalAborted, stage := true, false, AwaitingResponse;
      request := Some(if useRemote then Remote else Local);
    }

    /**
     * The response headers arrive (lines 150-176). A failing status ends the
     * run with a server error; a non-empty `X-Process-ID` is kept; a JSON
     * content type short-circuits to reading the JSON body; a missing body
     * ends the run with an error; otherwise the read loop starts.
     */
    method ResponseArrived(ok: bool, status: nat, idHeader: Option<string>, contentType: Option<string>, hasBody: bool)
      requires Valid() && stage == AwaitingResponse && !signalAborted
      modifies this`error, this`processId, this`loading, this`controllerLive, this`stage
      modifies this`accumulatedOutput, this`received, this`streamed
      ensures Valid()
      ensures !ok ==> error == Some(ServerErrorMessage(status)) && !loading && !controllerLive && stage == Idle
                      && processId == old(processId)
      ensures ok ==> processId == (if idHeader.Some? && idHeader.value != "" then idHeader else old(processId))
      ensures ok && Contains(contentType.GetOr(""), JsonContentType) ==>
                error == old(error) && loading == old(loading) && controllerLive == old(controllerLive) && stage == AwaitingJson
      ensures ok && !Contains(contentType.GetOr(""), JsonContentType) && !hasBody ==>
                error == Some(NoStreamError) && !loading && !controllerLive && stage == Idle
      ensures ok && !Contains(contentType.GetOr(""), JsonContentType) && hasBody ==>
                && error == old(error) && loading == old(loading) && controllerLive == old(controllerLive)
                && stage == Reading && accumulatedOutput == "" && received == "" && streamed == []
    {
      if !ok {
        error := Some(ServerErrorMessage(status));
        Settle();
        return;
      }
      if idHeader.Some? && idHeader.value != "" {
        processId := idHeader;
      }
      if Contains(contentType.GetOr(""), JsonContentType) {
        stage := AwaitingJson;
        return;
      }
      if !hasBody {
        error := Some(NoStreamError);
        Settle();
        return;
      }
      stage := Reading;
      accumulatedOutput := "";
      received, streamed := "", [];
      ReadLoopStarts();
    }

    /**
     * The JSON short-circuit (lines 162-169): a truthy `error` fills the
     * error slot, anything else becomes the download links; no stream is
     * read and the run ends.
     */
    method JsonArrived(data: JsonReply)
      requires Valid() && stage == AwaitingJson && !signalAborted
      modifies this`error, this`downloadLinks, this`loading, this`controllerLive, this`stage
      ensures Valid()
      ensures data.error != "" ==> error == Some(data.error) && downloadLinks == old(downloadLinks)
      ensures data.error == "" ==> error == old(error) && downloadLinks == Some(Links(data.enhance, data.refine))
      ensures !loading && !controllerLive && stage == Idle
      ensures processingOutput == old(processingOutput) && processId == old(processId)
      ensures file == old(file) && pendingCancels == old(pendingCancels)
    {
      if data.error != "" {
        error := Some(data.error);
      } else {
        downloadLinks := Some(Links(data.enhance, data.refine));
      }
      loading := false;
      Settle();
    }

    /** The marker scan of lines 196-209: links replace the old ones only when both markers match. */
    method ScanChunk(complete: seq<string>)
      modifies this`downloadLinks
      ensures downloadLinks == (if ScanLinks(complete).Some? then ScanLinks(complete) else old(downloadLinks))
    {
      var found := ScanLinks(complete);
      if found.Some? {
        downloadLinks := found;
      }
    }

    /**
     * The buffer half of one turn of the read loop (lines 184-189): the
     * completed lines go to the log with their line feeds and the last piece
     * stays pending.
     */
    method ReadChunk(chunk: string) returns (complete: seq<string>)
      requires Valid() && stage == Reading
      modifies this`accumulatedOutput, this`processingOutput, this`received, this`streamed
      ensures Valid()
      ensures received == old(received) + chunk
      ensures complete == Feed(old(accumulatedOutput), chunk).complete
      ensures accumulatedOutput == Feed(old(accumulatedOutput), chunk).pending
      ensures processingOutput == old(processingOutput) + Terminated(complete)
      ensures streamed == old(streamed) + Terminated(complete)
    {
      ghost var before := received;
      var fed := Feed(accumulatedOutput, chunk);
      accumulatedOutput := fed.pending;
      complete := fed.complete;
      processingOutput := processingOutput + Terminated(complete);
      ReadStep(before, chunk);
      TerminatedAppend(Init(Split(before, '\n')), complete);
      streamed := streamed + Terminated(complete);
      received := received + chunk;
    }

    /**
     * One decoded chunk arrives (lines 184-209): the completed lines go to
     * the log with their line feeds, the last piece stays pending, and the
     * completed lines of this chunk alone are scanned for both markers.
     */
    method ChunkArrived(chunk: string)
      requires Valid() && stage == Reading && !signalAborted
      modifies this`accumulatedOutput, this`processingOutput, this`downloadLinks, this`received, this`streamed
      ensures Valid()
      ensures received == old(received) + chunk
      ensures var fed := Feed(old(accumulatedOutput), chunk);
        && accumulatedOutput == fed.pending
        && processingOutput == old(processingOutput) + Terminated(fed.complete)
        && streamed == old(streamed) + Terminated(fed.complete)
        && downloadLinks == (if ScanLinks(fed.complete).Some? then ScanLinks(fed.complete) else old(downloadLinks))
    {
      var complete := ReadChunk(chunk);
      ScanChunk(complete);
    }

    /**
     * The stream is exhausted (lines 212-214 and the `finally`): a non-empty
     * pending fragment is appended once, without a line feed and without
     * being scanned for markers.
     */
    method StreamEnded()
      requires Valid() && stage == Reading && !signalAborted
      modifies this`processingOutput, this`loading, this`controllerLive, this`stage
      ensures Valid()
      ensures processingOutput == old(processingOutput) + (if old(accumulatedOutput) != "" then [old(accumulatedOutput)] else [])
      ensures downloadLinks == old(downloadLinks) && error == old(error) && processId == old(processId)
      ensures !loading && !controllerLive && stage == Idle
      ensures file == old(file) && pendingCancels == old(pendingCancels)
    {
      if accumulatedOutput != "" {
        processingOutput := processingOutput + [accumulatedOutput];
      }
      Settle();
    }

    /**
     * The awaited promise rejects (lines 215-226): an AbortError only logs
     * the cancellation; any other error fills the error slot. An aborted
     * signal can only reject with an AbortError.
     */
    method Rejected(abortError: bool, message: Option<string>)
      requires Valid() && stage != Idle
      requires signalAborted ==> abortError
      modifies this`processingOutput, this`error, this`loading, this`controllerLive, this`stage
      ensures Valid()
      ensures abortError ==> processingOutput == old(processingOutput) + [AbortNotice] && error == old(error)
      ensures !abortError ==> processingOutput == old(processingOutput) && error == Some(ErrorText(message))
      ensures !loading && !controllerLive && stage == Idle
      ensures downloadLinks == old(downloadLinks) && processId == old(processId)
      ensures file == old(file) && pendingCancels == old(pendingCancels)
    {
      if abortError {
        processingOutput := processingOutput + [AbortNotice];
      } else {
        error := Some(ErrorText(message));
      }
      Settle();
    }

    /**
     * `cancelProcessing` up to its `await` (lines 77-92): with no process id
     * nothing at all happens; otherwise the notice is logged, the live
     * controller is aborted and dropped, and the cancel request goes out.
     */
    method CancelProcessing() returns (request: Option<string>)
      requires Valid()
      modifies this`processingOutput, this`signalAborted, this`controllerLive, this`pendingCancels
      ensures Valid()
      ensures old(processId).None? ==> request.None? && unchanged(this)
      ensures old(processId).Some? ==>
        && request == Some(CancelUrl(old(processId).value))
        && processingOutput == old(processingOutput) + [CancelNotice]
        && !controllerLive && signalAborted == (old(signalAborted) || old(controllerLive))
        && pendingCancels == old(pendingCancels) + 1
        && loading == old(loading) && processId == old(processId) && stage == old(stage)
        && error == old(error) && downloadLinks == old(downloadLinks) && file == old(file)
    {
      if processId.None? {
        return None;
      }
      processingOutput := processingOutput + [CancelNotice];
      if controllerLive {
        signalAborted := true;
        controllerLive := false;
      }
      pendingCancels := pendingCancels + 1;
      request := Some(CancelUrl(processId.value));
    }

    /**
     * The cancel request answers (lines 94-107 and the `finally`): its
     * message is logged as a success or a failure; the process id is
     * dropped and loading ends either way.
     */
    method CancelReplied(ok: bool, message: string)
      requires Valid() && pendingCancels > 0
      modifies this`processingOutput, this`processId, this`loading, this`pendingCancels
      ensures Valid()
      ensures processingOutput == old(processingOutput) + [(if ok then "取消成功: " else "取消失败: ") + message + "\n"]
      ensures processId.None? && !loading && pendingCancels == old(pendingCancels) - 1
      ensures stage == old(stage) && controllerLive == old(controllerLive) && signalAborted == old(signalAborted)
      ensures error == old(error) && downloadLinks == old(downloadLinks) && file == old(file)
    {
      if ok {
        processingOutput := processingOutput + ["取消成功: " + message + "\n"];
      } else {
        processingOutput := processingOutput + ["取消失败: " + message + "\n"];
      }
      processId := None;
      loading := false;
      pendingCancels := pendingCancels - 1;
    }

    /** The cancel request itself fails (lines 108-119): logged, never an error of the job. */
    method CancelFailed(message: Option<string>)
      requires Valid() && pendingCancels > 0
      modifies this`processingOutput, this`processId, this`loading, this`pendingCancels
      ensures Valid()
      ensures processingOutput == old(processingOutput) + ["取消过程中发生错误: " + ErrorText(message) + "\n"]
      ensures processId.None? && !loading && pendingCancels == old(pendingCancels) - 1
      ensures stage == old(stage) && controllerLive == old(controllerLive) && signalAborted == old(signalAborted)
      ensures error == old(error) && downloadLinks == old(downloadLinks) && file == old(file)
    {
      processingOutput := processingOutput + ["取消过程中发生错误: " + ErrorText(message) + "\n"];
      processId := None;
      loading := false;
      pendingCancels := pendingCancels - 1;
    }

    /**
     * The `beforeunload` handler (lines 57-67): a fire-and-forget cancel to
     * the local server goes out exactly when a job is loading and its
     * process id is known; nothing else changes.
     */
    method BeforeUnload() returns (beacon: Option<string>)
      requires Valid()
      ensures beacon.Some? <==> loading && processId.Some?
      ensures beacon.Some? ==> beacon.value == CancelUrl(processId.value) && processId.value != ""
    {
      if loading && processId.Some? {
        beacon := Some(CancelUrl(processId.value));
      } else {
        beacon := None;
      }
    }

    /**
     * The effect cleanup (lines 48-54). React runs it whenever `loading` or
     * `processId` changes, with the values of the render that installed it:
     * `prevLoading` and `prevId`. The `cancelProcessing` it calls comes from
     * that render too, so the cancel goes out for `prevId`; the controller it
     * aborts is the current one, because a ref is shared between renders.
     */
    method CleanupRuns(prevLoading: bool, prevId: Option<string>) returns (request: Option<string>)
      requires Valid()
      modifies this`processingOutput, this`signalAborted, this`controllerLive, this`pendingCancels
      ensures Valid()
      ensures request.Some? <==> prevLoading && prevId.Some? && prevId.value != ""
      ensures request.None? ==> unchanged(this)
      ensures request.Some? ==>
        && request.value == CancelUrl(prevId.value)
        && processingOutput == old(processingOutput) + [CancelNotice]
        && !controllerLive && signalAborted == (old(signalAborted) || old(controllerLive))
        && pendingCancels == old(pendingCancels) + 1
    {
      if prevLoading && prevId.Some? && prevId.value != "" {
        processingOutput := processingOutput + [CancelNotice];
        if controllerLive {
          signalAborted := true;
          controllerLive := false;
        }
        pendingCancels := pendingCancels + 1;
        request := Some(CancelUrl(prevId.value));
      } else {
        request := None;
      }
    }

    /** On unmount the cleanup runs with the last render's values, which are the current state. */
    method Teardown() returns (request: Option<string>)
      requires Valid()
      modifies this`processingOutput, this`signalAborted, this`controllerLive, this`pendingCancels
      ensures Valid()
      ensures request.Some? <==> old(loading) && old(processId).Some?
      ensures !(old(loading) && old(processId).Some?) ==> unchanged(this)
      ensures request.Some? ==> request.value == CancelUrl(old(processId).value)
                                && processingOutput == old(processingOutput) + [CancelNotice] && !controllerLive
    {
      request := CleanupRuns(loading, processId);
    }

    /**
     * A user's cancel is sent twice. Its abort makes the pending read or
     * fetch reject with an `AbortError` before the cancel's reply arrives;
     * that rejection's `finally` sets `loading` false while the id is kept,
     * so the cleanup installed by the loading render runs with `loading`
     * true and that id. When the reply later clears the id, the cleanup it
     * triggers sees `loading` false and sends nothing.
     */
    method UserCancelRepeats(id: string, ok: bool, message: string) returns (first: Option<string>, second: Option<string>)
      requires Valid() && loading && processId == Some(id) && stage != Idle
      modifies this`processingOutput, this`signalAborted, this`controllerLive, this`pendingCancels
      modifies this`processId, this`loading, this`error, this`stage
      ensures first == Some(CancelUrl(id)) && second == first
      ensures processId.None? && !loading && pendingCancels == old(pendingCancels) + 1
      ensures processingOutput == old(processingOutput)
        + [CancelNotice, AbortNotice, CancelNotice, (if ok then "取消成功: " else "取消失败: ") + message + "\n"]
    {
      first := CancelProcessing();
      Rejected(true, None);
      second := CleanupRuns(true, Some(id));
      CancelReplied(ok, message);
    }

    /**
     * A run that ends normally still sends a cancel: the stream's end sets
     * `loading` false while the id stays, so the cleanup installed by the
     * loading render runs with `loading` true and that id.
     */
    method FinishedRunCancels(id: string) returns (request: Option<string>)
      requires Valid() && stage == Reading && !signalAborted && loading && processId == Some(id)
      modifies this`processingOutput, this`loading, this`controllerLive, this`stage
      modifies this`signalAborted, this`pendingCancels
      ensures request == Some(CancelUrl(id))
      ensures !loading && processId == Some(id)
      ensures processingOutput == old(processingOutput)
        + (if old(accumulatedOutput) != "" then [old(accumulatedOutput)] else []) + [CancelNotice]
    {
      var prevLoading := loading;
      StreamEnded();
      request := CleanupRuns(prevLoading, processId);
    }
  }
}
