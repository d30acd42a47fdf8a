# HairVision in Dafny

This project models the logic at the heart of HairVision, a web front end and
a Flask back end for reconstructing 3D Gaussian-splat hair models. It covers
these parts:

- **The streaming job client** (`Run3dgs`). A class `JobClient` whose methods
  are the events of an upload: start, response headers, JSON reply, text
  chunk, end of stream, rejection, cancel and its replies, unload and
  unmount. It includes the line-reassembly buffer of the read loop and the
  two regular expressions that pick the download links out of completed lines.
- **The UniHair server's line handling and job registry** (`UniHair`):
  - progress-line recognition;
  - removal of ECMA-48 escape sequences (section 5.4 of ECMA-48, ESC Fe and
    CSI forms);
  - line labelling and the per-line bookkeeping of the output reader (class
    `OutputReader`);
  - the table of running jobs with register, finish, remove, cancel and
    status (class `ProcessRegistry`);
  - the artifact report that ends every run.
- **The hand-off between server and client** (`Handshake`). The report's
  lines reach the client whole. When both marker lines complete in the same
  read, the client's expressions find the links exactly when both files
  exist and the upload's stem is a word. When they complete in different
  reads, no links are set.
- **The format-conversion page** (`Develop`): the base name shown for a
  chosen file, the validation chain with its first-failure message, the
  in-progress guard, the status/error setters, the compression-level handler
  (which only affects advanced rows the page renders, and it renders none)
  and the loader dispatch (class `ConversionPage`).
- **The KSplat viewer page** (`Viewer`): `validateInputs`, the keystroke
  filters, the chunked byte-to-binary-string loop followed by base64
  (section 4 of RFC 4648), reset and the two halves of "view" (class
  `ViewerPage`).
- **The universal model page** (`Universal`):
  - the query parameters and their defaults;
  - `base64ToArrayBuffer`, with the round trip from the viewer page's
    encoding;
  - `getMimeType`;
  - the mount/abort/revoke life cycle (class `SceneView`).
- **The classification page** (`Classify`): the argmax `reduce` over the
  class probabilities, and the guard and error branches (class
  `ClassifyPage`).
- **The sidebar** (`Sidebar`): the nested-loop lookup of the active item,
  proved equal to a first-match search, and the click handler (class
  `AppSidebar`).

Shared modules hold the built-ins the sources lean on:

- `Wrappers`: the `Option` type.
- `Text`:
  - JavaScript `split`/`join`, `lastIndexOf`/`indexOf`;
  - character filters (`replace` with a negated class);
  - Python `rstrip`, slicing and `str(n)`.
- `Base64`: `btoa` and the forgiving `atob`.
- `Forms`: the "no file chosen" placeholder.

JavaScript's `parseInt`, `parseFloat` and `Number` are function-typed
parameters returning `Option`. `None` stands for `NaN`. Probabilities and
sizes are `real`s. Network requests are modelled as URLs the methods return,
and replies as the arguments of later methods. Each `await` is a method
boundary.

Where the project's prose description and the code differ, the model follows
the code:

- Links are matched only within the lines completed by one chunk, not
  across chunks (`Run3dgs.tsx` lines 196-209).
- `cancelProcessing` does nothing at all before the server's process id is
  known. It does not abort the request locally (lines 77-79).
- `handleReset` on the viewer page leaves the displayed file name alone
  (`Viewer.tsx` lines 123-134).
- The viewer's "view" button handler reads `e.target.files` from the
  button's click event, which has none. So after a successful check the
  name becomes the placeholder (`Viewer.tsx` lines 75-79).

## Model

| member | source | states |
|---|---|---|
| Run3dgs.Terminated | src/components/Run3dgs.tsx:191-194 | each log entry is its line with exactly one `\n` appended, in order |
| Run3dgs.Feed | src/components/Run3dgs.tsx:184-189 | after a chunk the pending fragment and every completed line hold no `\n`, and the terminated lines plus the fragment equal the old fragment plus the chunk |
| Run3dgs.FlattenAppend | src/components/Run3dgs.tsx:191-194 | concatenating the entries of two batches is the concatenation of each |
| Run3dgs.LinesRebuild | src/components/Run3dgs.tsx:187-189 | splitting at `\n` and re-terminating all but the last piece gives the text back |
| Run3dgs.ReadStep | src/components/Run3dgs.tsx:184-189 | splitting the whole text equals splitting what came before and re-splitting its last piece with the new chunk |
| Run3dgs.FeedAllIsSplit | src/components/Run3dgs.tsx:178-194 | after any sequence of chunks the emitted lines and fragment are the split of the concatenated chunks |
| Run3dgs.ChunkSplitInvariance | src/components/Run3dgs.tsx:178-194 | two chunkings of the same text emit the same lines and keep the same fragment |
| Run3dgs.NoLossNoDuplication | src/components/Run3dgs.tsx:178-194 | emitted entries plus the fragment equal everything received; every entry is one `\n`-free line plus `\n`; the fragment has no `\n` |
| Run3dgs.MatchAt | src/components/Run3dgs.tsx:197-202 | a capture at an index is `/download/` + word characters + `.ply` |
| Run3dgs.MatchAtSound | src/components/Run3dgs.tsx:197-202 | whatever is captured is a literal match of marker, prefix, word run and suffix at that index |
| Run3dgs.MatchAtComplete | src/components/Run3dgs.tsx:197-202 | every literal match at an index is captured, with exactly its word run |
| Run3dgs.Search | src/components/Run3dgs.tsx:197-202 | the leftmost index with a match, none before it; or no match anywhere |
| Run3dgs.ScanLinks | src/components/Run3dgs.tsx:196-209 | links are produced only as two `/download/<word>.ply` URIs |
| Run3dgs.ScanLinksMeaning | src/components/Run3dgs.tsx:196-209 | links come out iff both expressions match the joined lines, and each is the leftmost match of its expression |
| Run3dgs.JobClient.constructor | src/components/Run3dgs.tsx:26-40 | no file, placeholder name, idle, empty output, no links, error or process id |
| Run3dgs.JobClient.SelectFile | src/components/Run3dgs.tsx:300-306 | the first chosen file and its name, or none and the placeholder |
| Run3dgs.JobClient.Settle | src/components/Run3dgs.tsx:223-226 | loading off, controller cleared, back to idle |
| Run3dgs.JobClient.HandleUpload | src/components/Run3dgs.tsx:123-148 | without a file nothing changes; with one: loading, output reset to the start notice, links/error/id cleared, the upload goes to the remote server (`UploadUrl`: port 6006) if remote else the local one (port 5001) |
| Run3dgs.JobClient.ResponseArrived | src/components/Run3dgs.tsx:150-176 | non-ok sets the status error and ends; the id header is kept when non-empty; JSON goes to the JSON branch; no body is an error; otherwise reading starts with an empty buffer |
| Run3dgs.JobClient.JsonArrived | src/components/Run3dgs.tsx:159-170 | an error field sets the error, otherwise the links are the reply's; no stream is read and loading ends |
| Run3dgs.JobClient.ScanChunk | src/components/Run3dgs.tsx:196-209 | links are replaced only when both expressions match this batch |
| Run3dgs.JobClient.ReadChunk | src/components/Run3dgs.tsx:184-194 | the buffer becomes the new fragment and the output grows by exactly the terminated completed lines, keeping the read-loop invariant |
| Run3dgs.JobClient.ChunkArrived | src/components/Run3dgs.tsx:180-210 | one chunk: buffer, output and links as the read loop and the scan define them |
| Run3dgs.JobClient.StreamEnded | src/components/Run3dgs.tsx:212-214 | a non-empty fragment is appended once without `\n`, an empty one appends nothing; the fragment is not scanned; loading ends |
| Run3dgs.JobClient.Rejected | src/components/Run3dgs.tsx:215-226 | an abort appends the abort notice and keeps the error; any other failure sets the error text; loading ends and the controller is cleared |
| Run3dgs.JobClient.CancelProcessing | src/components/Run3dgs.tsx:77-92 | without a process id nothing changes; otherwise the cancel notice is appended, the controller aborted and cleared, and a cancel request sent |
| Run3dgs.JobClient.CancelReplied | src/components/Run3dgs.tsx:94-107 | the server's message is appended as success or failure; the process id is cleared and loading ends |
| Run3dgs.JobClient.CancelFailed | src/components/Run3dgs.tsx:108-119 | the failure is appended; the process id is cleared and loading ends |
| Run3dgs.JobClient.BeforeUnload | src/components/Run3dgs.tsx:56-68 | a cancel beacon is sent iff loading with a known process id, to that id's cancel URL |
| Run3dgs.JobClient.CleanupRuns | src/components/Run3dgs.tsx:48-54 | with the previous render's values: a cancel for that id iff it was loading with an id, with the notice logged and the live controller aborted; otherwise nothing changes |
| Run3dgs.JobClient.Teardown | src/components/Run3dgs.tsx:48-54 | on unmount: a cancel is sent iff loading with a known id; otherwise nothing changes |
| Run3dgs.JobClient.FinishedRunCancels | src/components/Run3dgs.tsx:48-54 | a run that ends normally with a known id still sends a cancel for it, after the stream's end |
| Run3dgs.JobClient.UserCancelRepeats | src/components/Run3dgs.tsx:48-54 | a user's cancel goes out twice for the same id: the abort's rejection ends loading before the reply, which fires the loading render's cleanup; the log holds both notices, the abort notice and the reply |
| UniHair.DigitRun | UniHair/run.py:46 | the maximal run of ASCII digits starting at an index |
| UniHair.ProgressLineMeaning | UniHair/run.py:77-80 | a line is a progress line iff it contains `\d+%`, `\d+/\d+` or `\d+\.\d+it/s`; blank lines never are |
| UniHair.ProgressComplete | UniHair/run.py:77-80 | any occurrence of one of the three patterns is found by the scan |
| UniHair.ProgressAtSound | UniHair/run.py:77-80 | a hit of the scan is an occurrence of one of the patterns |
| UniHair.RateComplete | UniHair/run.py:46 | every `digits.digitsit/s` occurrence is a rate hit |
| UniHair.EscapeLength | UniHair/run.py:86 | the length of the escape sequence at the start of the text, 0 when there is none |
| UniHair.EscapeLengthSound | UniHair/run.py:86 | the measured prefix is an ESC Fe or CSI sequence |
| UniHair.EscapeLengthComplete | UniHair/run.py:86 | a sequence at the start is measured exactly |
| UniHair.StripEscapes | UniHair/run.py:86 | removing escape sequences never lengthens the text |
| UniHair.StripRemovesSequence | UniHair/run.py:86 | a leading escape sequence disappears entirely |
| UniHair.StripKeepsPlainText | UniHair/run.py:86 | text without ESC passes through unchanged |
| UniHair.CleanLine | UniHair/run.py:86-87 | the cleaned line has no trailing whitespace and is no longer than the raw one |
| UniHair.Label | UniHair/run.py:91-96 | `PROGRESS` iff progress, `ERR` iff not progress and error, `OUT` otherwise |
| UniHair.ProcessOutputLine | UniHair/run.py:83-100 | the progress flag is the test on the cleaned line, and the text is `prefix [label]: cleaned` |
| UniHair.Bookkeep | UniHair/run.py:151-171 | an empty line changes nothing; otherwise it is queued once and either overwrites the progress slot of its first ten characters or is appended to stdout or stderr |
| UniHair.KeptLines | UniHair/run.py:151-153 | the lines kept are the non-empty ones |
| UniHair.QueueHoldsKeptLines | UniHair/run.py:151-171 | after a pipe's lines the queue grew by exactly one entry per kept line, in order |
| UniHair.PlainLinesAppended | UniHair/run.py:151-171 | the list of the stream read grew by exactly its kept non-progress lines, in order |
| UniHair.OtherStreamUntouched | UniHair/run.py:165-170 | the other stream's list is unchanged |
| UniHair.ProgressSlots | UniHair/run.py:159-162 | the progress slots are the old ones plus the first ten characters of each kept progress line |
| UniHair.OutputReader.constructor | UniHair/run.py:105-122 | an active reader with empty books |
| UniHair.OutputReader.ReadLine | UniHair/run.py:151-171 | the books after one line are the bookkeeping step on the old books |
| UniHair.OutputReader.ReadPipe | UniHair/run.py:140-171 | an active reader books every line in order; a stopped one changes nothing |
| UniHair.ActiveIds | UniHair/run.py:756-759 | the ids counted active are ids of the table |
| UniHair.FinishedRecord | UniHair/run.py:390-398 | a finished record is inactive, has no process and holds the exit code, or -1 |
| UniHair.FinishThenCheck | UniHair/run.py:536-545 | after finishing, the step counts as successful iff the id was registered and the exit code is exactly 0; an absent id is not recreated |
| UniHair.ActiveAtMostTotal | UniHair/run.py:761-766 | the active count never exceeds the total |
| UniHair.CancelLowersActiveCount | UniHair/run.py:689-694 | cancelling an active id removes exactly that id from the active ones |
| UniHair.ProcessRegistry.constructor | UniHair/run.py:38 | the registry starts empty |
| UniHair.ProcessRegistry.RegisterInit | UniHair/run.py:488-494 | the id maps to an active init record with no process handle, stamped now, so `/status` counts it as active |
| UniHair.ProcessRegistry.RegisterRun | UniHair/run.py:312-319 | the id maps to an active record with the prefix, stamped now |
| UniHair.ProcessRegistry.Finish | UniHair/run.py:390-398 | a present id is replaced by its finished record; an absent one is left absent |
| UniHair.ProcessRegistry.Remove | UniHair/run.py:672-675 | the id is gone and nothing else changes |
| UniHair.ProcessRegistry.Cancel | UniHair/run.py:685-733 | a present id is marked inactive with a 200 reply; an absent id gives 404 with its message and changes nothing |
| UniHair.ProcessRegistry.Status | UniHair/run.py:748-766 | the active count is the number of active records, the total is the table size, and every entry is listed without its process handle |
| UniHair.Tally | UniHair/run.py:752-759 | the loop counts exactly the active records and builds the public view of every entry |
| UniHair.TallyStep | UniHair/run.py:756-759 | one iteration of the status loop keeps its invariant |
| UniHair.PublicView | UniHair/run.py:756-757 | the view has the same ids and each entry is the record without its process handle |
| UniHair.ArtifactReport | UniHair/run.py:651-670 | both link lines appear iff both files exist; otherwise the warning and exactly one of the enhance-only, refine-only or none lines, enhance checked first; the end banner closes it |
| Handshake.ReportIsTerminated | UniHair/run.py:651-670 | every report line is one of the server's lines with `\n` appended |
| Handshake.ReportArrivesWhole | src/components/Run3dgs.tsx:184-194 | the client's buffer turns the report into exactly its lines with no fragment left |
| Run3dgs.FeedWholeLines | src/components/Run3dgs.tsx:184-189 | a chunk of whole terminated lines, read after a line boundary, completes exactly those lines and leaves nothing pending |
| Handshake.SearchFindsLine | src/components/Run3dgs.tsx:197-202 | with no marker head before it, a line's match is the first one found |
| Handshake.EnhanceFound | UniHair/run.py:654 | the enhance expression finds the server's enhance path when the stem is a word |
| Handshake.RefineFound | UniHair/run.py:655 | the refine expression finds the server's refine path when the stem is a word |
| Handshake.LinksFromReport | UniHair/run.py:651-655 | scanned in one read, a successful report with a word stem yields exactly the two server paths as links |
| Handshake.MarkersInSeparateReads | src/components/Run3dgs.tsx:196-210 | when the enhance line and the refine line complete in two different reads, neither read's scan finds links |
| Handshake.NoLinksWithoutBoth | UniHair/run.py:656-667 | a report missing a file yields no links |
| Handshake.ExactCaptureNeedsWordStem | src/components/Run3dgs.tsx:197-202 | the client captures a server path exactly only when the stem is a word |
| Handshake.DottedStemMisread | UniHair/run.py:441 | a stem that itself contains `.ply` after a word yields the same wrong link for both files |
| Develop.BaseName | src/components/Develop.tsx:104-109 | the label is a suffix of the URL with no slash of either kind, preceded by a slash when shorter than the URL |
| Develop.BaseNameOfPath | src/components/Develop.tsx:104-109 | the base name of a directory, a slash and a slash-free name is that name |
| Develop.CenterCoordinates | src/components/Develop.tsx:143-149 | the centre parses iff every part parses, to the parts' values in order |
| Develop.ParseCenter | src/components/Develop.tsx:143-149 | the in-place loop over the three parts computes the centre coordinates |
| Develop.Validate | src/components/Develop.tsx:136-183 | accepted settings hold the three centre values, the parsed fields and the first file |
| Develop.AcceptedIffAllPass | src/components/Develop.tsx:136-184 | the form is accepted iff all eight checks pass |
| Develop.FailingCheck | src/components/Develop.tsx:138-183 | a rejection shows the message of a check that fails while every earlier check passes |
| Develop.MessagesDistinct | src/components/Develop.tsx:138-183 | the eight messages differ, so the message names the check |
| Develop.FirstFailureShown | src/components/Develop.tsx:138-183 | a given message is shown iff its check fails and every earlier one passes |
| Develop.LoaderCallFor | src/components/Develop.tsx:33-74 | PLY goes to the PLY loader with the SH degree, splat to the splat loader, anything else to the KSplat loader, with the form's settings |
| Develop.ConversionPage.constructor | src/components/Develop.tsx:118 | empty texts, icons off, button on, not in progress, rows shown |
| Develop.ConversionPage.SetConversionError | src/components/Develop.tsx:246-253 | status cleared, the error shown, both icons off |
| Develop.ConversionPage.SetConversionStatus | src/components/Develop.tsx:255-260 | error cleared, the status shown, so at most one of the two is non-empty |
| Develop.ConversionPage.OnCompressionLevelChange | src/components/Develop.tsx:76-100 | a level in [0,2] hides each advanced row that is present iff it is 0; a missing row, or a level that is not a number in [0,2], leaves the row as it was |
| Develop.ConversionPage.LevelChangeOnRenderedPage | src/components/Develop.tsx:92-98 | the page renders no `advancedCompressionRow` element, so any level change leaves every row as it was |
| Develop.ConversionPage.OnFileChange | src/components/Develop.tsx:102-116 | the label (when present) shows the base name; the file name is the first file's or the placeholder |
| Develop.ConversionPage.ConvertPlyFile | src/components/Develop.tsx:119-241 | while a conversion runs nothing changes; otherwise a rejection shows its message and an acceptance starts reading with the settings |
| Develop.ConversionPage.FileLoaded | src/components/Develop.tsx:201-223 | parsing notice, button disabled, and the loader call for the format |
| Develop.ConversionPage.ConversionDone | src/components/Develop.tsx:187-198 | the flag and the button are reset; the failure error or the success notice is shown |
| Viewer.EmptyPartsAreZero | src/components/Viewer.tsx:53-56 | `",,"` is a valid vector because empty parts are 0 |
| Viewer.TwoPartsInvalid | src/components/Viewer.tsx:53-56 | two parts are never a valid vector |
| Viewer.ValidateInputs | src/components/Viewer.tsx:45-63 | no message only when alpha parses into [1,255] and SH into [0,2] |
| Viewer.NullIffAllPass | src/components/Viewer.tsx:45-63 | the result is null iff all six checks pass |
| Viewer.FailingCheck | src/components/Viewer.tsx:45-63 | a message is that of a failing check with every earlier one passing |
| Viewer.MessagesDistinct | src/components/Viewer.tsx:45-63 | the six messages differ |
| Viewer.FirstFailureShown | src/components/Viewer.tsx:45-63 | a given message is returned iff its check fails and every earlier one passes |
| Viewer.AlphaFilter | src/components/Viewer.tsx:229 | the first three digits of the input in order, or all of them when there are fewer |
| Viewer.AlphaFilterIdempotent | src/components/Viewer.tsx:229 | filtering twice is filtering once |
| Viewer.ShFilter | src/components/Viewer.tsx:242 | the first `0`, `1` or `2` of the input, or empty iff the input has none of them |
| Viewer.ShFilterIdempotent | src/components/Viewer.tsx:242 | filtering twice is filtering once |
| Viewer.CollapseDots | src/components/Viewer.tsx:294 | with two or more dots the last dot is removed and nothing else; otherwise the text is unchanged |
| Viewer.DotsAtEnds | src/components/Viewer.tsx:294 | the first and last dot coincide iff there is one dot |
| Viewer.VectorFilter | src/components/Viewer.tsx:292-294 | the dot collapse of the input's `[0-9,.-]` characters: only those survive, with one dot fewer when there were several |
| Viewer.VectorKeystroke | src/components/Viewer.tsx:292-294 | typing one character into text with at most one dot keeps at most one dot |
| Viewer.PastedDotsSurvive | src/components/Viewer.tsx:292-294 | text with three dots, such as a pasted `1.2.3.4`, keeps two of them |
| Viewer.BinaryStringAppend | src/components/Viewer.tsx:115-118 | converting chunk by chunk equals converting the whole |
| Viewer.Encoded | src/components/Viewer.tsx:110-121 | the result is `btoa` of the one-character-per-byte string |
| Viewer.ArrayBufferToBase64 | src/components/Viewer.tsx:110-121 | for any chunk size the loop yields the base64 of the bytes |
| Viewer.ViewerPage.constructor | src/components/Viewer.tsx:31-43 | every field at its default |
| Viewer.ViewerPage.SelectFile | src/components/Viewer.tsx:198-204 | the first file and its name, or none and the placeholder |
| Viewer.ViewerPage.TypeAlpha | src/components/Viewer.tsx:229 | the field holds the filtered text |
| Viewer.ViewerPage.TypeSh | src/components/Viewer.tsx:242 | the field holds the filtered text |
| Viewer.ViewerPage.TypeVector | src/components/Viewer.tsx:286-296 | the edited vector holds the filtered text; the others are unchanged |
| Viewer.ViewerPage.HandleReset | src/components/Viewer.tsx:123-134 | the defaults `1`, `0,1,0`, `-0.02885, 0.064, 0.812`, `0,0,0`, `0`, flags off, error and input cleared |
| Viewer.ViewerPage.BeginView | src/components/Viewer.tsx:65-84 | without a file the no-file error; with an invalid form its first message; otherwise loading starts |
| Viewer.ViewerPage.FinishView | src/components/Viewer.tsx:86-107 | a failed read shows the read error; otherwise the query carries the base64 of the bytes and the form's text; loading ends |
| Universal.OrDefault | src/modelEx/Universal.tsx:26-34 | a present, non-empty value is used, otherwise the default |
| Universal.Coordinates | src/modelEx/Universal.tsx:29-31 | one number per comma-separated part, the empty part being 0 |
| Universal.EmptyQueryDefaults | src/modelEx/Universal.tsx:26-34 | an empty query gives `model.splat`, alpha 1, `0,1,0`, `0,1,0`, `1,0,0`, SH 0, flags off |
| Universal.ViewerQueryRead | src/modelEx/Universal.tsx:26-34 | the query the viewer builds reads back as its own values |
| Universal.Base64ToArrayBuffer | src/modelEx/Universal.tsx:98-105 | a result iff `atob` succeeds, of its length, byte i being char code i |
| Universal.DecodeWhatViewerEncoded | src/modelEx/Universal.tsx:98-105 | `atob` of the viewer's encoding is the original binary string |
| Universal.Transfer | src/modelEx/Universal.tsx:98-105 | encoding on the viewer page then decoding here yields the original bytes |
| Universal.GetMimeType | src/modelEx/Universal.tsx:108-116 | every file name gives `application/octet-stream` |
| Universal.SceneView.constructor | src/modelEx/Universal.tsx:6-16 | mounted, loading, no error, no object URL or viewer |
| Universal.SceneView.LoadScene | src/modelEx/Universal.tsx:18-63 | without a container or once unmounted nothing starts; undecodable data shows the error; otherwise the object URL and viewer are created with the query's parameters |
| Universal.SceneView.SceneSettled | src/modelEx/Universal.tsx:64-82 | an abort is not reported, an error shows its message, a non-error the generic one; loading is cleared only while mounted |
| Universal.SceneView.Teardown | src/modelEx/Universal.tsx:87-94 | unmounted and aborted; the object URL is revoked only if one was created; a live viewer is disposed |
| Classify.ReduceBound | src/components/Classify.tsx:66-70 | the fold's result is at least its start and every entry |
| Classify.ReduceChoice | src/components/Classify.tsx:66-70 | the fold returns the start when nothing beats it, else the first entry of the largest value |
| Classify.ArgmaxIsMaximal | src/components/Classify.tsx:66-70 | the shown class's probability is at least 0 and at least every class's |
| Classify.ArgmaxKeepsFirstOfTies | src/components/Classify.tsx:68 | among equal maxima the earliest entry is shown |
| Classify.ArgmaxSeed | src/components/Classify.tsx:67-69 | the seed `["", 0]` is shown iff no probability is positive |
| Classify.Outcome | src/components/Classify.tsx:57-95 | non-ok gives the upload message, a falsy body the no-prediction message, a thrown error the request message, a body the argmax with all entries |
| Classify.ClassifyPage.constructor | src/components/Classify.tsx:21-25 | no file, empty result, the placeholder name, not loading |
| Classify.ClassifyPage.HandleFileChange | src/components/Classify.tsx:31-39 | the first file or none, its name or the placeholder, the result cleared |
| Classify.ClassifyPage.HandleClassify | src/components/Classify.tsx:41-55 | without a file only the message changes; otherwise loading starts and the chosen server's `/classify` is requested |
| Classify.ClassifyPage.Replied | src/components/Classify.tsx:57-98 | the result is the reply's outcome and loading ends whatever happened |
| Forms.ChosenName | src/components/Develop.tsx:111-115 | the first file's name, or `(未选择文件)` |
| Sidebar.FirstMatch | src/components/app-sidebar.tsx:77-89 | the title of the first item whose url is the path, none iff no url matches |
| Sidebar.Lookup | src/components/app-sidebar.tsx:78-89 | the nested loop with early return finds the first match |
| Sidebar.RootSelectsAbout | src/components/app-sidebar.tsx:38-40 | path `/` selects `关于本项目` |
| Sidebar.TitlesDistinct | src/components/app-sidebar.tsx:36-66 | the six titles differ |
| Sidebar.AppSidebar.constructor | src/components/app-sidebar.tsx:74 | no item active |
| Sidebar.AppSidebar.Effect | src/components/app-sidebar.tsx:76-94 | a matching path makes its title active; without one an empty choice becomes the first item |
| Sidebar.AppSidebar.HandleMenuItemClick | src/components/app-sidebar.tsx:96-98 | the clicked title becomes active |
| Sidebar.AppSidebar.AtMostOneActive | src/components/app-sidebar.tsx:119 | at most one item is drawn active |
| Text.Split | src/components/Run3dgs.tsx:187 | a split has at least one piece |
| Text.SplitPartsLackSeparator | src/components/Run3dgs.tsx:187 | no piece of a split holds the separator |
| Text.JoinSplit | src/components/Run3dgs.tsx:187 | joining the pieces of a split with the separator gives the text back |
| Text.SplitJoin | src/components/Run3dgs.tsx:187 | splitting joined separator-free pieces gives the pieces back |
| Text.LastIndexOf | src/components/Develop.tsx:105-106 | -1 or an index of the character with none after it |
| Text.Filter | src/components/Viewer.tsx:229 | only kept characters remain, and the result is no longer than the input |
| Text.FilterAppend | src/components/Viewer.tsx:229 | order is kept: filtering `a + b` gives the kept characters of `a`, then those of `b` |
| Text.FilterOne | src/components/Viewer.tsx:229 | one character is kept iff the class accepts it |
| Text.FilterCounts | src/components/Viewer.tsx:229 | each kept character occurs as often as in the input |
| Text.FilterFirst | src/components/Viewer.tsx:242 | the first kept character is the first character of the input the class accepts |
| Text.RStrip | UniHair/run.py:87 | a prefix with no trailing whitespace, only whitespace removed |
| Text.RStripLineBreaks | UniHair/run.py:151 | a prefix not ending in CR or LF, only CR and LF removed |
| Text.Take | UniHair/run.py:161 | the first ten characters, or the whole line when shorter |
| Text.NatToStringValue | src/components/Run3dgs.tsx:151 | the decimal text of the status reads back as the status |
| Base64.Encode | src/components/Viewer.tsx:120 | a multiple of four characters from the alphabet or `=` |
| Base64.Decode | src/modelEx/Universal.tsx:99 | decoding succeeds exactly on well-formed text |
| Base64.DecodeEncode | src/modelEx/Universal.tsx:99 | decoding an encoding gives the bytes back |
| Base64.AtobBtoa | src/modelEx/Universal.tsx:99 | `atob(btoa(s)) == s` for every binary string |

## Left out

- Threads, subprocess spawning, timeouts, kill logic, the polling generator
  and the Flask routes of `UniHair/run.py` are left out. They concern
  concurrency and operating-system processes. Only the per-line and registry
  operations are modelled, one call at a time, with the clock as a parameter.
- `backend.py`, `classify/run.py` (model inference and softmax), the
  GaussianSplats3D loaders and viewer, `Wavy2.tsx`, routing and the static
  pages are not part of this model.
- `fetch`, `FormData`, `AbortController` and streaming UTF-8 decoding are
  not modelled. Requests are URLs, replies are method arguments, chunks are
  already-decoded strings, and an abort is a flag.
- JavaScript's `parseInt`, `parseFloat` and `Number` are parameters, not a
  lexer. Floating point is `real`, so rounding is not modelled.
- URL query encoding and decoding is taken to round-trip exactly.
- The lower-casing of the extension in `getMimeType` is not modelled,
  because every branch returns the same type.
- Python's `\d` also matches non-ASCII decimal digits. The model uses ASCII
  digits only.
- `Object.entries` ordering is given as a sequence. JavaScript's reordering
  of integer-like keys is not modelled.
- A `null` file list, which throws in the file handlers, is not modelled.
- React render scheduling is not modelled. In particular:
  - the cleanup of `Run3dgs.tsx` runs on every change of `loading` or
    `processId`, with the previous render's values. The model offers it as
    the event `CleanupRuns`, and the caller decides when it happens. Two
    consequences are modelled: a run that ends normally with a known id, and
    a user's cancel, each end with one more cancel request
    (`FinishedRunCancels`, `UserCancelRepeats`);
  - `Develop.tsx` declares `conversionInProgress` as a per-render `let`,
    which the model keeps as a field;
  - the sidebar effect re-runs when the active item changes, so a path
    match overrides a click;
  - one `SceneView` object stands for one run of the `Universal.tsx`
    effect. The source shares `objectURLRef` and `viewerRef` across re-runs
    when `searchParams` changes, so a re-run that fails before creating a
    URL revokes the previous URL and disposes the previous viewer a second
    time at its cleanup; the model does not capture that sharing.
- Run3dgs.JobClient.HandleUpload: requires an idle client. A second upload
  while one runs is not modelled, and late events of an abandoned upload
  are not discarded in the source either.
- Run3dgs.JobClient.ScanChunk: links are matched only within one chunk's
  completed lines, as in the source, so both marker lines must complete in
  the same chunk (`Handshake.MarkersInSeparateReads`). A marker whose line
  completes in a later chunk is still scanned, but one split across the
  fragment at stream end is never scanned.
- UniHair.ProcessRegistry.RegisterRun: overwrites whatever record the id
  had, including one a cancel marked inactive, as the source does.
- Develop.ConversionPage.OnFileChange: whether the label element exists is
  a parameter. The page wires the handler without a label id, so it finds
  no label.
- Develop.ConversionPage.ConvertPlyFile: a failed file read never calls
  `conversionDone`, so the in-progress flag stays set. The model keeps
  that behaviour.
- Universal.SceneView.LoadScene: the `atob` error message is a parameter.
- Universal.ReadParams: has no contract of its own. Its meaning is stated by
  Universal.EmptyQueryDefaults and Universal.ViewerQueryRead.
- The uptime and timestamps in the status report are parameters or left
  out, because they read the clock.
