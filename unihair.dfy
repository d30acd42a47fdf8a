/**
 * The sequential parts of the UniHair job server (UniHair/run.py): how a
 * subprocess output line is cleaned, recognised as progress and labelled;
 * how the output reader files each line; the table of running jobs; and the
 * closing report that tells the client where the artifacts are.
 */
module UniHair {
  import opened Wrappers
  import opened Text

  // ---------------------------------------------------------------------
  // Progress lines (lines 46 and 77-80)
  // ---------------------------------------------------------------------

  predicate IsDigit(c: char) {
    '0' <= c <= '9'
  }

  predicate AllDigits(s: string) {
    forall i :: 0 <= i < |s| ==> IsDigit(s[i])
  }

  /** The length of the run of digits that starts at index `k`. */
  function DigitRun(s: string, k: nat): (n: nat)
    requires k <= |s|
    ensures k + n <= |s|
    ensures forall j :: k <= j < k + n ==> IsDigit(s[j])
    ensures k + n == |s| || !IsDigit(s[k + n])
    decreases |s| - k
  {
    if k == |s| || !IsDigit(s[k]) then 0 else 1 + DigitRun(s, k + 1)
  }

  lemma {:induction false} DigitRunFrom(s: string, k: nat, n: nat)
    requires k + n < |s|
    requires forall j :: k <= j < k + n ==> IsDigit(s[j])
    requires !IsDigit(s[k + n])
    ensures DigitRun(s, k) == n
    decreases n
  {
    if n > 0 {
      DigitRunFrom(s, k + 1, n - 1);
    }
  }

  const RateUnit: string := "it/s"

  /** `\d+%` matches ending with the digit at `i`. */
  predicate PercentAt(s: string, i: nat) {
    i + 1 < |s| && IsDigit(s[i]) && s[i + 1] == '%'
  }

  /** `\d+/\d+` matches around the slash at `i + 1`. */
  predicate FractionAt(s: string, i: nat) {
    i + 2 < |s| && IsDigit(s[i]) && s[i + 1] == '/' && IsDigit(s[i + 2])
  }

  /** `\d+\.\d+it/s` matches around the point at `i + 1`; the fraction digits must run up to the unit. */
  predicate RateAt(s: string, i: nat) {
    i + 2 < |s| && IsDigit(s[i]) && s[i + 1] == '.'
    && var n := DigitRun(s, i + 2);
       n > 0 && i + 2 + n + |RateUnit| <= |s| && s[i + 2 + n..i + 2 + n + |RateUnit|] == RateUnit
  }

  predicate ProgressAt(s: string, i: nat) {
    PercentAt(s, i) || FractionAt(s, i) || RateAt(s, i)
  }

  /** `is_progress_line`: not blank, and the progress expression is found somewhere. */
  predicate IsProgressLine(line: string) {
    !IsBlank(line) && exists i | 0 <= i < |line| :: ProgressAt(line, i)
  }

  /** What the three alternatives of the expression mean, literally. */
  ghost predicate PercentMatch(s: string) {
    exists d: string, i: int :: |d| > 0 && AllDigits(d) && OccursAt(s, d + "%", i)
  }

  ghost predicate FractionMatch(s: string) {
    exists d: string, e: string, i: int :: |d| > 0 && AllDigits(d) && |e| > 0 && AllDigits(e) && OccursAt(s, d + "/" + e, i)
  }

  ghost predicate RateMatch(s: string) {
    exists d: string, e: string, i: int :: |d| > 0 && AllDigits(d) && |e| > 0 && AllDigits(e) && OccursAt(s, d + "." + e + RateUnit, i)
  }

  /**
   * A line is a progress line exactly when one of the three alternatives
   * occurs in it; the blank test never decides, because a match holds a digit.
   */
  lemma ProgressLineMeaning(line: string)
    ensures IsProgressLine(line) <==> PercentMatch(line) || FractionMatch(line) || RateMatch(line)
    ensures IsBlank(line) ==> !IsProgressLine(line)
  {
    if IsProgressLine(line) {
      var i :| 0 <= i < |line| && ProgressAt(line, i);
      ProgressAtSound(line, i);
    }
    if PercentMatch(line) || FractionMatch(line) || RateMatch(line) {
      var k := ProgressComplete(line);
      assert !IsSpace(line[k]);
    }
  }

  /** Each literal match yields an index where the scanner finds a progress token. */
  lemma ProgressComplete(line: string) returns (k: nat)
    requires PercentMatch(line) || FractionMatch(line) || RateMatch(line)
    ensures k < |line| && ProgressAt(line, k) && IsDigit(line[k])
  {
    if PercentMatch(line) {
      var d: string, i: int :| |d| > 0 && AllDigits(d) && OccursAt(line, d + "%", i);
      k := i + |d| - 1;
      assert line[i..i + |d| + 1] == d + "%";
      assert line[k] == d[|d| - 1] && line[k + 1] == '%';
    } else if FractionMatch(line) {
      var d: string, e: string, i: int :| |d| > 0 && AllDigits(d) && |e| > 0 && AllDigits(e) && OccursAt(line, d + "/" + e, i);
      k := i + |d| - 1;
      assert line[i..i + |d| + 1 + |e|] == d + "/" + e;
      assert line[k] == d[|d| - 1] && line[k + 1] == '/' && line[k + 2] == e[0];
    } else {
      var d: string, e: string, i: int :| |d| > 0 && AllDigits(d) && |e| > 0 && AllDigits(e) && OccursAt(line, d + "." + e + RateUnit, i);
      RateComplete(line, d, e, i);
      k := i + |d| - 1;
    }
  }

  lemma ProgressAtSound(line: string, i: nat)
    requires ProgressAt(line, i)
    ensures PercentMatch(line) || FractionMatch(line) || RateMatch(line)
  {
    if PercentAt(line, i) {
      assert OccursAt(line, [line[i]] + "%", i) by { assert line[i..i + 2] == [line[i]] + "%"; }
    } else if FractionAt(line, i) {
      assert OccursAt(line, [line[i]] + "/" + [line[i + 2]], i) by { assert line[i..i + 3] == [line[i]] + "/" + [line[i + 2]]; }
    } else {
      var n := DigitRun(line, i + 2);
      var u := i + 2 + n;
      var e := line[i + 2..u];
      assert AllDigits(e) && AllDigits([line[i]]);
      assert line[u..u + |RateUnit|] == RateUnit;
      assert line[i..i + 2] == [line[i]] + ".";
      SliceJoin(line, i, i + 2, u);
      SliceJoin(line, i, u, u + |RateUnit|);
      assert OccursAt(line, [line[i]] + "." + e + RateUnit, i);
    }
  }

  lemma RateComplete(line: string, d: string, e: string, i: int)
    requires |d| > 0 && AllDigits(d) && |e| > 0 && AllDigits(e) && OccursAt(line, d + "." + e + RateUnit, i)
    ensures RateAt(line, i + |d| - 1)
  {
    var m := d + "." + e + RateUnit;
    assert IsDigit(m[|d| - 1]) && m[|d|] == '.' by {
      assert m[|d| - 1] == d[|d| - 1];
    }
    forall t | |d| < t <= |d| + |e| ensures IsDigit(m[t]) {
      assert m[t] == e[t - |d| - 1];
    }
    assert m[|d| + 1 + |e|..] == RateUnit;
    RateTokenAt(line, m, i, |d|, |e|);
  }

  /** An occurrence of a token shaped like `\d+\.\d+it/s` is found by the scanner at its last integer digit. */
  lemma RateTokenAt(line: string, m: string, i: int, dn: nat, en: nat)
    requires OccursAt(line, m, i) && dn > 0 && en > 0 && |m| == dn + 1 + en + |RateUnit|
    requires IsDigit(m[dn - 1]) && m[dn] == '.'
    requires forall t :: dn < t <= dn + en ==> IsDigit(m[t])
    requires m[dn + 1 + en..] == RateUnit
    ensures RateAt(line, i + dn - 1)
  {
    var k, u := i + dn - 1, dn + 1 + en;
    RateHead(line, m, i, dn);
    FractionRun(line, m, i, dn, en);
    UnitAt(line, m, i, u);
    RateAtFrom(line, k, en);
  }

  /** The last integer digit and the point of a rate token occurrence. */
  lemma RateHead(line: string, m: string, i: int, dn: nat)
    requires OccursAt(line, m, i) && dn > 0 && dn + 2 < |m|
    requires IsDigit(m[dn - 1]) && m[dn] == '.'
    ensures i + dn + 1 < |line| && IsDigit(line[i + dn - 1]) && line[i + dn] == '.'
  {
    OccursAtIndex(line, m, i, dn - 1);
    OccursAtIndex(line, m, i, dn);
  }

  /** The unit at the end of a rate token occurrence. */
  lemma UnitAt(line: string, m: string, i: int, u: nat)
    requires OccursAt(line, m, i) && u <= |m| && m[u..] == RateUnit
    ensures OccursAt(line, RateUnit, i + u)
  {
    SliceOfSlice(line, i, i + |m|, u, |m|);
  }

  /** The fraction digits of a rate token occurrence form the whole digit run after the point. */
  lemma FractionRun(line: string, m: string, i: int, dn: nat, en: nat)
    requires OccursAt(line, m, i) && dn > 0 && en > 0 && |m| == dn + 1 + en + |RateUnit|
    requires forall t :: dn < t <= dn + en ==> IsDigit(m[t])
    requires m[dn + 1 + en..] == RateUnit
    ensures DigitRun(line, i + dn + 1) == en
  {
    var u := dn + 1 + en;
    assert m[u] == m[u..][0] == 'i';
    OccursAtIndex(line, m, i, u);
    forall j | i + dn + 1 <= j < i + dn + 1 + en ensures IsDigit(line[j]) {
      OccursAtIndex(line, m, i, j - i);
    }
    DigitRunFrom(line, i + dn + 1, en);
  }

  /** The pieces of a rate token: a digit, a point, a digit run of length `n`, the unit. */
  lemma RateAtFrom(s: string, k: nat, n: nat)
    requires k + 2 < |s| && IsDigit(s[k]) && s[k + 1] == '.'
    requires n > 0 && DigitRun(s, k + 2) == n && OccursAt(s, RateUnit, k + 2 + n)
    ensures RateAt(s, k)
  {
  }

  /** The character at offset `t` of an occurrence. */
  lemma OccursAtIndex(line: string, m: string, i: int, t: int)
    requires OccursAt(line, m, i) && 0 <= t < |m|
    ensures line[i + t] == m[t]
  {
    assert line[i..i + |m|][t] == line[i + t];
  }

  // ---------------------------------------------------------------------
  // Escape removal (line 86): ESC followed by an Fe byte, or a control
  // sequence introducer with parameters, intermediates and a final byte
  // (section 5.4 of ECMA-48)
  // ---------------------------------------------------------------------

  const Esc: char := '\U{1B}'

  /** `[@-Z\\-_]`: 0x40-0x5A and 0x5C-0x5F, so `[` itself is left to the second alternative. */
  predicate IsFe(c: char) {
    ('@' <= c <= 'Z') || ('\\' <= c <= '_')
  }

  predicate IsParameter(c: char) {
    '0' <= c <= '?'
  }

  predicate IsIntermediate(c: char) {
    ' ' <= c <= '/'
  }

  predicate IsFinal(c: char) {
    '@' <= c <= '~'
  }

  function ParameterRun(s: string, k: nat): (n: nat)
    requires k <= |s|
    ensures k + n <= |s|
    ensures forall j :: k <= j < k + n ==> IsParameter(s[j])
    ensures k + n == |s| || !IsParameter(s[k + n])
    decreases |s| - k
  {
    if k == |s| || !IsParameter(s[k]) then 0 else 1 + ParameterRun(s, k + 1)
  }

  function IntermediateRun(s: string, k: nat): (n: nat)
    requires k <= |s|
    ensures k + n <= |s|
    ensures forall j :: k <= j < k + n ==> IsIntermediate(s[j])
    ensures k + n == |s| || !IsIntermediate(s[k + n])
    decreases |s| - k
  {
    if k == |s| || !IsIntermediate(s[k]) then 0 else 1 + IntermediateRun(s, k + 1)
  }

  /**
   * The length of the escape sequence the expression matches at the start
   * of `s`, or 0 when it does not match there. The greedy runs never need to
   * give anything back, since the three byte classes are disjoint.
   */
  function EscapeLength(s: string): (n: nat)
    requires |s| > 0 && s[0] == Esc
    ensures n == 0 || 2 <= n <= |s|
  {
    if |s| >= 2 && IsFe(s[1]) then 2
    else if |s| >= 2 && s[1] == '[' then
      var p := ParameterRun(s, 2);
      var q := IntermediateRun(s, 2 + p);
      if 2 + p + q < |s| && IsFinal(s[2 + p + q]) then 3 + p + q else 0
    else 0
  }

  /** `re.sub` of the expression with "": one left-to-right pass, each match deleted. */
  function StripEscapes(s: string): (r: string)
    ensures |r| <= |s|
    decreases |s|
  {
    if s == [] then []
    else if s[0] == Esc && EscapeLength(s) > 0 then StripEscapes(s[EscapeLength(s)..])
    else [s[0]] + StripEscapes(s[1..])
  }

  /** An escape sequence the expression describes: ESC Fe, or ESC `[` parameters intermediates final. */
  ghost predicate IsEscapeSequence(e: string) {
    (|e| == 2 && e[0] == Esc && IsFe(e[1]))
    || (|e| >= 3 && e[0] == Esc && e[1] == '[' && IsFinal(e[|e| - 1])
        && exists m :: CsiSplitAt(e, m))
  }

  /** Parameters occupy `e[2..m]` and intermediates the rest up to the final byte. */
  ghost predicate CsiSplitAt(e: string, m: int) {
    2 <= m <= |e| - 1
    && (forall j :: 2 <= j < m ==> IsParameter(e[j]))
    && (forall j :: m <= j < |e| - 1 ==> IsIntermediate(e[j]))
  }

  /** Whatever EscapeLength measures is an escape sequence. */
  lemma EscapeLengthSound(s: string)
    requires |s| > 0 && s[0] == Esc && EscapeLength(s) > 0
    ensures IsEscapeSequence(s[..EscapeLength(s)])
  {
    var e := s[..EscapeLength(s)];
    if !(|s| >= 2 && IsFe(s[1])) {
      var p := ParameterRun(s, 2);
      assert CsiSplitAt(e, 2 + p);
    }
  }

  /** An escape sequence at the start of the text is matched exactly, whatever follows it. */
  lemma EscapeLengthComplete(e: string, rest: string)
    requires IsEscapeSequence(e)
    ensures EscapeLength(e + rest) == |e|
  {
    var s := e + rest;
    if |e| >= 3 {
      assert s[1] == '[' && !IsFe(s[1]);
      var m :| CsiSplitAt(e, m);
      ParameterRunFrom(s, 2, m - 2);
      IntermediateRunFrom(s, m, |e| - 1 - m);
    }
  }

  lemma {:induction false} ParameterRunFrom(s: string, k: nat, n: nat)
    requires k + n < |s|
    requires forall j :: k <= j < k + n ==> IsParameter(s[j])
    requires !IsParameter(s[k + n])
    ensures ParameterRun(s, k) == n
    decreases n
  {
    if n > 0 {
      ParameterRunFrom(s, k + 1, n - 1);
    }
  }

  lemma {:induction false} IntermediateRunFrom(s: string, k: nat, n: nat)
    requires k + n < |s|
    requires forall j :: k <= j < k + n ==> IsIntermediate(s[j])
    requires !IsIntermediate(s[k + n])
    ensures IntermediateRun(s, k) == n
    decreases n
  {
    if n > 0 {
      IntermediateRunFrom(s, k + 1, n - 1);
    }
  }

  /** A whole escape sequence disappears without a trace. */
  lemma StripRemovesSequence(e: string, rest: string)
    requires IsEscapeSequence(e)
    ensures StripEscapes(e + rest) == StripEscapes(rest)
  {
    EscapeLengthComplete(e, rest);
    assert (e + rest)[|e|..] == rest;
  }

  /** Text without ESC passes through unchanged, and in front of anything else it is kept as is. */
  lemma {:induction false} StripKeepsPlainText(a: string, b: string)
    requires Esc !in a
    ensures StripEscapes(a + b) == a + StripEscapes(b)
    decreases |a|
  {
    if a != [] {
      StripKeepsPlainText(a[1..], b);
      assert (a + b)[1..] == a[1..] + b;
    } else {
      assert a + b == b;
    }
  }

  /** The cleaned line: escapes removed, then `rstrip()`. */
  function CleanLine(line: string): (r: string)
    ensures r == [] || !IsSpace(r[|r| - 1])
    ensures |r| <= |line|
  {
    RStrip(StripEscapes(line))
  }

  // ---------------------------------------------------------------------
  // Labelling (lines 83-100)
  // ---------------------------------------------------------------------

  /** The label: progress first, then the stream the line came from. */
  function Label(isProgress: bool, isError: bool): (tag: string)
    ensures tag == "PROGRESS" <==> isProgress
    ensures tag == "ERR" <==> !isProgress && isError
    ensures tag == "OUT" <==> !isProgress && !isError
  {
    if isProgress then "PROGRESS" else if isError then "ERR" else "OUT"
  }

  datatype Formatted = Formatted(text: string, isProgress: bool)

  /**
   * `process_output_line`: progress is judged on the cleaned line, and the
   * formatted line is the prefix, the bracketed label, and the cleaned line.
   */
  function ProcessOutputLine(line: string, prefix: string, isError: bool): (r: Formatted)
    ensures r.isProgress <==> IsProgressLine(CleanLine(line))
    ensures r.text == prefix + " [" + Label(r.isProgress, isError) + "]: " + CleanLine(line)
    ensures CleanLine(line) != [] ==> !IsSpace(r.text[|r.text| - 1])
  {
    var cleaned := CleanLine(line);
    var isProgress := IsProgressLine(cleaned);
    Formatted(prefix + " [" + Label(isProgress, isError) + "]: " + cleaned, isProgress)
  }

  // ---------------------------------------------------------------------
  // Per-line bookkeeping of the output reader (lines 151-171)
  // ---------------------------------------------------------------------

  datatype QueueEntry = QueueEntry(formatted: string, isProgress: bool, isError: bool)

  /** What the reader has filed so far. */
  datatype Books = Books(stdoutLines: seq<string>, stderrLines: seq<string>, progressLines: map<string, string>, queue: seq<QueueEntry>)

  /** How many leading characters of a raw progress line key its slot. */
  const ProgressKeyLength: nat := 10

  /**
   * One line from the pipe: line breaks are stripped from its end; an empty
   * result is skipped; a progress line overwrites the slot keyed by its first
   * ten characters (of the raw line, escapes included); any other raw line is
   * appended to the list of its stream; every kept line is queued once.
   */
  function Bookkeep(b: Books, raw: string, prefix: string, isError: bool): (r: Books)
    ensures RStripLineBreaks(raw) == "" ==> r == b
    ensures RStripLineBreaks(raw) != "" ==>
      var line := RStripLineBreaks(raw);
      var f := ProcessOutputLine(line, prefix, isError);
      && r.queue == b.queue + [QueueEntry(f.text, f.isProgress, isError)]
      && (f.isProgress ==> r.progressLines == b.progressLines[Take(line, ProgressKeyLength) := f.text]
                           && r.stdoutLines == b.stdoutLines && r.stderrLines == b.stderrLines)
      && (!f.isProgress ==> r.progressLines == b.progressLines
                            && r.stdoutLines == b.stdoutLines + (if isError then [] else [line])
                            && r.stderrLines == b.stderrLines + (if isError then [line] else []))
  {
    var line := RStripLineBreaks(raw);
    if line == "" then b
    else
      var f := ProcessOutputLine(line, prefix, isError);
      var filed :=
        if f.isProgress then b.(progressLines := b.progressLines[Take(line, ProgressKeyLength) := f.text])
        else if isError then b.(stderrLines := b.stderrLines + [line])
        else b.(stdoutLines := b.stdoutLines + [line]);
      filed.(queue := filed.queue + [QueueEntry(f.text, f.isProgress, isError)])
  }

  /** The reader's books after a whole sequence of pipe lines. */
  function BookkeepAll(b: Books, lines: seq<string>, prefix: string, isError: bool): Books
    decreases |lines|
  {
    if lines == [] then b else Bookkeep(BookkeepAll(b, Init(lines), prefix, isError), Last(lines), prefix, isError)
  }

  /** Filing one more pipe line. */
  lemma BookkeepAllStep(b: Books, lines: seq<string>, i: nat, prefix: string, isError: bool)
    requires i < |lines|
    ensures BookkeepAll(b, lines[..i + 1], prefix, isError) == Bookkeep(BookkeepAll(b, lines[..i], prefix, isError), lines[i], prefix, isError)
  {
    assert Init(lines[..i + 1]) == lines[..i] && Last(lines[..i + 1]) == lines[i];
  }

  /** The lines that survive the line-break strip and the empty-line skip, in order. */
  function KeptLines(lines: seq<string>): (kept: seq<string>)
    ensures forall i :: 0 <= i < |kept| ==> kept[i] != ""
    decreases |lines|
  {
    if lines == [] then []
    else
      var line := RStripLineBreaks(Last(lines));
      KeptLines(Init(lines)) + (if line == "" then [] else [line])
  }

  /** The kept lines that are not progress lines, in order. */
  function Plain(kept: seq<string>): seq<string>
    decreases |kept|
  {
    if kept == [] then []
    else Plain(Init(kept)) + (if CountsAsProgress(Last(kept)) then [] else [Last(kept)])
  }

  /** Whether a kept line is filed as progress: judged on the cleaned line. */
  predicate CountsAsProgress(line: string) {
    IsProgressLine(CleanLine(line))
  }

  /** The queue entry of one kept line. */
  function Entry(line: string, prefix: string, isError: bool): QueueEntry {
    var f := ProcessOutputLine(line, prefix, isError);
    QueueEntry(f.text, f.isProgress, isError)
  }

  /** Every kept line is queued exactly once, in arrival order, and nothing else is queued. */
  lemma {:induction false} QueueHoldsKeptLines(b: Books, lines: seq<string>, prefix: string, isError: bool)
    ensures BookkeepAll(b, lines, prefix, isError).queue == b.queue + Entries(KeptLines(lines), prefix, isError)
    decreases |lines|
  {
    if lines != [] {
      QueueHoldsKeptLines(b, Init(lines), prefix, isError);
      var line := RStripLineBreaks(Last(lines));
      var kept := KeptLines(Init(lines));
      KeptLinesStep(lines);
      BookkeepQueue(b, lines, prefix, isError);
      if line != "" {
        EntriesAppend(kept, line, prefix, isError);
      }
    }
  }

  /** The queue entries of some kept lines, in order. */
  function Entries(kept: seq<string>, prefix: string, isError: bool): (r: seq<QueueEntry>)
    ensures |r| == |kept|
  {
    seq(|kept|, i requires 0 <= i < |kept| => Entry(kept[i], prefix, isError))
  }

  lemma EntriesAppend(kept: seq<string>, line: string, prefix: string, isError: bool)
    ensures Entries(kept + [line], prefix, isError) == Entries(kept, prefix, isError) + [Entry(line, prefix, isError)]
  {
    var all := kept + [line];
    forall i | 0 <= i < |all| ensures Entries(all, prefix, isError)[i] == (Entries(kept, prefix, isError) + [Entry(line, prefix, isError)])[i] {
      if i < |kept| { assert all[i] == kept[i]; }
    }
  }

  /** The last pipe line's bookkeeping queues its entry, if the line is kept. */
  lemma BookkeepQueue(b: Books, lines: seq<string>, prefix: string, isError: bool)
    requires lines != []
    ensures var line := RStripLineBreaks(Last(lines));
      BookkeepAll(b, lines, prefix, isError).queue
      == BookkeepAll(b, Init(lines), prefix, isError).queue + (if line == "" then [] else [Entry(line, prefix, isError)])
  {
  }

  /** The list a stream's plain lines go to, and the other stream's list. */
  function OwnLines(b: Books, isError: bool): seq<string> {
    if isError then b.stderrLines else b.stdoutLines
  }

  function OtherLines(b: Books, isError: bool): seq<string> {
    if isError then b.stdoutLines else b.stderrLines
  }

  /** The non-progress lines are appended, in arrival order, to the list of the stream being read. */
  lemma {:induction false} PlainLinesAppended(b: Books, lines: seq<string>, prefix: string, isError: bool)
    ensures OwnLines(BookkeepAll(b, lines, prefix, isError), isError) == OwnLines(b, isError) + Plain(KeptLines(lines))
    decreases |lines|
  {
    if lines != [] {
      PlainLinesAppended(b, Init(lines), prefix, isError);
      var line := RStripLineBreaks(Last(lines));
      var kept := KeptLines(Init(lines));
      KeptLinesStep(lines);
      PlainStep(kept, line);
      BookkeepPlain(b, lines, prefix, isError);
      assert OwnLines(b, isError) + Plain(kept) + PlainAddition(line) == OwnLines(b, isError) + (Plain(kept) + PlainAddition(line));
    }
  }

  /** Reading one stream never touches the other stream's list. */
  lemma {:induction false} OtherStreamUntouched(b: Books, lines: seq<string>, prefix: string, isError: bool)
    ensures OtherLines(BookkeepAll(b, lines, prefix, isError), isError) == OtherLines(b, isError)
    decreases |lines|
  {
    if lines != [] {
      OtherStreamUntouched(b, Init(lines), prefix, isError);
      BookkeepPlain(b, lines, prefix, isError);
    }
  }

  lemma KeptLinesStep(lines: seq<string>)
    requires lines != []
    ensures var line := RStripLineBreaks(Last(lines));
      KeptLines(lines) == KeptLines(Init(lines)) + (if line == "" then [] else [line])
  {
  }

  /** What a kept line adds to the plain lines: itself, unless it is a progress line. */
  function PlainAddition(line: string): seq<string> {
    if line == "" || CountsAsProgress(line) then [] else [line]
  }

  lemma PlainStep(kept: seq<string>, line: string)
    ensures Plain(kept + (if line == "" then [] else [line])) == Plain(kept) + PlainAddition(line)
  {
    if line == "" {
      assert kept + [] == kept;
    } else {
      assert Init(kept + [line]) == kept && Last(kept + [line]) == line;
    }
  }

  /** The last pipe line's bookkeeping appends its plain addition to the list of its stream. */
  lemma BookkeepPlain(b: Books, lines: seq<string>, prefix: string, isError: bool)
    requires lines != []
    ensures var prev := BookkeepAll(b, Init(lines), prefix, isError);
      var r := BookkeepAll(b, lines, prefix, isError);
      && OwnLines(r, isError) == OwnLines(prev, isError) + PlainAddition(RStripLineBreaks(Last(lines)))
      && OtherLines(r, isError) == OtherLines(prev, isError)
  {
  }

  /** The progress slots after the pipe: the old ones plus one per ten-character key of a kept progress line. */
  lemma {:induction false} ProgressSlots(b: Books, lines: seq<string>, prefix: string, isError: bool)
    ensures BookkeepAll(b, lines, prefix, isError).progressLines.Keys
            == b.progressLines.Keys + set l | l in KeptLines(lines) && CountsAsProgress(l) :: Take(l, ProgressKeyLength)
    decreases |lines|
  {
    if lines != [] {
      ProgressSlots(b, Init(lines), prefix, isError);
      var line := RStripLineBreaks(Last(lines));
      var kept := KeptLines(Init(lines));
      KeptLinesStep(lines);
      BookkeepKeys(b, lines, prefix, isError);
      if line != "" {
        ProgressKeysAppend(kept, line);
      } else {
        assert kept + [] == kept;
      }
    }
  }

  /** The slot keys of the progress lines among some kept lines. */
  function ProgressKeys(kept: seq<string>): set<string> {
    set l | l in kept && CountsAsProgress(l) :: Take(l, ProgressKeyLength)
  }

  lemma ProgressKeysAppend(kept: seq<string>, line: string)
    ensures ProgressKeys(kept + [line])
            == ProgressKeys(kept) + (if CountsAsProgress(line) then {Take(line, ProgressKeyLength)} else {})
  {
    var all := kept + [line];
    forall l | l in all ensures l in kept || l == line {
    }
    forall l | l in kept ensures l in all {
    }
  }

  /** The last pipe line's bookkeeping adds the slot of a kept progress line and no other. */
  lemma BookkeepKeys(b: Books, lines: seq<string>, prefix: string, isError: bool)
    requires lines != []
    ensures var line := RStripLineBreaks(Last(lines));
      BookkeepAll(b, lines, prefix, isError).progressLines.Keys
      == BookkeepAll(b, Init(lines), prefix, isError).progressLines.Keys
         + (if line != "" && CountsAsProgress(line) then {Take(line, ProgressKeyLength)} else {})
  {
  }

  /** `ProcessOutputReader`: the books, and the flag that stops the reading loop. */
  class OutputReader {
    const prefix: string
    var stdoutLines: seq<string>
    var stderrLines: seq<string>
    var progressLines: map<string, string>
    var queue: seq<QueueEntry>
    var active: bool

    function BooksOf(): Books
      reads this
    {
      Books(stdoutLines, stderrLines, progressLines, queue)
    }

    constructor (prefix: string)
      ensures this.prefix == prefix && active
      ensures BooksOf() == Books([], [], map[], [])
    {
      this.prefix := prefix;
      stdoutLines, stderrLines, progressLines, queue := [], [], map[], [];
      active := true;
    }

    /** The body of the reading loop for one line. */
    method ReadLine(raw: string, isError: bool)
      modifies this`stdoutLines, this`stderrLines, this`progressLines, this`queue
      ensures BooksOf() == Bookkeep(old(BooksOf()), raw, prefix, isError)
    {
      var line := RStripLineBreaks(raw);
      if line == "" {
        return;
      }
      var f := ProcessOutputLine(line, prefix, isError);
      if f.isProgress {
        var progressType := Take(line, ProgressKeyLength);
        progressLines := progressLines[progressType := f.text];
      } else if isError {
        stderrLines := stderrLines + [line];
      } else {
        stdoutLines := stdoutLines + [line];
      }
      queue := queue + [QueueEntry(f.text, f.isProgress, isError)];
    }

    /**
     * `_read_output` over the lines one pipe delivers before its end: each
     * line is filed in turn while the reader is active.
     */
    method ReadPipe(lines: seq<string>, isError: bool)
      modifies this`stdoutLines, this`stderrLines, this`progressLines, this`queue
      ensures active ==> BooksOf() == BookkeepAll(old(BooksOf()), lines, prefix, isError)
      ensures !active ==> BooksOf() == old(BooksOf())
    {
      ghost var start := BooksOf();
      var i := 0;
      while i < |lines|
        invariant 0 <= i <= |lines|
        invariant !active ==> i == 0
        invariant BooksOf() == BookkeepAll(start, lines[..i], prefix, isError)
      {
        if !active {
          break;
        }
        ReadLine(lines[i], isError);
        BookkeepAllStep(start, lines, i, prefix, isError);
        i := i + 1;
      }
      assert active ==> lines[..i] == lines;
    }

  }

  // ---------------------------------------------------------------------
  // The job table `active_processes`
  // ---------------------------------------------------------------------

  /**
   * A record of the table. A running record has a start time and no exit
   * code; a finished one has an end time and an exit code; `hasProcess`
   * says whether the record holds a subprocess handle.
   */
  datatype ProcessInfo = ProcessInfo(hasProcess: bool, prefix: string, active: bool,
                                     startTime: Option<real>, endTime: Option<real>, returncode: Option<int>)

  /** A record as `/status` reports it: everything except the subprocess handle. */
  datatype PublicInfo = PublicInfo(prefix: string, active: bool, startTime: Option<real>, endTime: Option<real>, returncode: Option<int>)

  datatype StatusReport = StatusReport(activeCount: nat, total: nat, processes: map<string, PublicInfo>)

  datatype CancelReply = CancelReply(statusCode: nat, success: bool, message: string)

  const InitPrefix: string := "初始化"

  predicate WellFormed(info: ProcessInfo) {
    && (info.returncode.Some? ==> !info.hasProcess && !info.active && info.startTime.None? && info.endTime.Some?)
    && (info.returncode.None? ==> info.startTime.Some? && info.endTime.None?)
  }

  function Public(info: ProcessInfo): PublicInfo {
    PublicInfo(info.prefix, info.active, info.startTime, info.endTime, info.returncode)
  }

  /** The identifiers of active records. */
  function ActiveIds(table: map<string, ProcessInfo>): (ids: set<string>)
    ensures ids <= table.Keys
  {
    set id | id in table && table[id].active
  }

  /** The record a finished step leaves: no handle, inactive, its exit code or -1 when there is none. */
  function FinishedRecord(prefix: string, exitCode: Option<int>, now: real): (info: ProcessInfo)
    ensures WellFormed(info) && !info.active && !info.hasProcess
    ensures info.returncode == Some(if exitCode.Some? then exitCode.value else -1)
  {
    ProcessInfo(false, prefix, false, None, Some(now), Some(exitCode.GetOr(-1)))
  }

  /** Finishing a step (lines 390-398): a present record is replaced, an absent one is not created. */
  function Finished(table: map<string, ProcessInfo>, id: string, prefix: string, exitCode: Option<int>, now: real): map<string, ProcessInfo> {
    if id in table then table[id := FinishedRecord(prefix, exitCode, now)] else table
  }

  /**
   * A step's check of its exit code (lines 536-545, 617-631): it succeeds
   * only when the job's record is present and holds exactly 0.
   */
  predicate StepSucceeded(table: map<string, ProcessInfo>, id: string) {
    id in table && table[id].returncode == Some(0)
  }

  /** After finishing, the step succeeds exactly when the record was present and the exit code was 0. */
  lemma FinishThenCheck(table: map<string, ProcessInfo>, id: string, prefix: string, exitCode: Option<int>, now: real)
    ensures StepSucceeded(Finished(table, id, prefix, exitCode, now), id) <==> id in table && exitCode == Some(0)
    ensures id !in table ==> Finished(table, id, prefix, exitCode, now) == table
  {
  }

  /** The active count never exceeds the size of the table. */
  lemma ActiveAtMostTotal(table: map<string, ProcessInfo>)
    ensures |ActiveIds(table)| <= |table|
  {
    SubsetSize(ActiveIds(table), table.Keys);
  }

  lemma {:induction false} SubsetSize<T>(a: set<T>, b: set<T>)
    requires a <= b
    ensures |a| <= |b|
    decreases |b|
  {
    if b != {} {
      var x :| x in b;
      SubsetSize(a - {x}, b - {x});
    }
  }

  /** Cancelling an active record removes exactly it from the active ones. */
  lemma {:induction false} CancelLowersActiveCount(table: map<string, ProcessInfo>, id: string)
    requires id in table && table[id].active
    ensures ActiveIds(table[id := table[id].(active := false)]) == ActiveIds(table) - {id}
    ensures |ActiveIds(table[id := table[id].(active := false)])| == |ActiveIds(table)| - 1
  {
    var after := table[id := table[id].(active := false)];
    assert ActiveIds(after) == ActiveIds(table) - {id};
  }

  /** `active_processes` with its register, finish, remove, cancel and status operations. */
  class ProcessRegistry {
    var table: map<string, ProcessInfo>

    ghost predicate Valid()
      reads this
    {
      forall id :: id in table ==> WellFormed(table[id])
    }

    constructor ()
      ensures Valid() && table == map[]
    {
      table := map[];
    }

    /** Lines 488-494: the job's record before any subprocess runs. */
    method RegisterInit(id: string, now: real)
      requires Valid()
      modifies this
      ensures Valid()
      ensures table == old(table)[id := ProcessInfo(false, InitPrefix, true, Some(now), None, None)]
    {
      table := table[id := ProcessInfo(false, InitPrefix, true, Some(now), None, None)];
    }

    /** Lines 312-319: a step's subprocess has started; the record is overwritten, active again. */
    method RegisterRun(id: string, prefix: string, now: real)
      requires Valid()
      modifies this
      ensures Valid()
      ensures table == old(table)[id := ProcessInfo(true, prefix, true, Some(now), None, None)]
    {
      table := table[id := ProcessInfo(true, prefix, true, Some(now), None, None)];
    }

    method Finish(id: string, prefix: string, exitCode: Option<int>, now: real)
      requires Valid()
      modifies this
      ensures Valid()
      ensures table == Finished(old(table), id, prefix, exitCode, now)
    {
      if id in table {
        table := table[id := FinishedRecord(prefix, exitCode, now)];
      }
    }

    /** Lines 672-675: the job's record is dropped when its stream ends. */
    method Remove(id: string)
      requires Valid()
      modifies this
      ensures Valid()
      ensures table == old(table) - {id}
    {
      if id in table {
        table := map k | k in table && k != id :: table[k];
      }
    }

    /** `is_process_active` (lines 501-506). */
    predicate IsActive(id: string)
      reads this
    {
      id in table && table[id].active
    }

    /**
     * `cancel_process` (lines 685-733): a present record is marked inactive
     * and the reply is a success; an absent one leaves the table alone and
     * the reply is a 404 failure.
     */
    method Cancel(id: string) returns (reply: CancelReply)
      requires Valid()
      modifies this
      ensures Valid()
      ensures id in old(table) ==> table == old(table)[id := old(table)[id].(active := false)]
                                   && reply == CancelReply(200, true, "进程已取消") && !IsActive(id)
      ensures id !in old(table) ==> table == old(table) && reply == CancelReply(404, false, "进程不存在或已完成")
    {
      if id in table {
        table := table[id := table[id].(active := false)];
        reply := CancelReply(200, true, "进程已取消");
      } else {
        reply := CancelReply(404, false, "进程不存在或已完成");
      }
    }

    /**
     * `get_status` (lines 748-766): the count of active records, the size of
     * the table, and every record without its subprocess handle.
     */
    method Status() returns (report: StatusReport)
      ensures report.activeCount == |ActiveIds(table)| && report.total == |table|
      ensures report.processes == PublicView(table, table.Keys)
    {
      var activeCount, processes := Tally(table);
      report := StatusReport(activeCount, |table|, processes);
    }
  }

  /** The loop of `get_status`: one pass over the table, counting active records and copying each without its handle. */
  method Tally(table: map<string, ProcessInfo>) returns (activeCount: nat, processes: map<string, PublicInfo>)
    ensures activeCount == |ActiveIds(table)|
    ensures processes == PublicView(table, table.Keys)
  {
    var remaining := table.Keys;
    activeCount := 0;
    processes := map[];
    while remaining != {}
      invariant TallyInvariant(table, remaining, activeCount, processes)
      decreases remaining
    {
      var id :| id in remaining;
      TallyStep(table, remaining, id, activeCount, processes);
      processes := processes[id := Public(table[id])];
      if table[id].active {
        activeCount := activeCount + 1;
      }
      remaining := remaining - {id};
    }
    assert table.Keys - {} == table.Keys;
    assert ActiveIds(table) - {} == ActiveIds(table);
  }

  /** What the loop of `get_status` has done when `remaining` is still unvisited. */
  ghost predicate TallyInvariant(table: map<string, ProcessInfo>, remaining: set<string>, activeCount: nat, processes: map<string, PublicInfo>) {
    && remaining <= table.Keys
    && processes == PublicView(table, table.Keys - remaining)
    && activeCount == |ActiveIds(table) - remaining|
  }

  lemma TallyStep(table: map<string, ProcessInfo>, remaining: set<string>, id: string, activeCount: nat, processes: map<string, PublicInfo>)
    requires TallyInvariant(table, remaining, activeCount, processes) && id in remaining
    ensures TallyInvariant(table, remaining - {id}, activeCount + (if table[id].active then 1 else 0), processes[id := Public(table[id])])
  {
    PublicViewStep(table, table.Keys - remaining, id);
    assert table.Keys - (remaining - {id}) == (table.Keys - remaining) + {id};
    CountStep(ActiveIds(table), remaining, id);
  }

  /** The records with identifiers in `ids`, each without its subprocess handle. */
  function PublicView(table: map<string, ProcessInfo>, ids: set<string>): (view: map<string, PublicInfo>)
    requires ids <= table.Keys
    ensures view.Keys == ids
    ensures forall id :: id in ids ==> view[id] == Public(table[id])
  {
    map id | id in ids :: Public(table[id])
  }

  lemma PublicViewStep(table: map<string, ProcessInfo>, ids: set<string>, id: string)
    requires ids <= table.Keys && id in table
    ensures PublicView(table, ids + {id}) == PublicView(table, ids)[id := Public(table[id])]
  {
  }

  /** Taking one more identifier out of the unvisited ones adds it to the visited active ones when it is active. */
  lemma CountStep(activeIds: set<string>, remaining: set<string>, id: string)
    requires id in remaining
    ensures |activeIds - (remaining - {id})| == |activeIds - remaining| + (if id in activeIds then 1 else 0)
  {
    if id in activeIds {
      assert activeIds - (remaining - {id}) == (activeIds - remaining) + {id};
    } else {
      assert activeIds - (remaining - {id}) == activeIds - remaining;
    }
  }

  // ---------------------------------------------------------------------
  // The closing report of `generate_output` (lines 651-670)
  // ---------------------------------------------------------------------

  function EnhancePath(stem: string): string {
    "/download/" + stem + "_enhance.ply"
  }

  function RefinePath(stem: string): string {
    "/download/" + stem + "_refine.ply"
  }

  const EndBanner: string := "===== 处理结束 =====\n"

  /**
   * The lines the report streams, given which of the two artifact files
   * exist: both marker lines when both do; otherwise a warning and then
   * exactly one line, enhance checked before refine; always the end banner.
   */
  function ArtifactReport(stem: string, enhanceExists: bool, refineExists: bool): (lines: seq<string>)
    ensures |lines| == if enhanceExists && refineExists then 4 else 3
    ensures lines[|lines| - 1] == EndBanner
    ensures enhanceExists && refineExists <==> "增强文件: " + EnhancePath(stem) + "\n" in lines
    ensures enhanceExists && refineExists <==> "精细文件: " + RefinePath(stem) + "\n" in lines
    ensures !(enhanceExists && refineExists) ==>
      lines[0] == "警告: 未找到预期的输出文件!\n"
      && lines[1] == (if enhanceExists then "只找到增强文件: " + EnhancePath(stem) + "\n"
                      else if refineExists then "只找到精细文件: " + RefinePath(stem) + "\n"
                      else "未找到任何输出文件!\n")
  {
    var reportLines :=
      if enhanceExists && refineExists then
        ["输出文件生成成功!\n", "增强文件: " + EnhancePath(stem) + "\n", "精细文件: " + RefinePath(stem) + "\n"]
      else if enhanceExists then
        ["警告: 未找到预期的输出文件!\n", "只找到增强文件: " + EnhancePath(stem) + "\n"]
      else if refineExists then
        ["警告: 未找到预期的输出文件!\n", "只找到精细文件: " + RefinePath(stem) + "\n"]
      else
        ["警告: 未找到预期的输出文件!\n", "未找到任何输出文件!\n"];
    reportLines + [EndBanner]
  }
}
