/**
 * Where the server's closing report (UniHair/run.py, lines 651-670) meets
 * the client's marker scan (src/components/Run3dgs.tsx, lines 196-209):
 * which links the client ends up with when the report reaches it.
 */
module Handshake {
  import opened Wrappers
  import opened Text
  import Run3dgs
  import UniHair

  /** The report's lines without their line feeds. */
  function ReportLines(stem: string, enhanceExists: bool, refineExists: bool): seq<string> {
    var middle :=
      if enhanceExists && refineExists then [SuccessNotice, EnhanceLine(stem), RefineLine(stem)]
      else [MissingWarning, FallbackLine(stem, enhanceExists, refineExists)];
    middle + [Banner]
  }

  /** Every streamed report line is one of these lines with its line feed. */
  lemma ReportIsTerminated(stem: string, enhanceExists: bool, refineExists: bool)
    ensures UniHair.ArtifactReport(stem, enhanceExists, refineExists) == Run3dgs.Terminated(ReportLines(stem, enhanceExists, refineExists))
  {
    var report := UniHair.ArtifactReport(stem, enhanceExists, refineExists);
    var lines := ReportLines(stem, enhanceExists, refineExists);
    assert |report| == |lines|;
    forall i | 0 <= i < |lines| ensures report[i] == lines[i] + "\n" {
    }
  }

  /**
   * When the whole report arrives in one chunk after a line boundary, the
   * client completes exactly its lines and keeps nothing pending.
   */
  lemma ReportArrivesWhole(stem: string, enhanceExists: bool, refineExists: bool)
    requires '\n' !in stem
    ensures Run3dgs.Feed("", Run3dgs.Flatten(UniHair.ArtifactReport(stem, enhanceExists, refineExists)))
            == Run3dgs.Fed(ReportLines(stem, enhanceExists, refineExists), "")
  {
    ReportIsTerminated(stem, enhanceExists, refineExists);
    ReportLinesLackLineFeed(stem, enhanceExists, refineExists);
    Run3dgs.FeedWholeLines(ReportLines(stem, enhanceExists, refineExists));
  }

  lemma ReportLinesLackLineFeed(stem: string, enhanceExists: bool, refineExists: bool)
    requires '\n' !in stem
    ensures var lines := ReportLines(stem, enhanceExists, refineExists);
      forall i :: 0 <= i < |lines| ==> '\n' !in lines[i]
  {
    var lines := ReportLines(stem, enhanceExists, refineExists);
    forall i | 0 <= i < |lines| ensures '\n' !in lines[i] {
      NoLineFeedInReportLine(stem, enhanceExists, refineExists, i);
      assert (lines + [""])[i] == lines[i];
    }
  }

  lemma NoLineFeedInReportLine(stem: string, enhanceExists: bool, refineExists: bool, i: int)
    requires '\n' !in stem
    requires 0 <= i <= |ReportLines(stem, enhanceExists, refineExists)|
    ensures '\n' !in (ReportLines(stem, enhanceExists, refineExists) + [""])[i]
  {
    FixedLinesLackLineFeed();
    EnhanceLineLacksLineFeed(stem);
    RefineLineLacksLineFeed(stem);
    FallbackLineLacksLineFeed(stem, enhanceExists, refineExists);
  }

  lemma FixedLinesLackLineFeed()
    ensures '\n' !in SuccessNotice && '\n' !in MissingWarning && '\n' !in Banner
  {
  }

  lemma EnhanceLineLacksLineFeed(stem: string)
    requires '\n' !in stem
    ensures '\n' !in EnhanceLine(stem)
  {
    assert '\n' !in "增强文件: /download/" && '\n' !in "_enhance.ply";
    assert EnhanceLine(stem) == "增强文件: /download/" + stem + "_enhance.ply";
  }

  lemma RefineLineLacksLineFeed(stem: string)
    requires '\n' !in stem
    ensures '\n' !in RefineLine(stem)
  {
    assert '\n' !in "精细文件: /download/" && '\n' !in "_refine.ply";
    assert RefineLine(stem) == "精细文件: /download/" + stem + "_refine.ply";
  }

  lemma FallbackLineLacksLineFeed(stem: string, enhanceExists: bool, refineExists: bool)
    requires '\n' !in stem
    ensures '\n' !in FallbackLine(stem, enhanceExists, refineExists)
  {
    if enhanceExists {
      OnlyEnhanceLacksLineFeed(stem);
    } else if refineExists {
      OnlyRefineLacksLineFeed(stem);
    } else {
      assert '\n' !in "未找到任何输出文件!";
    }
  }

  lemma OnlyEnhanceLacksLineFeed(stem: string)
    requires '\n' !in stem
    ensures '\n' !in FallbackLine(stem, true, false)
  {
    assert '\n' !in "只找到增强文件: /download/" && '\n' !in "_enhance.ply";
    assert FallbackLine(stem, true, false) == "只找到增强文件: /download/" + stem + "_enhance.ply";
  }

  lemma OnlyRefineLacksLineFeed(stem: string)
    requires '\n' !in stem
    ensures '\n' !in FallbackLine(stem, false, true)
  {
    assert '\n' !in "只找到精细文件: /download/" && '\n' !in "_refine.ply";
    assert FallbackLine(stem, false, true) == "只找到精细文件: /download/" + stem + "_refine.ply";
  }



  lemma JoinFour(a: string, b: string, c: string, d: string)
    ensures Join([a, b, c, d], '\n') == a + "\n" + b + "\n" + c + "\n" + d
  {
    JoinThree(b, c, d);
    assert [a, b, c, d][1..] == [b, c, d];
    assert Join([a, b, c, d], '\n') == a + ['\n'] + Join([b, c, d], '\n');
  }

  lemma JoinThree(a: string, b: string, c: string)
    ensures Join([a, b, c], '\n') == a + "\n" + b + "\n" + c
  {
    assert [a, b, c][1..] == [b, c];
    assert [b, c][1..] == [c];
    assert Join([c], '\n') == c;
    assert Join([b, c], '\n') == b + ['\n'] + c;
    assert Join([a, b, c], '\n') == a + ['\n'] + Join([b, c], '\n');
  }

  /** A character that begins the marker and never occurs in the text rules out every match. */
  lemma AbsentMarker(text: string, marker: string)
    requires |marker| > 0 && marker[0] !in text
    ensures Run3dgs.Search(text, marker, 0).None?
    ensures Run3dgs.FirstMatch(text, marker).None?
  {
    forall j | 0 <= j <= |text| ensures Run3dgs.MatchAt(text, j, marker).None? {
      if Run3dgs.MatchAt(text, j, marker).Some? {
        MarkerStartsMatch(text, j, marker);
      }
    }
  }

  /** A match at index `j` starts with the marker's first character. */
  lemma MarkerStartsMatch(text: string, j: nat, marker: string)
    requires |marker| > 0 && j <= |text|
    requires Run3dgs.MatchAt(text, j, marker).Some?
    ensures j < |text| && text[j] == marker[0]
  {
    var k := j + |marker| + |Run3dgs.DownloadPrefix|;
    assert text[j..k][0] == (marker + Run3dgs.DownloadPrefix)[0];
  }

  /**
   * The search finds the marker line at index `at` when the text before it
   * never shows the marker's first character.
   */
  lemma SearchFindsLine(text: string, marker: string, at: nat, w: string)
    requires |marker| > 0 && at <= |text|
    requires forall j :: 0 <= j < at ==> text[j] != marker[0]
    requires Run3dgs.RegexMatches(text, at, marker, w)
    ensures Run3dgs.Search(text, marker, 0) == Some(at)
    ensures Run3dgs.FirstMatch(text, marker) == Some(Run3dgs.DownloadPrefix + w + Run3dgs.PlySuffix)
  {
    Run3dgs.MatchAtComplete(text, at, marker, w);
    var r := Run3dgs.Search(text, marker, 0);
    if r.Some? && r.value < at {
      MarkerStartsMatch(text, r.value, marker);
    }
  }

  /** A marker line after text free of the marker's first character is what the client captures. */
  lemma FirstMatchInLine(pre: string, marker: string, w: string, rest: string)
    requires |marker| > 0 && marker[0] !in pre
    requires |w| > 0 && Run3dgs.AllWord(w)
    ensures Run3dgs.FirstMatch(pre + (marker + Run3dgs.DownloadPrefix + w + Run3dgs.PlySuffix) + rest, marker)
            == Some(Run3dgs.DownloadPrefix + w + Run3dgs.PlySuffix)
  {
    var m := marker + Run3dgs.DownloadPrefix + w + Run3dgs.PlySuffix;
    var text := pre + m + rest;
    assert text[|pre|..|pre| + |m|] == m;
    assert Run3dgs.RegexMatches(text, |pre|, marker, w);
    forall j | 0 <= j < |pre| ensures text[j] != marker[0] {
      assert text[j] == pre[j];
    }
    SearchFindsLine(text, marker, |pre|, w);
  }

  /** A stem of word characters holds neither marker's first character. */
  lemma WordStemAvoidsMarkers(stem: string)
    requires Run3dgs.AllWord(stem)
    ensures '增' !in stem && '精' !in stem
  {
  }

  const SuccessNotice: string := "输出文件生成成功!"
  const Banner: string := "===== 处理结束 ====="

  function EnhanceLine(stem: string): string {
    "增强文件: " + UniHair.EnhancePath(stem)
  }

  function RefineLine(stem: string): string {
    "精细文件: " + UniHair.RefinePath(stem)
  }

  /** The notice before the enhance line lacks the enhance marker's first character. */
  lemma NoticeLacksEnhance()
    ensures '增' !in SuccessNotice + "\n"
  {
  }

  /** Everything before the stem on the enhance line lacks the refine marker's first character. */
  lemma EnhanceHeadLacksRefine()
    ensures '精' !in SuccessNotice + "\n" + Run3dgs.EnhanceMarker + Run3dgs.DownloadPrefix
  {
  }

  lemma SuffixLacksRefine()
    ensures '精' !in Run3dgs.PlySuffix && '精' !in "_enhance.ply" + "\n"
  {
  }

  lemma MarkerInitials()
    ensures Run3dgs.EnhanceMarker[0] == '增' && Run3dgs.RefineMarker[0] == '精'
  {
  }

  /** The warning and the closing banner hold neither marker's first character. */
  lemma FrameLacksMarkers()
    ensures '增' !in MissingWarning + "\n" && '精' !in MissingWarning + "\n"
    ensures '增' !in "\n" + Banner && '精' !in "\n" + Banner
  {
  }

  lemma OnlyEnhanceLacksRefine(stem: string)
    requires '精' !in stem
    ensures '精' !in FallbackLine(stem, true, false)
  {
    assert '精' !in "只找到增强文件: /download/" && '精' !in "_enhance.ply";
    assert FallbackLine(stem, true, false) == "只找到增强文件: /download/" + stem + "_enhance.ply";
  }

  lemma OnlyRefineLacksEnhance(stem: string)
    requires '增' !in stem
    ensures '增' !in FallbackLine(stem, false, true)
  {
    assert '增' !in "只找到精细文件: /download/" && '增' !in "_refine.ply";
    assert FallbackLine(stem, false, true) == "只找到精细文件: /download/" + stem + "_refine.ply";
  }

  lemma NeitherLacksEnhance(stem: string)
    ensures '增' !in FallbackLine(stem, false, false)
  {
  }

  /** A marker whose first character is absent from the middle line matches nowhere in a fallback report. */
  lemma FallbackUnmatched(middle: string, marker: string)
    requires |marker| > 0 && marker[0] !in middle
    requires marker[0] == '增' || marker[0] == '精'
    ensures Run3dgs.FirstMatch(MissingWarning + "\n" + middle + "\n" + Banner, marker).None?
  {
    FrameLacksMarkers();
    var text := MissingWarning + "\n" + middle + "\n" + Banner;
    assert text == (MissingWarning + "\n") + middle + ("\n" + Banner);
    AbsentMarker(text, marker);
  }

  lemma SuccessText(stem: string)
    ensures Join(ReportLines(stem, true, true), '\n')
            == SuccessNotice + "\n" + EnhanceLine(stem) + "\n" + RefineLine(stem) + "\n" + Banner
  {
    assert ReportLines(stem, true, true) == [SuccessNotice, EnhanceLine(stem), RefineLine(stem), Banner];
    JoinFour(SuccessNotice, EnhanceLine(stem), RefineLine(stem), Banner);
  }

  lemma EnhanceFound(stem: string, text: string)
    requires Run3dgs.AllWord(stem)
    requires text == SuccessNotice + "\n" + EnhanceLine(stem) + "\n" + RefineLine(stem) + "\n" + Banner
    ensures Run3dgs.FirstMatch(text, Run3dgs.EnhanceMarker) == Some(UniHair.EnhancePath(stem))
  {
    NoticeLacksEnhance();
    assert text == (SuccessNotice + "\n") + EnhanceLine(stem) + ("\n" + RefineLine(stem) + "\n" + Banner);
    EnhanceLineFound(SuccessNotice + "\n", stem, "\n" + RefineLine(stem) + "\n" + Banner);
  }

  /** The enhance line of a word stem, after text free of `增`, yields the enhance path. */
  lemma EnhanceLineFound(pre: string, stem: string, post: string)
    requires Run3dgs.AllWord(stem) && '增' !in pre
    ensures Run3dgs.FirstMatch(pre + EnhanceLine(stem) + post, Run3dgs.EnhanceMarker) == Some(UniHair.EnhancePath(stem))
  {
    MarkerInitials();
    var w := stem + "_enhance";
    assert Run3dgs.AllWord(w);
    assert EnhanceLine(stem) == Run3dgs.EnhanceMarker + Run3dgs.DownloadPrefix + w + Run3dgs.PlySuffix;
    assert Run3dgs.DownloadPrefix + w + Run3dgs.PlySuffix == UniHair.EnhancePath(stem);
    FirstMatchInLine(pre, Run3dgs.EnhanceMarker, w, post);
  }

  lemma RefineFound(stem: string, text: string)
    requires Run3dgs.AllWord(stem)
    requires text == SuccessNotice + "\n" + EnhanceLine(stem) + "\n" + RefineLine(stem) + "\n" + Banner
    ensures Run3dgs.FirstMatch(text, Run3dgs.RefineMarker) == Some(UniHair.RefinePath(stem))
  {
    WordStemAvoidsMarkers(stem);
    var pre := SuccessNotice + "\n" + EnhanceLine(stem) + "\n";
    RefineAbsentBefore(stem);
    assert text == pre + RefineLine(stem) + ("\n" + Banner);
    RefineLineFound(pre, stem, "\n" + Banner);
  }

  /** The text before the refine line lacks `精` when the stem does. */
  lemma RefineAbsentBefore(stem: string)
    requires '精' !in stem
    ensures '精' !in SuccessNotice + "\n" + EnhanceLine(stem) + "\n"
  {
    EnhanceHeadLacksRefine();
    SuffixLacksRefine();
    assert SuccessNotice + "\n" + EnhanceLine(stem) + "\n"
      == (SuccessNotice + "\n" + Run3dgs.EnhanceMarker + Run3dgs.DownloadPrefix) + stem + ("_enhance.ply" + "\n");
  }

  /** The refine line of a word stem, after text free of `精`, yields the refine path. */
  lemma RefineLineFound(pre: string, stem: string, post: string)
    requires Run3dgs.AllWord(stem) && '精' !in pre
    ensures Run3dgs.FirstMatch(pre + RefineLine(stem) + post, Run3dgs.RefineMarker) == Some(UniHair.RefinePath(stem))
  {
    MarkerInitials();
    var w := stem + "_refine";
    assert Run3dgs.AllWord(w);
    assert RefineLine(stem) == Run3dgs.RefineMarker + Run3dgs.DownloadPrefix + w + Run3dgs.PlySuffix;
    assert Run3dgs.DownloadPrefix + w + Run3dgs.PlySuffix == UniHair.RefinePath(stem);
    FirstMatchInLine(pre, Run3dgs.RefineMarker, w, post);
  }

  /**
   * With both artifacts present and a stem of word characters only, the
   * client's links are exactly the two paths the server announced.
   */
  lemma LinksFromReport(stem: string)
    requires Run3dgs.AllWord(stem)
    ensures Run3dgs.ScanLinks(ReportLines(stem, true, true))
            == Some(Run3dgs.Links(UniHair.EnhancePath(stem), UniHair.RefinePath(stem)))
  {
    SuccessText(stem);
    var text := Join(ReportLines(stem, true, true), '\n');
    EnhanceFound(stem, text);
    RefineFound(stem, text);
  }

  /**
   * The client looks for the two markers only among the lines one read
   * completes (Run3dgs.tsx, lines 196-210), and the server sends the report
   * line by line. When the enhance line completes in one read and the refine
   * line in the next, neither read sees both markers, so `ChunkArrived`
   * leaves the links as they were: unset.
   */
  lemma MarkersInSeparateReads(stem: string)
    requires Run3dgs.AllWord(stem)
    ensures var lines := ReportLines(stem, true, true);
      var first := Run3dgs.Feed("", Run3dgs.Flatten(Run3dgs.Terminated(lines[..2])));
      var second := Run3dgs.Feed(first.pending, Run3dgs.Flatten(Run3dgs.Terminated(lines[2..])));
      && first == Run3dgs.Fed([SuccessNotice, EnhanceLine(stem)], "")
      && second == Run3dgs.Fed([RefineLine(stem), Banner], "")
      && Run3dgs.ScanLinks(first.complete).None? && Run3dgs.ScanLinks(second.complete).None?
  {
    var lines := ReportLines(stem, true, true);
    assert lines == [SuccessNotice, EnhanceLine(stem), RefineLine(stem), Banner];
    WordStemAvoidsMarkers(stem);
    WordStemLacksLineFeed(stem);
    ReportLinesLackLineFeed(stem, true, true);
    assert lines[..2] == [SuccessNotice, EnhanceLine(stem)] && lines[2..] == [RefineLine(stem), Banner];
    Run3dgs.FeedWholeLines(lines[..2]);
    Run3dgs.FeedWholeLines(lines[2..]);
    EnhanceReadLacksRefine(stem);
    RefineReadLacksEnhance(stem);
  }

  lemma WordStemLacksLineFeed(stem: string)
    requires Run3dgs.AllWord(stem)
    ensures '\n' !in stem
  {
    forall i | 0 <= i < |stem| ensures stem[i] != '\n' {
      assert Run3dgs.IsWordChar(stem[i]);
    }
  }

  /** The read that completes the notice and the enhance line finds no refine link. */
  lemma EnhanceReadLacksRefine(stem: string)
    requires '精' !in stem
    ensures Run3dgs.ScanLinks([SuccessNotice, EnhanceLine(stem)]).None?
  {
    var text := SuccessNotice + "\n" + EnhanceLine(stem);
    JoinTwo(SuccessNotice, EnhanceLine(stem));
    RefineAbsentBefore(stem);
    assert '精' !in text by {
      assert text + "\n" == SuccessNotice + "\n" + EnhanceLine(stem) + "\n";
      assert forall k :: 0 <= k < |text| ==> text[k] == (text + "\n")[k];
    }
    MarkerInitials();
    AbsentMarker(text, Run3dgs.RefineMarker);
  }

  /** The read that completes the refine line and the banner finds no enhance link. */
  lemma RefineReadLacksEnhance(stem: string)
    requires '增' !in stem
    ensures Run3dgs.ScanLinks([RefineLine(stem), Banner]).None?
  {
    JoinTwo(RefineLine(stem), Banner);
    assert '增' !in "精细文件: /download/" && '增' !in "_refine.ply";
    assert RefineLine(stem) == "精细文件: /download/" + stem + "_refine.ply";
    FrameLacksMarkers();
    var text := RefineLine(stem) + ("\n" + Banner);
    assert RefineLine(stem) + "\n" + Banner == text;
    MarkerInitials();
    AbsentMarker(text, Run3dgs.EnhanceMarker);
  }

  lemma JoinTwo(a: string, b: string)
    ensures Join([a, b], '\n') == a + "\n" + b
  {
    assert [a, b][1..] == [b];
    assert Join([b], '\n') == b;
  }

  const MissingWarning: string := "警告: 未找到预期的输出文件!"

  /** The middle line of a report without both artifacts. */
  function FallbackLine(stem: string, enhanceExists: bool, refineExists: bool): string {
    if enhanceExists then "只找到增强文件: " + UniHair.EnhancePath(stem)
    else if refineExists then "只找到精细文件: " + UniHair.RefinePath(stem)
    else "未找到任何输出文件!"
  }

  lemma FallbackText(stem: string, enhanceExists: bool, refineExists: bool)
    requires !(enhanceExists && refineExists)
    ensures Join(ReportLines(stem, enhanceExists, refineExists), '\n')
            == MissingWarning + "\n" + FallbackLine(stem, enhanceExists, refineExists) + "\n" + Banner
  {
    assert ReportLines(stem, enhanceExists, refineExists) == [MissingWarning, FallbackLine(stem, enhanceExists, refineExists), Banner];
    JoinThree(MissingWarning, FallbackLine(stem, enhanceExists, refineExists), Banner);
  }

  /**
   * Without both artifacts the client sets no links, provided the stem
   * carries neither marker's first character.
   */
  lemma NoLinksWithoutBoth(stem: string, enhanceExists: bool, refineExists: bool)
    requires !(enhanceExists && refineExists)
    requires '增' !in stem && '精' !in stem
    ensures Run3dgs.ScanLinks(ReportLines(stem, enhanceExists, refineExists)).None?
  {
    FallbackText(stem, enhanceExists, refineExists);
    var middle := FallbackLine(stem, enhanceExists, refineExists);
    MarkerInitials();
    if enhanceExists {
      OnlyEnhanceLacksRefine(stem);
      FallbackUnmatched(middle, Run3dgs.RefineMarker);
    } else if refineExists {
      OnlyRefineLacksEnhance(stem);
      FallbackUnmatched(middle, Run3dgs.EnhanceMarker);
    } else {
      NeitherLacksEnhance(stem);
      FallbackUnmatched(middle, Run3dgs.EnhanceMarker);
    }
  }

  /**
   * The captured group equals the announced path only for a stem of word
   * characters: any other character cuts the word run short.
   */
  lemma ExactCaptureNeedsWordStem(text: string, j: nat, stem: string)
    requires j <= |text|
    ensures Run3dgs.MatchAt(text, j, Run3dgs.EnhanceMarker) == Some(UniHair.EnhancePath(stem)) ==> Run3dgs.AllWord(stem)
    ensures Run3dgs.MatchAt(text, j, Run3dgs.RefineMarker) == Some(UniHair.RefinePath(stem)) ==> Run3dgs.AllWord(stem)
  {
    EnhanceCaptureNeedsWordStem(text, j, stem);
    RefineCaptureNeedsWordStem(text, j, stem);
  }

  lemma EnhanceCaptureNeedsWordStem(text: string, j: nat, stem: string)
    requires j <= |text|
    ensures Run3dgs.MatchAt(text, j, Run3dgs.EnhanceMarker) == Some(UniHair.EnhancePath(stem)) ==> Run3dgs.AllWord(stem)
  {
    var pe := UniHair.EnhancePath(stem);
    if Run3dgs.MatchAt(text, j, Run3dgs.EnhanceMarker) == Some(pe) {
      assert pe[|Run3dgs.DownloadPrefix|..|pe| - |Run3dgs.PlySuffix|] == stem + "_enhance";
      forall i | 0 <= i < |stem| ensures Run3dgs.IsWordChar(stem[i]) {
        assert (stem + "_enhance")[i] == stem[i];
      }
    }
  }

  lemma RefineCaptureNeedsWordStem(text: string, j: nat, stem: string)
    requires j <= |text|
    ensures Run3dgs.MatchAt(text, j, Run3dgs.RefineMarker) == Some(UniHair.RefinePath(stem)) ==> Run3dgs.AllWord(stem)
  {
    var pr := UniHair.RefinePath(stem);
    if Run3dgs.MatchAt(text, j, Run3dgs.RefineMarker) == Some(pr) {
      assert pr[|Run3dgs.DownloadPrefix|..|pr| - |Run3dgs.PlySuffix|] == stem + "_refine";
      forall i | 0 <= i < |stem| ensures Run3dgs.IsWordChar(stem[i]) {
        assert (stem + "_refine")[i] == stem[i];
      }
    }
  }


  /**
   * A stem made of a word run, `.ply`, and anything else (an upload named
   * `a.ply.jpg` has the stem `a.ply`) gets both links pointing at the word
   * run plus `.ply`, which is neither artifact.
   */
  lemma DottedStemMisread(run: string, tail: string)
    requires |run| > 0 && Run3dgs.AllWord(run)
    requires '精' !in tail
    ensures var stem := run + Run3dgs.PlySuffix + tail;
      var link := Run3dgs.DownloadPrefix + run + Run3dgs.PlySuffix;
      Run3dgs.ScanLinks(ReportLines(stem, true, true)) == Some(Run3dgs.Links(link, link))
  {
    var stem := run + Run3dgs.PlySuffix + tail;
    SuccessText(stem);
    var text := Join(ReportLines(stem, true, true), '\n');
    MisreadEnhance(run, tail, text);
    MisreadRefine(run, tail, text);
  }

  lemma MisreadEnhance(run: string, tail: string, text: string)
    requires |run| > 0 && Run3dgs.AllWord(run)
    requires var stem := run + Run3dgs.PlySuffix + tail;
      text == SuccessNotice + "\n" + EnhanceLine(stem) + "\n" + RefineLine(stem) + "\n" + Banner
    ensures Run3dgs.FirstMatch(text, Run3dgs.EnhanceMarker) == Some(Run3dgs.DownloadPrefix + run + Run3dgs.PlySuffix)
  {
    var stem := run + Run3dgs.PlySuffix + tail;
    NoticeLacksEnhance();
    assert text == (SuccessNotice + "\n") + EnhanceLine(stem) + ("\n" + RefineLine(stem) + "\n" + Banner);
    EnhanceLineMisread(SuccessNotice + "\n", run, tail, "\n" + RefineLine(stem) + "\n" + Banner);
  }

  /** The enhance line of a dotted stem, after text free of `增`, yields the word run plus `.ply`. */
  lemma EnhanceLineMisread(pre: string, run: string, tail: string, post: string)
    requires |run| > 0 && Run3dgs.AllWord(run) && '增' !in pre
    ensures Run3dgs.FirstMatch(pre + EnhanceLine(run + Run3dgs.PlySuffix + tail) + post, Run3dgs.EnhanceMarker)
            == Some(Run3dgs.DownloadPrefix + run + Run3dgs.PlySuffix)
  {
    MarkerInitials();
    var e := Run3dgs.EnhanceMarker + Run3dgs.DownloadPrefix + run + Run3dgs.PlySuffix;
    assert EnhanceLine(run + Run3dgs.PlySuffix + tail) == e + (tail + "_enhance.ply");
    assert pre + EnhanceLine(run + Run3dgs.PlySuffix + tail) + post == pre + e + (tail + "_enhance.ply" + post);
    FirstMatchInLine(pre, Run3dgs.EnhanceMarker, run, tail + "_enhance.ply" + post);
  }


  lemma MisreadRefine(run: string, tail: string, text: string)
    requires |run| > 0 && Run3dgs.AllWord(run)
    requires '精' !in tail
    requires var stem := run + Run3dgs.PlySuffix + tail;
      text == SuccessNotice + "\n" + EnhanceLine(stem) + "\n" + RefineLine(stem) + "\n" + Banner
    ensures Run3dgs.FirstMatch(text, Run3dgs.RefineMarker) == Some(Run3dgs.DownloadPrefix + run + Run3dgs.PlySuffix)
  {
    var stem := run + Run3dgs.PlySuffix + tail;
    WordStemAvoidsMarkers(run);
    SuffixLacksRefine();
    assert '精' !in stem;
    var pre := SuccessNotice + "\n" + EnhanceLine(stem) + "\n";
    RefineAbsentBefore(stem);
    assert text == pre + RefineLine(stem) + ("\n" + Banner);
    RefineLineMisread(pre, run, tail, "\n" + Banner);
  }

  /** The refine line of a dotted stem, after text free of `精`, yields the word run plus `.ply`. */
  lemma RefineLineMisread(pre: string, run: string, tail: string, post: string)
    requires |run| > 0 && Run3dgs.AllWord(run) && '精' !in pre
    ensures Run3dgs.FirstMatch(pre + RefineLine(run + Run3dgs.PlySuffix + tail) + post, Run3dgs.RefineMarker)
            == Some(Run3dgs.DownloadPrefix + run + Run3dgs.PlySuffix)
  {
    MarkerInitials();
    var r := Run3dgs.RefineMarker + Run3dgs.DownloadPrefix + run + Run3dgs.PlySuffix;
    assert RefineLine(run + Run3dgs.PlySuffix + tail) == r + (tail + "_refine.ply");
    assert pre + RefineLine(run + Run3dgs.PlySuffix + tail) + post == pre + r + (tail + "_refine.ply" + post);
    FirstMatchInLine(pre, Run3dgs.RefineMarker, run, tail + "_refine.ply" + post);
  }

}
