/**
 * `parse_log_data`, which turns log text into parsed entries with converted
 * timestamps and a bounded list of elevated lines for the summariser, and the
 * outcome decision of `process_logs_and_summarize`.
 */
module Features {
  import opened Wrappers
  import opened Text
  import opened Severity
  import opened Timestamps
  import opened LineClassifier

  /** The default of `max_lines_for_llm`, and what `process_logs_and_summarize` passes. */
  const MaxLinesForLlm: int := 200

  /** One row of the returned table: the parsed entry and its `timestamp` column. */
  datatype LogRecord = LogRecord(entry: ParsedEntry, timestamp: Option<DateTime>)

  /** The dictionary `parse_log_data` returns: the table and the lines for the summariser. */
  datatype ParsedLog = ParsedLog(logs: seq<LogRecord>, errorWarningRawLines: seq<string>)

  // ---------------------------------------------------------------- specification

  /** The input lines stripped, with the blank ones dropped, in input order. */
  function NonBlankLines(lines: seq<string>): seq<string> {
    if lines == [] then [] else KeptLine(lines[0]) + NonBlankLines(lines[1..])
  }

  /** What one line contributes: its stripped text, or nothing when it is blank. */
  function KeptLine(line: string): seq<string> {
    if Strip(line) == [] then [] else [Strip(line)]
  }

  /** `f` applied to each line, in order. */
  function MapLines<T>(lines: seq<string>, f: string -> T): seq<T> {
    if lines == [] then [] else [f(lines[0])] + MapLines(lines[1..], f)
  }

  /** The raw lines of the elevated entries, in order. */
  function ElevatedRawLines(entries: seq<ParsedEntry>): seq<string> {
    if entries == [] then []
    else (if IsElevated(entries[0].level) then [entries[0].rawLine] else []) + ElevatedRawLines(entries[1..])
  }

  /** Appending one line after another, each only while fewer than `cap` have been kept. */
  function Collect(xs: seq<string>, cap: int): seq<string>
    decreases |xs|
  {
    if xs == [] then []
    else
      var kept := Collect(xs[..|xs| - 1], cap);
      if |kept| < cap then kept + [xs[|xs| - 1]] else kept
  }

  function WithTimestamps(entries: seq<ParsedEntry>): seq<LogRecord> {
    seq(|entries|, k requires 0 <= k < |entries| => LogRecord(entries[k], ParseTimestamp(entries[k].timestampStr)))
  }

  /** What `parse_log_data(content, cap)` returns. */
  function ParsedLogOf(content: string, cap: int): ParsedLog {
    var entries := MapLines(NonBlankLines(SplitLines(content)), ClassifyLine);
    ParsedLog(WithTimestamps(entries), Collect(ElevatedRawLines(entries), cap))
  }

  // ---------------------------------------------------------------- the parser

  /**
   * `parse_log_data`: the lines classified one by one, then the timestamp
   * column converted.
   */
  method ParseLogData(logContent: string, maxLinesForLlm: int) returns (parsed: ParsedLog)
    ensures parsed == ParsedLogOf(logContent, maxLinesForLlm)
  {
    var logLines := SplitLines(logContent);
    ClassifyKeepsRawLine();
    var parsedEntries, rawErrorWarningLines := ScanLines(logLines, maxLinesForLlm, ClassifyLine);
    var logs := BuildTable(parsedEntries);
    parsed := ParsedLog(logs, rawErrorWarningLines);
  }

  /** The table of the parsed entries, with the `timestamp` column converted from their timestamp strings. */
  method BuildTable(parsedEntries: seq<ParsedEntry>) returns (logs: seq<LogRecord>)
    ensures logs == WithTimestamps(parsedEntries)
  {
    var stamps := seq(|parsedEntries|, k requires 0 <= k < |parsedEntries| => parsedEntries[k].timestampStr);
    var column := CoerceTimestamps(stamps, MillisCell, SecondsCell);
    logs := seq(|parsedEntries|, k requires 0 <= k < |parsedEntries| => LogRecord(parsedEntries[k], column[k]));
  }

  /**
   * The loop of `parse_log_data` over the lines, for a line classifier that
   * keeps the raw line: every non-blank line is stripped and classified, and
   * the elevated ones are kept while fewer than `maxLinesForLlm` have been.
   */
  method ScanLines(logLines: seq<string>, maxLinesForLlm: int, classify: string -> ParsedEntry)
    returns (parsedEntries: seq<ParsedEntry>, rawErrorWarningLines: seq<string>)
    requires forall line :: classify(line).rawLine == line
    ensures parsedEntries == MapLines(NonBlankLines(logLines), classify)
    ensures rawErrorWarningLines == Collect(ElevatedRawLines(parsedEntries), maxLinesForLlm)
  {
    parsedEntries := [];
    rawErrorWarningLines := [];
    var i := 0;
    while i < |logLines|
      invariant 0 <= i <= |logLines|
      invariant parsedEntries == MapLines(NonBlankLines(logLines[..i]), classify)
      invariant rawErrorWarningLines == Collect(ElevatedRawLines(parsedEntries), maxLinesForLlm)
    {
      LoopStep(logLines, i, maxLinesForLlm, classify);
      var line := Strip(logLines[i]);
      if line != [] {
        var entry := classify(line);
        parsedEntries := parsedEntries + [entry];
        if IsElevated(entry.level) {
          if |rawErrorWarningLines| < maxLinesForLlm {
            rawErrorWarningLines := rawErrorWarningLines + [line];
          }
        }
      }
      i := i + 1;
    }
    assert logLines[..i] == logLines;
  }

  /**
   * The `timestamp` column: converted in place with the first format, then
   * its missing cells filled from the second. When no row has a timestamp
   * string the column stays missing throughout, and the fill runs only when
   * the first pass left a cell missing. Each conversion turns a missing string
   * into a missing time.
   */
  method CoerceTimestamps(stamps: seq<Option<string>>,
                          first: Option<string> -> Option<DateTime>,
                          second: Option<string> -> Option<DateTime>)
    returns (column: seq<Option<DateTime>>)
    requires first(None) == None && second(None) == None
    ensures |column| == |stamps|
    ensures forall k :: 0 <= k < |stamps| ==>
      column[k] == if first(stamps[k]).Some? then first(stamps[k]) else second(stamps[k])
  {
    var timestamp := new Option<DateTime>[|stamps|](_ => None);
    if exists j :: 0 <= j < |stamps| && stamps[j].Some? {
      var k := 0;
      while k < timestamp.Length
        invariant 0 <= k <= timestamp.Length
        invariant forall j :: 0 <= j < k ==> timestamp[j] == first(stamps[j])
      {
        timestamp[k] := first(stamps[k]);
        k := k + 1;
      }
      if exists j :: 0 <= j < timestamp.Length && timestamp[j].None? {
        k := 0;
        while k < timestamp.Length
          invariant 0 <= k <= timestamp.Length
          invariant forall j :: 0 <= j < k ==>
            timestamp[j] == if first(stamps[j]).Some? then first(stamps[j]) else second(stamps[j])
          invariant forall j :: k <= j < timestamp.Length ==> timestamp[j] == first(stamps[j])
        {
          if timestamp[k].None? {
            timestamp[k] := second(stamps[k]);
          }
          k := k + 1;
        }
      }
    }
    column := timestamp[..];
  }

  // ---------------------------------------------------------------- the outcome

  const NoFindingsMessage: string := "No significant errors or warnings found in the provided log file."
  const NoUploadMessage: string := "Please upload a log file to get started."

  /** The summary text, the success flag, the error message and the table of `process_logs_and_summarize`. */
  datatype Outcome = Outcome(summaryText: string, success: bool, errorMessage: Option<string>, logs: Option<seq<LogRecord>>)

  /**
   * After parsing: with no elevated lines the summariser is skipped and the run
   * succeeds; otherwise an empty summary, or one starting with "ERROR:", is a
   * failure carrying that text, and any other summary is the result.
   */
  function Decide(parsed: ParsedLog, summarize: string -> string): (r: Outcome)
    ensures r.logs == Some(parsed.logs)
    ensures parsed.errorWarningRawLines == [] ==> r == Outcome(NoFindingsMessage, true, None, Some(parsed.logs))
    ensures parsed.errorWarningRawLines != [] ==>
      var summary := summarize(JoinLines(parsed.errorWarningRawLines));
      && (r.success <==> summary != [] && !StartsWith(summary, "ERROR:"))
      && (r.success ==> r.summaryText == summary && r.errorMessage.None?)
      && (!r.success ==> r.summaryText == [] && r.errorMessage == Some(summary))
  {
    var logsForLlm := JoinLines(parsed.errorWarningRawLines);
    if logsForLlm == [] && parsed.errorWarningRawLines == [] then
      Outcome(NoFindingsMessage, true, None, Some(parsed.logs))
    else
      var summaryText := summarize(logsForLlm);
      if summaryText == [] || StartsWith(summaryText, "ERROR:") then
        Outcome("", false, Some(summaryText), Some(parsed.logs))
      else
        Outcome(summaryText, true, None, Some(parsed.logs))
  }

  /**
   * `process_logs_and_summarize` up to the download link: `upload` is the
   * decoded file content, absent when no file was given.
   */
  method ProcessLogsAndSummarize(upload: Option<string>, summarize: string -> string) returns (r: Outcome)
    ensures upload.None? ==> r == Outcome("", false, Some(NoUploadMessage), None)
    ensures upload.Some? ==> r == Decide(ParsedLogOf(upload.value, MaxLinesForLlm), summarize)
  {
    if upload.None? {
      return Outcome("", false, Some(NoUploadMessage), None);
    }
    var parsed := ParseLogData(upload.value, MaxLinesForLlm);
    r := Decide(parsed, summarize);
  }

  // ---------------------------------------------------------------- lemmas

  lemma ClassifyKeepsRawLine()
    ensures forall line :: ClassifyLine(line).rawLine == line
  {
  }

  /** Turn `i` of the loop of `parse_log_data`, on the specification, for a classifier that keeps the raw line. */
  lemma LoopStep(lines: seq<string>, i: nat, cap: int, classify: string -> ParsedEntry)
    requires i < |lines|
    requires classify(Strip(lines[i])).rawLine == Strip(lines[i])
    ensures
      var entries := MapLines(NonBlankLines(lines[..i]), classify);
      var raw := Collect(ElevatedRawLines(entries), cap);
      var line := Strip(lines[i]);
      var entries' := MapLines(NonBlankLines(lines[..i + 1]), classify);
      && entries' == (if line == [] then entries else entries + [classify(line)])
      && Collect(ElevatedRawLines(entries'), cap)
         == if line != [] && IsElevated(classify(line).level) && |raw| < cap then raw + [line] else raw
  {
    var done := lines[..i];
    var next := lines[i];
    assert lines[..i + 1] == done + [next];
    var line := Strip(next);
    NonBlankLinesSnoc(done, next);
    if line != [] {
      var entries := MapLines(NonBlankLines(done), classify);
      var entry := classify(line);
      MapLinesSnoc(NonBlankLines(done), line, classify);
      ElevatedRawLinesSnoc(entries, entry);
      if IsElevated(entry.level) {
        assert ElevatedRawLines(entries + [entry]) == ElevatedRawLines(entries) + [line];
        CollectSnoc(ElevatedRawLines(entries), line, cap);
      } else {
        assert ElevatedRawLines(entries + [entry]) == ElevatedRawLines(entries) + [];
        assert ElevatedRawLines(entries) + [] == ElevatedRawLines(entries);
      }
    } else {
      assert NonBlankLines(done + [next]) == NonBlankLines(done);
    }
  }

  lemma {:induction false} NonBlankLinesSnoc(lines: seq<string>, line: string)
    ensures NonBlankLines(lines + [line])
      == NonBlankLines(lines) + KeptLine(line)
  {
    if lines == [] {
      assert [line][1..] == [];
    } else {
      assert (lines + [line])[1..] == lines[1..] + [line];
      NonBlankLinesSnoc(lines[1..], line);
    }
  }

  lemma {:induction false} MapLinesSnoc<T>(lines: seq<string>, line: string, f: string -> T)
    ensures MapLines(lines + [line], f) == MapLines(lines, f) + [f(line)]
  {
    if lines == [] {
      assert [line][1..] == [];
    } else {
      assert (lines + [line])[1..] == lines[1..] + [line];
      MapLinesSnoc(lines[1..], line, f);
    }
  }

  lemma {:induction false} ElevatedRawLinesSnoc(entries: seq<ParsedEntry>, e: ParsedEntry)
    ensures ElevatedRawLines(entries + [e])
      == ElevatedRawLines(entries) + (if IsElevated(e.level) then [e.rawLine] else [])
  {
    if entries == [] {
      assert [e][1..] == [];
    } else {
      assert (entries + [e])[1..] == entries[1..] + [e];
      ElevatedRawLinesSnoc(entries[1..], e);
    }
  }

  lemma CollectSnoc(xs: seq<string>, x: string, cap: int)
    ensures Collect(xs + [x], cap) == if |Collect(xs, cap)| < cap then Collect(xs, cap) + [x] else Collect(xs, cap)
  {
    assert (xs + [x])[..|xs|] == xs;
  }

  lemma {:induction false} MapLinesIndex<T>(lines: seq<string>, f: string -> T)
    ensures |MapLines(lines, f)| == |lines|
    ensures forall k :: 0 <= k < |lines| ==> MapLines(lines, f)[k] == f(lines[k])
  {
    if lines != [] {
      MapLinesIndex(lines[1..], f);
      forall k | 1 <= k < |lines|
        ensures MapLines(lines, f)[k] == f(lines[k])
      {
        assert MapLines(lines, f)[k] == MapLines(lines[1..], f)[k - 1];
        assert lines[1..][k - 1] == lines[k];
      }
    }
  }

  /** Stripping and dropping blank lines works line by line, so it keeps the input order. */
  lemma {:induction false} NonBlankLinesConcat(a: seq<string>, b: seq<string>)
    ensures NonBlankLines(a + b) == NonBlankLines(a) + NonBlankLines(b)
  {
    if a == [] {
      assert a + b == b;
    } else {
      assert (a + b)[1..] == a[1..] + b;
      NonBlankLinesConcat(a[1..], b);
    }
  }

  /** A whitespace-only line contributes no entry wherever it stands. */
  lemma BlankLineIgnored(a: seq<string>, blank: string, b: seq<string>)
    requires AllSpace(blank)
    ensures NonBlankLines(a + [blank] + b) == NonBlankLines(a + b)
  {
    StripEmptyIffAllSpace(blank);
    NonBlankLinesSnoc(a, blank);
    assert NonBlankLines(a + [blank]) == NonBlankLines(a);
    NonBlankLinesConcat(a + [blank], b);
    NonBlankLinesConcat(a, b);
  }

  /** The kept lines are exactly the non-empty results of stripping an input line, and each is stripped. */
  lemma {:induction false} NonBlankLinesIff(lines: seq<string>, x: string)
    ensures x in NonBlankLines(lines) <==> x != [] && exists j :: 0 <= j < |lines| && Strip(lines[j]) == x
    ensures x in NonBlankLines(lines) ==> IsStripped(x)
  {
    if lines != [] {
      NonBlankLinesIff(lines[1..], x);
      if exists j :: 0 <= j < |lines[1..]| && Strip(lines[1..][j]) == x {
        var j :| 0 <= j < |lines[1..]| && Strip(lines[1..][j]) == x;
        assert lines[j + 1] == lines[1..][j];
      }
      if exists j :: 1 <= j < |lines| && Strip(lines[j]) == x {
        var j :| 1 <= j < |lines| && Strip(lines[j]) == x;
        assert lines[1..][j - 1] == lines[j];
      }
    }
  }

  /** Lines that are already stripped and non-empty are kept as they are. */
  lemma {:induction false} NonBlankLinesOfStripped(lines: seq<string>)
    requires forall j :: 0 <= j < |lines| ==> lines[j] != [] && IsStripped(lines[j])
    ensures NonBlankLines(lines) == lines
  {
    if lines != [] {
      StripFixesStripped(lines[0]);
      NonBlankLinesOfStripped(lines[1..]);
    }
  }

  /** A line goes to the summariser exactly when it is the raw line of an elevated entry. */
  lemma {:induction false} ElevatedRawLinesIff(entries: seq<ParsedEntry>, x: string)
    ensures x in ElevatedRawLines(entries)
      <==> exists k :: 0 <= k < |entries| && IsElevated(entries[k].level) && entries[k].rawLine == x
  {
    if entries != [] {
      ElevatedRawLinesIff(entries[1..], x);
      if exists k :: 0 <= k < |entries[1..]| && IsElevated(entries[1..][k].level) && entries[1..][k].rawLine == x {
        var k :| 0 <= k < |entries[1..]| && IsElevated(entries[1..][k].level) && entries[1..][k].rawLine == x;
        assert entries[k + 1] == entries[1..][k];
      }
      if exists k :: 1 <= k < |entries| && IsElevated(entries[k].level) && entries[k].rawLine == x {
        var k :| 1 <= k < |entries| && IsElevated(entries[k].level) && entries[k].rawLine == x;
        assert entries[1..][k - 1] == entries[k];
      }
    }
  }

  /** The number of lines the cap lets through: all of them, at most `cap`, none for a cap below one. */
  function CappedLength(n: nat, cap: int): nat {
    if cap <= 0 then 0 else if n < cap then n else cap
  }

  /** Appending while fewer than `cap` are kept keeps the first `cap` lines, in order. */
  lemma {:induction false} CollectIsPrefix(xs: seq<string>, cap: int)
    ensures CappedLength(|xs|, cap) <= |xs|
    ensures Collect(xs, cap) == xs[..CappedLength(|xs|, cap)]
    decreases |xs|
  {
    if xs != [] {
      var init := xs[..|xs| - 1];
      CollectIsPrefix(init, cap);
      if cap > 0 && |init| < cap {
        assert init + [xs[|xs| - 1]] == xs[..|xs|];
      } else if cap > 0 {
        assert init[..cap] == xs[..cap];
      }
    }
  }

  /** A timestamp is converted only from the text the pattern captured, and it formats back to that text. */
  lemma RecordTimestamp(line: string)
    ensures
      var e := ClassifyLine(line);
      var t := ParseTimestamp(e.timestampStr);
      && (e.timestampStr.None? ==> t.None?)
      && (e.timestampStr.Some? ==> (t.Some? <==> ValidDateTime(FieldsOf(e.timestampStr.value))))
      && (t.Some? ==> FormatMillis(t.value) == e.timestampStr.value || FormatSeconds(t.value) == e.timestampStr.value)
  {
    var e := ClassifyLine(line);
    if e.timestampStr.Some? {
      var s := e.timestampStr.value;
      ParseTimestampOfShape(s);
      if ParseMillis(s).Some? {
        FormatOfParseMillis(s);
      } else if ParseSeconds(s).Some? {
        FormatOfParseSeconds(s);
      }
    }
  }

  /** One row per non-blank line, in order: the classification of the stripped line and its converted timestamp. */
  lemma ParsedLogRows(content: string, cap: int)
    ensures
      var lines := NonBlankLines(SplitLines(content));
      var p := ParsedLogOf(content, cap);
      && |p.logs| == |lines|
      && forall k :: 0 <= k < |lines| ==>
           && p.logs[k].entry == ClassifyLine(lines[k])
           && p.logs[k].entry.rawLine == lines[k]
           && p.logs[k].timestamp == ParseTimestamp(p.logs[k].entry.timestampStr)
  {
    MapLinesIndex(NonBlankLines(SplitLines(content)), ClassifyLine);
  }

  /**
   * The lines for the summariser are the first `cap` raw lines of elevated
   * rows, in order; each is a non-empty stripped input line.
   */
  lemma SummaryLines(content: string, cap: int)
    ensures
      var p := ParsedLogOf(content, cap);
      var elevated := ElevatedRawLines(MapLines(NonBlankLines(SplitLines(content)), ClassifyLine));
      && CappedLength(|elevated|, cap) <= |elevated|
      && p.errorWarningRawLines == elevated[..CappedLength(|elevated|, cap)]
      && forall x :: x in p.errorWarningRawLines ==>
           && x != [] && IsStripped(x)
           && exists k :: 0 <= k < |p.logs| && IsElevated(p.logs[k].entry.level) && p.logs[k].entry.rawLine == x
  {
    var lines := NonBlankLines(SplitLines(content));
    var entries := MapLines(lines, ClassifyLine);
    var p := ParsedLogOf(content, cap);
    var elevated := ElevatedRawLines(entries);
    CollectIsPrefix(elevated, cap);
    MapLinesIndex(lines, ClassifyLine);
    forall x | x in p.errorWarningRawLines
      ensures x != [] && IsStripped(x)
      ensures exists k :: 0 <= k < |p.logs| && IsElevated(p.logs[k].entry.level) && p.logs[k].entry.rawLine == x
    {
      assert x in elevated;
      ElevatedRawLinesIff(entries, x);
      var k :| 0 <= k < |entries| && IsElevated(entries[k].level) && entries[k].rawLine == x;
      assert p.logs[k].entry == entries[k];
      assert x == lines[k];
      NonBlankLinesIff(SplitLines(content), x);
    }
  }

  /** So the summariser's input is empty exactly when there are no lines for it. */
  lemma SummariserInputEmptyIff(content: string, cap: int)
    ensures
      var raw := ParsedLogOf(content, cap).errorWarningRawLines;
      JoinLines(raw) == [] <==> raw == []
  {
    var raw := ParsedLogOf(content, cap).errorWarningRawLines;
    SummaryLines(content, cap);
    forall j | 0 <= j < |raw|
      ensures raw[j] != []
    {
      assert raw[j] in raw;
    }
    JoinLinesEmpty(raw);
  }

  /** A log with no elevated row gets the no-findings result whatever the summariser would say. */
  lemma NoElevatedRowMeansNoFindings(content: string, summarize: string -> string)
    requires forall k :: 0 <= k < |ParsedLogOf(content, MaxLinesForLlm).logs| ==>
      !IsElevated(ParsedLogOf(content, MaxLinesForLlm).logs[k].entry.level)
    ensures Decide(ParsedLogOf(content, MaxLinesForLlm), summarize)
      == Outcome(NoFindingsMessage, true, None, Some(ParsedLogOf(content, MaxLinesForLlm).logs))
  {
    var entries := MapLines(NonBlankLines(SplitLines(content)), ClassifyLine);
    ParsedLogRows(content, MaxLinesForLlm);
    MapLinesIndex(NonBlankLines(SplitLines(content)), ClassifyLine);
    NoElevatedNoLines(entries);
  }

  lemma {:induction false} NoElevatedNoLines(entries: seq<ParsedEntry>)
    requires forall k :: 0 <= k < |entries| ==> !IsElevated(entries[k].level)
    ensures ElevatedRawLines(entries) == []
  {
    if entries != [] {
      assert forall k :: 0 <= k < |entries[1..]| ==> entries[1..][k] == entries[k + 1];
      NoElevatedNoLines(entries[1..]);
    }
  }

  /** Run on no text at all, the parser returns an empty table and no lines. */
  lemma EmptyContent(cap: int)
    ensures ParsedLogOf("", cap) == ParsedLog([], [])
  {
    assert SplitLines("") == [];
  }
}
