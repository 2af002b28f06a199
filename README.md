# Log analyzer: parsing and outcome, modelled in Dafny

The log analyzer reads an uploaded log file and parses it line by line. It
sends the error and warning lines to a language model for a summary. This
project models the part of `features.py` that does the work:

- `parse_log_data` applies these steps:
  1. It splits the text into lines and strips each line, dropping the blank ones.
  2. It matches each line against an anchored pattern: an optional timestamp,
     an optional `[LEVEL]` or `LEVEL`, and the rest as the message.
  3. It re-derives an empty message.
  4. It applies the keyword override: `ERROR` or `WARN` anywhere in the
     upper-cased line forces that level.
  5. It builds one row per line and converts the timestamp column, first with
     the millisecond format and then with the seconds format.
  6. It collects at most `max_lines_for_llm` raw lines whose level is ERROR,
     WARN, WARNING, CRITICAL or FATAL.
- `process_logs_and_summarize` decides the outcome:
  - with no upload, a prompt to upload a file;
  - with no elevated lines, the "no significant errors" success, without calling the summariser;
  - a failure when the summary is empty or starts with `ERROR:`;
  - otherwise, success with the summary.

## Files

| file | module | contents |
|---|---|---|
| `wrappers.dfy` | `Wrappers` | `Option` |
| `text.dfy` | `Text` | the string operations the parser uses, on ASCII: `strip`, `upper`, `in`, `splitlines`, `"\n".join` |
| `severity.dfy` | `Severity` | the seven level names and the keyword override |
| `timestamps.dfy` | `Timestamps` | the captured timestamp shapes, the two conversions and their inverses (formatting) |
| `line_classifier.dfy` | `LineClassifier` | the pattern as a total function (`Tokenize`) and the per-line step, `ClassifyLine` |
| `features.dfy` | `Features` | `ParseLogData` (the loops), its specification `ParsedLogOf`, and the outcome (`Decide`, `ProcessLogsAndSummarize`) |

## How each part is modelled

- **The loop over the lines** is the method `Features.ScanLines`. It builds
  the entries and the collected lines one turn at a time. It is proved against
  the functional specification `MapLines(NonBlankLines(lines), classify)` and
  `Collect(ElevatedRawLines(entries), cap)`. `Collect` appends a line only
  while fewer than `cap` have been kept, as the source does. Lemmas then show
  what that specification means:
  - `CollectIsPrefix`: the first `cap` elevated lines, in order.
  - `NonBlankLinesIff`: exactly the non-empty stripped lines.
  - `BlankLineIgnored`: blank lines contribute nothing, wherever they stand.
  - `ElevatedRawLinesIff`: a line is collected exactly when its row is elevated.
- **The timestamp column** is the method `Features.CoerceTimestamps`. It
  works in place on an `array`:
  - a first pass converts every cell;
  - a fill pass runs only when some cell is still missing;
  - nothing at all happens when no row has a timestamp string, as in the
    `isnull().all()` branch.

  Its contract says each cell is the millisecond conversion if that succeeds,
  else the seconds conversion. Each conversion parses the fixed-width shape
  the pattern captured. It succeeds exactly when the fields form a valid
  date-time within the range of a nanosecond timestamp. The conversions are
  proved inverse to formatting: `ParseMillisOfFormat` and
  `FormatOfParseMillis`, and the same pair for seconds.
- **The pattern** becomes the function `LineClassifier.Tokenize`. Every part
  of the pattern is optional and the message is `.*`, so the match always
  succeeds. Each optional part is taken whenever it can be. Each `\s*` takes
  all the whitespace there is. The alternation `INFO|WARN|WARNING|…` picks the
  first name that matches, in that order, with no word boundary:
  - `LevelTokenNeverWarning`: "WARNING" is read as WARN followed by "ING".
  - `InformationLineSplits`: "INFORMATION" is read as INFO followed by "RMATION".
- **Types:**
  - Levels are a datatype.
  - Strings are `seq<char>`.
  - The table (a DataFrame in the source) is a sequence of `LogRecord` rows.
  - The summariser `generate_log_summary` is a function parameter
    `summarize: string -> string`.
  - The uploaded file is its decoded text; `None` means no file.

### Where the code differs from its own comments

The model follows the code in each case:

- **The message can be empty.** The comment at `features.py:47` says "Default
  message is the whole line". But a line that matches only a level, such as
  `ERROR`, gets the message group `""`. That is not the whole line
  (`MessageIsRemainder`).
- **The first re-derivation is overwritten.** The assignment at
  `features.py:60` always runs inside the condition that also holds at line
  61, so line 62 replaces it. The re-derived message is then the stripped text
  after the level name. In a stripped line that text is `"]"` when a bracket
  closed the name, and `""` otherwise (`RederivedMessageIsBracketOrEmpty`).
- **The override can also downgrade.** The comment says lines "with ERROR or
  WARN are caught". But the WARN test also fires for levels ERROR, CRITICAL and
  FATAL, so such a line that mentions WARN becomes WARN (`CriticalKeptIffNoWarn`).
  Applying the override twice changes the result exactly when the line
  mentions both keywords (`OverrideIdempotentIff`).
- **The level is never WARNING.** WARNING is listed among the collected levels
  at `features.py:82`, but no line ever gets it (`ClassifiedNeverWarning`).

## Model

| member | source | states |
|---|---|---|
| `Features.ParseLogData` | features.py:12-103 | The result is exactly `ParsedLogOf(content, cap)`: one row per non-blank stripped line, classified and with its timestamp converted, plus the capped list of elevated raw lines. |
| `Features.ScanLines` | features.py:38-84 | After the loop, the entries are the classifier applied to each stripped non-blank line in order. The collected lines are the elevated entries' raw lines, each appended only while fewer than the cap are held. |
| `Features.LoopStep` | features.py:38-84 | One turn of the loop extends the specification's entries and collected lines exactly as the loop body extends its lists. |
| `Features.BuildTable` | features.py:86-98 | Row `k` of the table holds entry `k` and the conversion of its timestamp string. |
| `Features.CoerceTimestamps` | features.py:89-98 | The column has one cell per row. Each cell is the first conversion of its string if that succeeds, else the second, and missing when there is no string. This holds on every branch of the `isnull` tests. |
| `Features.Decide` | features.py:133-144 | The table is always returned. With no lines for the summariser the result is the no-findings success. Otherwise the run succeeds exactly when the summary is non-empty and does not start with `ERROR:`. A success carries the summary; a failure carries `""` and the summary as its error message. |
| `Features.ProcessLogsAndSummarize` | features.py:125-144 | No upload gives the upload prompt, with failure and no table. An upload gives the decision on `parse_log_data` of its text with cap 200. |
| `Features.ClassifyKeepsRawLine` | features.py:73-78 | Every entry's `raw_line` is the line it was classified from. |
| `Features.NonBlankLinesSnoc` | features.py:38-41 | One more input line adds its stripped text, or nothing when it is blank. |
| `Features.MapLinesSnoc` | features.py:73-79 | One more kept line adds one entry, at the end. |
| `Features.ElevatedRawLinesSnoc` | features.py:82-84 | One more entry adds its raw line to the candidates exactly when its level is elevated. |
| `Features.CollectSnoc` | features.py:83-84 | One more candidate is appended exactly when fewer than the cap are held. |
| `Features.MapLinesIndex` | features.py:73-79 | There are as many entries as kept lines, and entry `k` is the classification of line `k`. |
| `Features.NonBlankLinesConcat` | features.py:38-41 | Filtering works line by line: the kept lines of a concatenation are the concatenation of the kept lines. |
| `Features.BlankLineIgnored` | features.py:39-41 | Inserting a whitespace-only line anywhere does not change the kept lines. |
| `Features.NonBlankLinesIff` | features.py:38-41 | A string is kept exactly when it is non-empty and the strip of some input line. Every kept line is stripped. |
| `Features.NonBlankLinesOfStripped` | features.py:39-41 | Lines that are already stripped and non-empty are kept unchanged. |
| `Features.ElevatedRawLinesIff` | features.py:82-84 | A line is a candidate for the summariser exactly when it is the raw line of an entry whose level is elevated. |
| `Features.CollectIsPrefix` | features.py:82-84 | The collected lines are the first `min(n, cap)` candidates in order, and none when the cap is below one. |
| `Features.RecordTimestamp` | features.py:89-96 | A row without a timestamp string has no time. A row with one has a time exactly when its fields form a valid date-time, and that time formats back, in one of the two formats, to the captured text. |
| `Features.ParsedLogRows` | features.py:73-98 | The table has one row per non-blank line, in order. Each row's entry is the classification of the stripped line, its raw line is that line, and its time is the conversion of its timestamp string. |
| `Features.SummaryLines` | features.py:82-102 | The lines for the summariser are the first `cap` elevated raw lines in order. Each is non-empty, stripped, and the raw line of an elevated row of the table. |
| `Features.SummariserInputEmptyIff` | features.py:135-139 | The joined summariser input is empty exactly when there are no collected lines, so the two tests at line 138 agree. |
| `Features.NoElevatedRowMeansNoFindings` | features.py:133-139 | When no row of the table is elevated, the outcome is the no-findings success whatever the summariser would answer. |
| `Features.NoElevatedNoLines` | features.py:82-84 | Entries none of which is elevated give no candidate lines. |
| `Features.EmptyContent` | features.py:26-103 | Empty text gives an empty table and no lines. |
| `LineClassifier.MatchTimestamp` | features.py:33 | A captured timestamp is a prefix of the line and has the millisecond or the seconds shape. The fraction is taken whenever it is there. Nothing is captured only when the line does not start with the seconds shape. |
| `LineClassifier.LevelToken` | features.py:34 | The level chosen is a name the text starts with, and no name earlier in the alternation matches. Nothing is chosen only when no name matches. |
| `LineClassifier.LevelSpanAt` | features.py:34 | The level group is the name followed by an optional `]`, which is consumed only when present. |
| `LineClassifier.MatchLevel` | features.py:34 | The level group: a `[` is consumed only when a name follows it. Without a name the group is empty, and no bare or bracketed name starts there. |
| `LineClassifier.TokenizeMatches` | features.py:32-36 | The match in order: the timestamp, a whitespace run up to a non-space, the level group, another whitespace run, and the message from the next non-space character. |
| `LineClassifier.ClassifyLine` | features.py:43-79 | An entry keeps its line as the raw line and the captured timestamp text as its timestamp string. |
| `LineClassifier.LevelTokenOfName` | features.py:34 | Any name but WARNING, followed by any text, is read as itself. |
| `LineClassifier.LevelTokenNeverWarning` | features.py:34 | The alternation never yields WARNING, because WARN is tried first. |
| `LineClassifier.ClassifiedNeverWarning` | features.py:55-70 | No entry ever gets the level WARNING. |
| `LineClassifier.NoTimestampWithoutDigit` | features.py:33 | A line that does not start with a digit has no timestamp. |
| `LineClassifier.WarningLineSplits` | features.py:34-35 | A line starting with WARNING matches the level name WARN. Its message group starts with "ING", and its message is the strip of the text after "WARN". |
| `LineClassifier.InformationLineSplits` | features.py:34-35 | A line starting with INFORMATION matches the level name INFO. Its message group starts with "RMATION", and its message is the strip of the text after "INFO". |
| `LineClassifier.DefaultLevelIsInfo` | features.py:46-70 | Without a level name and without either keyword the level is INFO. |
| `LineClassifier.MessageIsRemainder` | features.py:53 | Unless the re-derivation applies, the message of a stripped line is the message group as matched. |
| `LineClassifier.GroupReachesEnd` | features.py:59 | When the message group of a stripped line is blank, the level group runs to the end of the line. |
| `LineClassifier.RederivedMessageIsBracketOrEmpty` | features.py:59-62 | With a timestamp, a level and a blank message group, the message is `"]"` when a bracket closed the name and `""` otherwise. |
| `LineClassifier.TokenizeAssembledLine` | features.py:32-36 | A line assembled from an optional timestamp, a level name other than WARNING (bare or bracketed) and a message starting with a non-space, separated by single spaces, matches those parts. |
| `LineClassifier.ClassifyAssembledLine` | features.py:43-79 | Such a line with a stripped message classifies to its timestamp, the override of its level, its message and itself. |
| `LineClassifier.ExampleTimestampedError` | features.py:43-79 | The line `2024-06-25 10:00:22,333 ERROR Database connection failed` gives that timestamp text, ERROR and the message `Database connection failed`. |
| `LineClassifier.ExampleWarnWithoutTimestamp` | features.py:43-79 | `WARN High CPU usage` gives no timestamp, WARN and the message `High CPU usage`. |
| `LineClassifier.ExamplePlainLine` | features.py:43-79 | `Server health check passed.` gives no timestamp, INFO and the whole line as message. |
| `Severity.OverrideRules` | features.py:67-70 | The override as rules: ERROR when the line mentions ERROR and the level is not ERROR, CRITICAL or FATAL. Otherwise WARN when it mentions WARN and the level is not WARN or WARNING. Otherwise the level is unchanged. |
| `Severity.WarningKeywordImpliesWarn` | features.py:69 | A line mentioning WARNING mentions WARN, so the second test of line 69 never decides anything. |
| `Severity.NoKeywordKeepsLevel` | features.py:67-70 | Without either keyword the level is kept. |
| `Severity.OverrideElevatedIff` | features.py:67-82 | A line ends up elevated exactly when its matched level was elevated or it mentions ERROR or WARN. |
| `Severity.CriticalKeptIffNoWarn` | features.py:67-70 | CRITICAL and FATAL are kept exactly when the line does not mention WARN, and otherwise become WARN. |
| `Severity.OverrideIdempotentIff` | features.py:67-70 | Applying the override twice gives the same level exactly when the line does not mention both keywords. |
| `Severity.NameIsUpperCase` | features.py:56 | Upper-casing a matched name returns the name itself. |
| `Severity.NoKeywordWithoutLetter` | features.py:67-69 | A keyword cannot be found in the upper-cased line when one of its letters is absent from the line in both cases. |
| `Severity.NoWarnKeywordWithoutW` | features.py:69 | A line without `W` or `w` does not mention WARN. |
| `Severity.NoErrorKeywordWithoutO` | features.py:67 | A line without `O` or `o` does not mention ERROR. |
| `Timestamps.ParseTimestampOfShape` | features.py:89-96 | On either captured shape, the conversion succeeds exactly when the fields form a valid date-time, and it yields those fields. |
| `Timestamps.ParseMillisOfFormat` | features.py:91 | Formatting a valid date-time in the seconds format, then a comma and the three millisecond digits, and parsing that with the millisecond conversion gives it back. |
| `Timestamps.FormatOfParseMillis` | features.py:91 | A string the millisecond format accepts is the formatting of the date-time it yields. |
| `Timestamps.ParseSecondsOfFormat` | features.py:95 | A valid date-time with no milliseconds survives formatting and the seconds format. |
| `Timestamps.FormatOfParseSeconds` | features.py:95 | A string the seconds format accepts is the formatting of the date-time it yields. |
| `Timestamps.FormatSecondsReadsBack` | features.py:95 | Formatting writes the seconds shape, and its fields read back as the date-time. |
| `Timestamps.DecimalRoundTrip` | features.py:91 | A number below `10^w`, written in `w` zero-padded digits, reads back as itself. |
| `Timestamps.DecimalValueRoundTrip` | features.py:91 | A digit string denotes a number below `10^w`, which written back in `w` digits is the string. |
| `Timestamps.ExampleTimestamp` | features.py:91 | `2024-06-25 10:00:22,333` converts to 25 June 2024, 10:00:22.333. |
| `Text.Strip` | features.py:39 | The stripped line starts and ends with a non-space. |
| `Text.StripRemovesOnlySpace` | features.py:39 | Stripping removes only whitespace, and only from the two ends. |
| `Text.StripFixesStripped` | features.py:39 | Stripping leaves a string unchanged exactly when its ends are not whitespace. |
| `Text.StripEmptyIffAllSpace` | features.py:40 | A line strips to nothing exactly when it is all whitespace. |
| `Text.SpaceSuffixOfStripped` | features.py:53 | In a stripped string only the empty suffix is all whitespace. |
| `Text.SkipSpaces` | features.py:33-34 | `\s*` stops at the first non-space at or after its start, having passed only whitespace. |
| `Text.ContainsIff` | features.py:67-69 | `p in s` holds exactly when `p` occurs at some position of `s`. |
| `Text.ContainsFromIff` | features.py:67-69 | Searching from position `i` finds `p` exactly when it occurs at `i` or later. |
| `Text.ContainsPrefixOfPattern` | features.py:69 | A string that contains `p + q` contains `p`. |
| `Text.UpperOfUpperCase` | features.py:56 | Upper-casing changes nothing in a string without lower-case letters. |
| `Text.SplitLines` | features.py:26 | No piece of `splitlines` contains `\n` or `\r`. |
| `Text.SplitTerminated` | features.py:26 | Lines without breaks, each followed by `\n`, `\r` or `\r\n` (a non-empty last line possibly by nothing, and no lone `\r` before an empty `\n`-ended line), split back into exactly those lines, and `LineEndings` gives back the endings. |
| `Text.TerminatedOfSplit` | features.py:26 | Every text is its `splitlines` pieces written back with the breaks `LineEndings` records, and those pieces and breaks are well ended; with `SplitTerminated`, the pieces are the only such decomposition. |
| `Text.SplitLinesExamples` | features.py:26 | `"a\rbc"` splits into `"a"` and `"bc"`, `"a\r\nb\n"` into `"a"` and `"b"`, and `"a\n\r\nb"` into `"a"`, `""` and `"b"`. |
| `Text.JoinLinesEmpty` | features.py:135 | When no line is empty, `"\n".join` is empty exactly when there are no lines. |

## Left out

- **The download link and output formats.** Base64 encoding and the
  markdown-to-HTML page (`features.py:146-186`) produce text for the browser
  only. The `Outcome` datatype therefore has no download-link field, and the
  unsupported-format failure at line 186 is not modelled.
- **Reading and decoding the upload, and the exception handlers**
  (`features.py:130-131`, `190-193`). `ProcessLogsAndSummarize` takes the
  already-decoded text, so a decoding failure and the unexpected-error path do
  not occur in the model.
- **The summariser** `generate_log_summary` (`ai_logic.py`) calls a remote
  model. It is the parameter `summarize`, about which nothing is assumed.
- **The DataFrame library.** The table is a sequence of rows. Column
  existence and dtypes are not modelled; the no-`timestamp_str`-column case
  of an empty frame gives an empty column, like the all-missing branch.
- **Unicode and the rarer ASCII separators.** Whitespace is the ASCII set
  ` \t\n\r\v\f`, and `upper()` changes ASCII letters only. Python's `\s`
  and `strip()` also take `\x1c` to `\x1f`, `\x85` and the other Unicode
  spaces, and `upper()` also changes non-ASCII letters.
- `Text.SplitLines`: breaks only at `\n`, `\r\n` and `\r`. Python's
  `splitlines` also breaks at the ASCII characters `\v`, `\f` and `\x1c` to
  `\x1e`, and at `\x85`, `\u2028` and `\u2029`. The model keeps `\v` and `\f`
  inside a line as whitespace, so `"a\fb"` is one line here and two in the
  source.
- `Timestamps.IsDigit`: accepts the ASCII digits only, while `\d` in the
  pattern also matches other Unicode decimal digits. The source captures a
  timestamp written with such digits; the model reads no timestamp on that
  line.
- **The flexible widths of the conversion formats.** The timestamp strings
  only ever have the fixed-width shapes the pattern captures, so the
  conversions are modelled on those shapes alone.
- **Operations outside the core.** `styling.py`, `main.py` and the rest of
  `ai_logic.py` (page layout, widgets, prompts) are not part of this model.
- `Features.ScanLines`: takes the per-line classifier as a parameter that
  keeps the raw line. `ParseLogData` passes `ClassifyLine`, so its own
  contract is unaffected.
- `Features.CoerceTimestamps`: takes the two conversions as parameters that
  map a missing string to a missing time. `BuildTable` passes the millisecond
  and seconds conversions, which do.
