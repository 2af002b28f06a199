/**
 * The per-line step of `parse_log_data`: the anchored pattern
 *   (timestamp)? \s* ( \[? (INFO|WARN|WARNING|ERROR|DEBUG|CRITICAL|FATAL) \]? )? \s* (message .*)
 * as a total function, the re-derivation of an empty message, and the
 * keyword override, giving one parsed entry per stripped line.
 */
module LineClassifier {
  import opened Wrappers
  import opened Text
  import opened Severity
  import opened Timestamps

  /** Group `timestamp_str`: the optional `,\d{3}` is taken whenever it is there. */
  function MatchTimestamp(line: string): (ts: Option<string>)
    ensures ts.Some? ==> StartsWith(line, ts.value) && (IsMillisShaped(ts.value) || IsSecondsShaped(ts.value))
    ensures ts.None? ==> !(|line| >= 19 && IsSecondsShaped(line[..19]))
    ensures |line| >= 23 && IsMillisShaped(line[..23]) ==> ts == Some(line[..23])
  {
    if |line| >= 23 && IsMillisShaped(line[..23]) then Some(line[..23])
    else if |line| >= 19 && IsSecondsShaped(line[..19]) then Some(line[..19])
    else None
  }

  /** The position of each name in the pattern's alternation. */
  function Rank(l: Level): nat {
    match l
    case INFO => 0
    case WARN => 1
    case WARNING => 2
    case ERROR => 3
    case DEBUG => 4
    case CRITICAL => 5
    case FATAL => 6
  }

  /**
   * The alternation `INFO|WARN|WARNING|ERROR|DEBUG|CRITICAL|FATAL`: the first
   * name, in that order, that begins `s`. There is no word boundary after it.
   */
  function LevelToken(s: string): (r: Option<Level>)
    ensures r.Some? ==> StartsWith(s, Name(r.value))
    ensures r.Some? ==> forall k :: Rank(k) < Rank(r.value) ==> !StartsWith(s, Name(k))
    ensures r.None? ==> forall k :: !StartsWith(s, Name(k))
  {
    if StartsWith(s, "INFO") then Some(INFO)
    else if StartsWith(s, "WARN") then Some(WARN)
    else if StartsWith(s, "WARNING") then Some(WARNING)
    else if StartsWith(s, "ERROR") then Some(ERROR)
    else if StartsWith(s, "DEBUG") then Some(DEBUG)
    else if StartsWith(s, "CRITICAL") then Some(CRITICAL)
    else if StartsWith(s, "FATAL") then Some(FATAL)
    else None
  }

  /**
   * The spans of the optional level group: `groupStart..groupEnd` with its
   * brackets, `levelStart..levelEnd` the group `level` itself. Without a level
   * all positions coincide.
   */
  datatype LevelSpan = LevelSpan(level: Option<Level>, groupStart: nat, levelStart: nat, levelEnd: nat, groupEnd: nat)

  /** No level group, bracketed or bare, can start at position `p`. */
  predicate NoLevelGroupAt(line: string, p: nat)
    requires p <= |line|
  {
    LevelToken(line[p..]).None? && !(p < |line| && line[p] == '[' && LevelToken(line[p + 1..]).Some?)
  }

  /** Every name begins with a letter, so none begins at a `[`. */
  lemma NoNameAtBracket(s: string)
    requires s != [] && s[0] == '['
    ensures LevelToken(s).None?
  {
  }

  /** The name and the optional `]` after it, for a level group starting at `p` whose name starts at `start`. */
  function LevelSpanAt(line: string, p: nat, start: nat): (g: LevelSpan)
    requires p <= start <= |line|
    ensures g.groupStart == p && g.levelStart == start && g.level == LevelToken(line[start..])
    ensures start <= g.levelEnd <= g.groupEnd <= |line|
    ensures g.level.None? ==> g.levelEnd == g.groupEnd == start
    ensures g.level.Some? ==> line[start..g.levelEnd] == Name(g.level.value)
    ensures g.level.Some? ==>
      if g.levelEnd < |line| && line[g.levelEnd] == ']' then g.groupEnd == g.levelEnd + 1 else g.groupEnd == g.levelEnd
  {
    var level := LevelToken(line[start..]);
    if level.None? then
      LevelSpan(None, p, start, start, start)
    else
      var end := start + |Name(level.value)|;
      assert line[start..end] == line[start..][..|Name(level.value)|];
      var groupEnd := if end < |line| && line[end] == ']' then end + 1 else end;
      LevelSpan(level, p, start, end, groupEnd)
  }

  /** `(?:\[?(?P<level>...)\]?)?` at position `p`; each bracket is optional on its own. */
  function MatchLevel(line: string, p: nat): (g: LevelSpan)
    requires p <= |line|
    ensures g.groupStart == p <= g.levelStart <= g.levelEnd <= g.groupEnd <= |line|
    ensures g.level.None? ==> NoLevelGroupAt(line, p) && g.levelStart == g.levelEnd == g.groupEnd == p
    ensures g.level.Some? ==> LevelToken(line[g.levelStart..]) == g.level
    ensures g.level.Some? ==> line[g.levelStart..g.levelEnd] == Name(g.level.value)
    ensures g.level.Some? ==>
      if p < |line| && line[p] == '[' then g.levelStart == p + 1 else g.levelStart == p
    ensures g.level.Some? ==>
      if g.levelEnd < |line| && line[g.levelEnd] == ']' then g.groupEnd == g.levelEnd + 1 else g.groupEnd == g.levelEnd
  {
    if p < |line| && line[p] == '[' && LevelToken(line[p + 1..]).Some? then
      LevelSpanAt(line, p, p + 1)
    else if p < |line| && line[p] == '[' then
      NoNameAtBracket(line[p..]);
      LevelSpanAt(line, p, p)
    else
      LevelSpanAt(line, p, p)
  }

  /**
   * The groups of one match: the timestamp, the level span, and the group
   * `message`, which runs from `messageStart` to the end of the line.
   */
  datatype LineMatch = LineMatch(timestamp: Option<string>, span: LevelSpan, messageStart: nat) {
    function level(): Option<Level> { span.level }
    function levelEnd(): nat { span.levelEnd }
  }

  function TimestampEnd(m: LineMatch): nat {
    if m.timestamp.Some? then |m.timestamp.value| else 0
  }

  /**
   * `log_pattern.match(line)`. Every part of the pattern is optional and the
   * message is `.*`, so the match always succeeds; each optional part is taken
   * whenever it can be, and each `\s*` takes all the whitespace there is.
   */
  function Tokenize(line: string): (m: LineMatch)
    ensures m.timestamp == MatchTimestamp(line)
    ensures m.span.levelEnd <= m.span.groupEnd <= m.messageStart <= |line|
  {
    var ts := MatchTimestamp(line);
    var p := SkipSpaces(line, if ts.Some? then |ts.value| else 0);
    var g := MatchLevel(line, p);
    LineMatch(ts, g, SkipSpaces(line, g.groupEnd))
  }

  /**
   * The groups of the match: the timestamp, then the whitespace run, the level
   * group from the first non-space character, the next whitespace run, and the
   * message from the next non-space character to the end.
   */
  lemma TokenizeMatches(line: string)
    ensures var m := Tokenize(line);
      && m.timestamp == MatchTimestamp(line)
      && TimestampEnd(m) <= m.span.groupStart <= |line|
      && m.span == MatchLevel(line, m.span.groupStart)
      && AllSpace(line[TimestampEnd(m)..m.span.groupStart])
      && (m.span.groupStart == |line| || !IsSpace(line[m.span.groupStart]))
      && m.span.groupEnd <= m.messageStart <= |line| && AllSpace(line[m.span.groupEnd..m.messageStart])
      && (m.messageStart == |line| || !IsSpace(line[m.messageStart]))
  {
  }

  /** One row of the parsed entries: the timestamp text, the level, the message and the stripped line. */
  datatype ParsedEntry = ParsedEntry(timestampStr: Option<string>, level: Level, message: string, rawLine: string)

  /** The level before the override: the matched name (upper-casing it changes nothing), else INFO. */
  function StructuredLevel(m: LineMatch): Level {
    if m.level().Some? then m.level().value else INFO
  }

  /**
   * The message group stripped; when it is empty although both a timestamp
   * and a level matched, the stripped text after the level name instead.
   */
  function MessageOf(line: string, m: LineMatch): string
    requires m.levelEnd() <= |line| && m.messageStart <= |line|
  {
    var message := Strip(line[m.messageStart..]);
    if message == [] && m.timestamp.Some? && m.level().Some? then Strip(line[m.levelEnd()..]) else message
  }

  /** The body of the loop of `parse_log_data` for one stripped, non-empty line. */
  function ClassifyLine(line: string): (e: ParsedEntry)
    ensures e.rawLine == line
    ensures e.timestampStr == Tokenize(line).timestamp
  {
    var m := Tokenize(line);
    ParsedEntry(m.timestamp, KeywordOverride(line, StructuredLevel(m)), MessageOf(line, m), line)
  }

  /** The text after the level group when a line is assembled from its parts: a name, bracketed or bare. */
  function LevelText(l: Level, bracketed: bool): string {
    if bracketed then "[" + Name(l) + "]" else Name(l)
  }

  /** The alternation picks every name but WARNING when the name is followed by anything. */
  lemma LevelTokenOfName(l: Level, rest: string)
    requires l != WARNING
    ensures LevelToken(Name(l) + rest) == Some(l)
  {
    var s := Name(l) + rest;
    assert s[..|Name(l)|] == Name(l);
    assert s[0] == Name(l)[0];
  }

  /** A line that starts with WARNING gets level WARN; the alternation never yields WARNING. */
  lemma LevelTokenNeverWarning(s: string)
    ensures LevelToken(s) != Some(WARNING)
  {
    if StartsWith(s, "WARNING") {
      assert s[..4] == s[..7][..4];
    }
  }

  /** The classified level is never WARNING: the override only ever writes ERROR or WARN. */
  lemma ClassifiedNeverWarning(line: string)
    ensures ClassifyLine(line).level != WARNING
  {
    var m := Tokenize(line);
    LevelTokenNeverWarning(line[m.span.levelStart..]);
  }

  lemma NoTimestampWithoutDigit(line: string)
    requires line != [] && !IsDigit(line[0])
    ensures MatchTimestamp(line).None?
  {
    if |line| >= 19 {
      assert line[..19][..10][0..4][0] == line[0];
    }
    if |line| >= 23 {
      assert line[..23][..19][..10][0..4][0] == line[0];
    }
  }

  lemma SkipOneSpace(s: string, i: nat)
    requires i + 1 < |s| && IsSpace(s[i]) && !IsSpace(s[i + 1])
    ensures SkipSpaces(s, i) == i + 1
  {
  }

  lemma SkipNoSpace(s: string, i: nat)
    requires i < |s| && !IsSpace(s[i])
    ensures SkipSpaces(s, i) == i
  {
  }

  /**
   * A line "WARNING x" is split after the first four letters: the level is
   * WARN and the message group starts with the letters "ING".
   */
  lemma WarningLineSplits(line: string)
    requires StartsWith(line, "WARNING")
    ensures Tokenize(line).level() == Some(WARN)
    ensures Tokenize(line).messageStart == 4 && StartsWith(line[4..], "ING")
    ensures ClassifyLine(line).message == Strip(line[4..])
  {
    assert line[0] == 'W' && line[4] == 'I';
    NoTimestampWithoutDigit(line);
    SkipNoSpace(line, 0);
    assert StartsWith(line, "WARN") by { assert line[..4] == line[..7][..4]; }
    assert line[..1] != "I";
    SkipNoSpace(line, 4);
    assert line[4..][..3] == line[..7][4..];
  }

  /** "INFORMATION" is no level name, yet its first four letters are: level INFO, message from "RMATION". */
  lemma InformationLineSplits(line: string)
    requires StartsWith(line, "INFORMATION")
    ensures Tokenize(line).level() == Some(INFO)
    ensures Tokenize(line).messageStart == 4 && StartsWith(line[4..], "RMATION")
    ensures ClassifyLine(line).message == Strip(line[4..])
  {
    assert line[0] == 'I' && line[4] == 'R';
    NoTimestampWithoutDigit(line);
    SkipNoSpace(line, 0);
    assert StartsWith(line, "INFO") by { assert line[..4] == line[..11][..4]; }
    SkipNoSpace(line, 4);
    assert line[4..][..7] == line[..11][4..];
  }

  /** Without a level name and without either keyword the level is the default INFO. */
  lemma DefaultLevelIsInfo(line: string)
    requires Tokenize(line).level().None?
    requires !HasKeyword(line, "ERROR") && !HasKeyword(line, "WARN")
    ensures ClassifyLine(line).level == INFO
  {
    NoKeywordKeepsLevel(line, INFO);
  }

  /**
   * On a stripped line whose message group is empty although a timestamp and
   * a level matched, the re-derived message is "]" when a closing bracket
   * followed the name and empty otherwise.
   */
  lemma RederivedMessageIsBracketOrEmpty(line: string)
    requires IsStripped(line)
    requires Tokenize(line).timestamp.Some? && Tokenize(line).level().Some?
    requires Strip(line[Tokenize(line).messageStart..]) == []
    ensures var m := Tokenize(line);
      ClassifyLine(line).message == if m.span.groupEnd > m.span.levelEnd then "]" else ""
  {
    var g := Tokenize(line).span;
    GroupReachesEnd(line);
    if g.groupEnd > g.levelEnd {
      assert line[g.levelEnd..] == "]";
      StripFixesStripped("]");
    } else {
      assert line[g.levelEnd..] == "";
    }
  }

  /** When the message group is blank in a stripped line, the level group runs to the end of the line. */
  lemma GroupReachesEnd(line: string)
    requires IsStripped(line)
    requires Strip(line[Tokenize(line).messageStart..]) == []
    ensures Tokenize(line).span.groupEnd == |line|
  {
    var m := Tokenize(line);
    var g := m.span;
    StripEmptyIffAllSpace(line[m.messageStart..]);
    SpaceSuffixOfStripped(line, m.messageStart);
    assert line[g.groupEnd..] == line[g.groupEnd..m.messageStart];
    SpaceSuffixOfStripped(line, g.groupEnd);
  }

  /** Otherwise the message of a stripped line is the message group itself, unchanged. */
  lemma MessageIsRemainder(line: string)
    requires IsStripped(line)
    requires !(Tokenize(line).timestamp.Some? && Tokenize(line).level().Some? && Strip(line[Tokenize(line).messageStart..]) == [])
    ensures ClassifyLine(line).message == line[Tokenize(line).messageStart..]
  {
    var m := Tokenize(line);
    var rest := line[m.messageStart..];
    assert IsStripped(rest) by {
      if rest != [] {
        assert rest[0] == line[m.messageStart];
        assert rest[|rest| - 1] == line[|line| - 1];
      }
    }
    StripFixesStripped(rest);
    assert MessageOf(line, m) == rest;
  }

  /** The timestamp group and the first `\s*` of an assembled line. */
  lemma AssembledHead(ts: Option<string>, rest: string)
    requires ts.Some? ==> IsMillisShaped(ts.value) || IsSecondsShaped(ts.value)
    requires |rest| >= 4 && !IsDigit(rest[0]) && !IsSpace(rest[0]) && rest[0] != ','
    ensures var head := if ts.Some? then ts.value + " " else "";
      MatchTimestamp(head + rest) == ts && SkipSpaces(head + rest, if ts.Some? then |ts.value| else 0) == |head|
  {
    var head := if ts.Some? then ts.value + " " else "";
    var line := head + rest;
    assert line[|head|] == rest[0];
    if ts.Some? {
      var t := ts.value;
      assert line[..|t|] == t;
      assert line[|t|] == ' ';
      if IsSecondsShaped(t) {
        assert line[..23][19] == ' ';
      }
      SkipOneSpace(line, |t|);
    } else {
      NoTimestampWithoutDigit(line);
      SkipNoSpace(line, 0);
    }
  }

  /** The level group, the second `\s*` and the message of an assembled line. */
  lemma SplitBracketed(x: string, n: string, msg: string)
    requires x == "[" + n + "]" + " " + msg
    ensures x[0] == '[' && x[1..] == n + ("]" + " " + msg) && x[1 + |n|] == ']'
  {
    assert x[1..] == n + "]" + " " + msg;
  }

  lemma AssembledBracketed(line: string, q: nat, l: Level, msg: string)
    requires l != WARNING && msg != [] && !IsSpace(msg[0])
    requires q <= |line| && line[q..] == "[" + Name(l) + "]" + " " + msg
    ensures var g := MatchLevel(line, q);
      g.level == Some(l) && g.groupEnd == q + |Name(l)| + 2
  {
    var x := line[q..];
    SplitBracketed(x, Name(l), msg);
    assert line[q] == x[0];
    assert line[q + 1..] == x[1..];
    LevelTokenOfName(l, "]" + " " + msg);
    assert line[q + 1 + |Name(l)|] == x[1 + |Name(l)|];
  }

  lemma AssembledBare(line: string, q: nat, l: Level, msg: string)
    requires l != WARNING && msg != [] && !IsSpace(msg[0])
    requires q <= |line| && line[q..] == Name(l) + " " + msg
    ensures var g := MatchLevel(line, q);
      g.level == Some(l) && g.groupEnd == q + |Name(l)|
  {
    var x := line[q..];
    assert x == Name(l) + (" " + msg);
    assert line[q] == Name(l)[0];
    assert line[q + |Name(l)|] == x[|Name(l)|];
    LevelTokenOfName(l, " " + msg);
  }

  /** The level group of an assembled line covers exactly its level text. */
  lemma AssembledLevel(line: string, q: nat, l: Level, bracketed: bool, msg: string)
    requires l != WARNING && msg != [] && !IsSpace(msg[0])
    requires q <= |line| && line[q..] == LevelText(l, bracketed) + " " + msg
    ensures MatchLevel(line, q).level == Some(l)
    ensures MatchLevel(line, q).groupEnd == q + |LevelText(l, bracketed)|
  {
    if bracketed {
      AssembledBracketed(line, q, l, msg);
    } else {
      AssembledBare(line, q, l, msg);
    }
  }

  /** The single space before the message is the whole second `\s*`. */
  lemma AssembledGap(line: string, q: nat, lv: string, msg: string)
    requires msg != [] && !IsSpace(msg[0])
    requires q <= |line| && line[q..] == lv + " " + msg
    ensures var r := q + |lv|;
      r < |line| && SkipSpaces(line, r) == r + 1 && line[r + 1..] == msg
  {
    var x := line[q..];
    var r := q + |lv|;
    assert line[r] == x[|lv|] == ' ';
    assert line[r + 1] == x[|lv| + 1] == msg[0];
    assert line[r + 1..] == x[|lv| + 1..];
    SkipOneSpace(line, r);
  }

  /** The match of an assembled line, group by group. */
  lemma TokenizeAssembledLine(ts: Option<string>, l: Level, bracketed: bool, msg: string)
    requires ts.Some? ==> IsMillisShaped(ts.value) || IsSecondsShaped(ts.value)
    requires l != WARNING
    requires msg != [] && !IsSpace(msg[0])
    ensures var line := (if ts.Some? then ts.value + " " else "") + LevelText(l, bracketed) + " " + msg;
      var m := Tokenize(line);
      m.timestamp == ts && m.level() == Some(l) && m.messageStart <= |line| && line[m.messageStart..] == msg
  {
    var head := if ts.Some? then ts.value + " " else "";
    var rest := LevelText(l, bracketed) + " " + msg;
    var line := head + rest;
    AssembledSplit(head, l, bracketed, msg);
    AssembledHead(ts, rest);
    TokenizeAssembledRest(line, |head|, l, bracketed, msg);
  }

  /** The level group and the message of an assembled line whose level text starts at `q`. */
  lemma TokenizeAssembledRest(line: string, q: nat, l: Level, bracketed: bool, msg: string)
    requires l != WARNING && msg != [] && !IsSpace(msg[0])
    requires q <= |line| && line[q..] == LevelText(l, bracketed) + " " + msg
    requires SkipSpaces(line, if MatchTimestamp(line).Some? then |MatchTimestamp(line).value| else 0) == q
    ensures var m := Tokenize(line);
      m.level() == Some(l) && m.messageStart <= |line| && line[m.messageStart..] == msg
  {
    AssembledLevel(line, q, l, bracketed, msg);
    AssembledGap(line, q, LevelText(l, bracketed), msg);
    TokenizeOfParts(line, q);
  }

  /** An assembled line is its head followed by the level text, a space and the message. */
  lemma AssembledSplit(head: string, l: Level, bracketed: bool, msg: string)
    ensures var rest := LevelText(l, bracketed) + " " + msg;
      && head + rest == head + LevelText(l, bracketed) + " " + msg
      && (head + rest)[|head|..] == rest
      && |rest| >= 4 && !IsDigit(rest[0]) && !IsSpace(rest[0]) && rest[0] != ','
  {
    var rest := LevelText(l, bracketed) + " " + msg;
    assert head + rest == head + LevelText(l, bracketed) + " " + msg;
    assert (head + rest)[|head|..] == rest;
    NameStart(l);
    assert rest[0] == Name(l)[0] || rest[0] == '[';
  }

  /** Every level name is at least four letters long and starts with a capital letter. */
  lemma NameStart(l: Level)
    ensures |Name(l)| >= 4 && 'A' <= Name(l)[0] <= 'Z'
  {
  }

  /** The match of a line whose level group starts at `p`, from its three groups. */
  lemma TokenizeOfParts(line: string, p: nat)
    requires p <= |line|
    requires SkipSpaces(line, if MatchTimestamp(line).Some? then |MatchTimestamp(line).value| else 0) == p
    ensures Tokenize(line).span == MatchLevel(line, p)
    ensures Tokenize(line).messageStart == SkipSpaces(line, MatchLevel(line, p).groupEnd)
  {
  }

  /**
   * Classifying a line assembled from a timestamp, a level name other than
   * WARNING (bracketed or bare) and a stripped message, separated by single
   * spaces, gives the parts back; the level is then subject to the override.
   */
  lemma ClassifyAssembledLine(ts: Option<string>, l: Level, bracketed: bool, msg: string)
    requires ts.Some? ==> IsMillisShaped(ts.value) || IsSecondsShaped(ts.value)
    requires l != WARNING
    requires msg != [] && IsStripped(msg)
    ensures var line := (if ts.Some? then ts.value + " " else "") + LevelText(l, bracketed) + " " + msg;
      ClassifyLine(line) == ParsedEntry(ts, KeywordOverride(line, l), msg, line)
  {
    TokenizeAssembledLine(ts, l, bracketed, msg);
    StripFixesStripped(msg);
  }

  lemma ExampleTimestampShape(ts: string)
    requires ts == "2024-06-25 10:00:22,333"
    ensures IsMillisShaped(ts)
  {
    ExampleTimestamp();
  }

  /** A line in the style of the sample log of `ai_logic.py`: a timestamp with milliseconds, a bare level name and a message. */
  lemma ExampleTimestampedError(line: string)
    requires line == "2024-06-25 10:00:22,333" + " " + "ERROR" + " " + "Database connection failed"
    ensures ClassifyLine(line)
      == ParsedEntry(Some("2024-06-25 10:00:22,333"), ERROR, "Database connection failed", line)
  {
    var ts := "2024-06-25 10:00:22,333";
    ExampleTimestampShape(ts);
    assert LevelText(ERROR, false) == "ERROR";
    ClassifyAssembledLine(Some(ts), ERROR, false, "Database connection failed");
    ExampleErrorKept(line);
  }

  lemma ExampleErrorKept(line: string)
    requires line == "2024-06-25 10:00:22,333" + " " + "ERROR" + " " + "Database connection failed"
    ensures KeywordOverride(line, ERROR) == ERROR
  {
    ExampleErrorNoWarn(line);
    OverrideRules(line, ERROR);
  }

  lemma ExampleErrorNoWarn(line: string)
    requires line == "2024-06-25 10:00:22,333" + " " + "ERROR" + " " + "Database connection failed"
    ensures !HasKeyword(line, "WARN")
  {
    ExampleErrorLetters(line, 'W');
    ExampleErrorLetters(line, 'w');
    NoWarnKeywordWithoutW(line);
  }

  lemma ExampleErrorLetters(line: string, c: char)
    requires line == "2024-06-25 10:00:22,333" + " " + "ERROR" + " " + "Database connection failed"
    requires c == 'W' || c == 'w'
    ensures c !in line
  {
  }

  /** Second example: no timestamp, a bare WARN and a message. */
  lemma ExampleWarnWithoutTimestamp(line: string)
    requires line == "WARN" + " " + "High CPU usage"
    ensures ClassifyLine(line) == ParsedEntry(None, WARN, "High CPU usage", line)
  {
    NoErrorKeywordWithoutO(line);
    assert LevelText(WARN, false) == "WARN";
    assert line == "" + LevelText(WARN, false) + " " + "High CPU usage";
    ClassifyAssembledLine(None, WARN, false, "High CPU usage");
    OverrideRules(line, WARN);
  }

  lemma ExamplePlainTokenize(line: string)
    requires line == "Server health check passed."
    ensures Tokenize(line).timestamp.None? && Tokenize(line).level().None? && Tokenize(line).messageStart == 0
  {
    NoTimestampWithoutDigit(line);
    SkipNoSpace(line, 0);
    assert forall k :: !StartsWith(line, Name(k)) by {
      forall k ensures !StartsWith(line, Name(k)) { assert Name(k)[0] != line[0]; }
    }
  }

  /** Third example: a line with neither a timestamp nor a level name is all message, at level INFO. */
  lemma ExamplePlainLine(line: string)
    requires line == "Server health check passed."
    ensures ClassifyLine(line) == ParsedEntry(None, INFO, line, line)
  {
    ExamplePlainTokenize(line);
    assert IsStripped(line);
    MessageIsRemainder(line);
    assert line[0..] == line;
    ExamplePlainKept(line);
  }

  lemma ExamplePlainKept(line: string)
    requires line == "Server health check passed."
    ensures KeywordOverride(line, INFO) == INFO
  {
    ExamplePlainNoError(line);
    ExamplePlainNoWarn(line);
    NoKeywordKeepsLevel(line, INFO);
  }

  lemma ExamplePlainNoError(line: string)
    requires line == "Server health check passed."
    ensures !HasKeyword(line, "ERROR")
  {
    NoErrorKeywordWithoutO(line);
  }

  lemma ExamplePlainNoWarn(line: string)
    requires line == "Server health check passed."
    ensures !HasKeyword(line, "WARN")
  {
    NoWarnKeywordWithoutW(line);
  }
}
