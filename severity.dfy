/**
 * Severity levels and the keyword override that `parse_log_data` applies to
 * every line after the structured match.
 */
module Severity {
  import opened Text

  /** The seven level names the log pattern recognises. */
  datatype Level = INFO | WARN | WARNING | ERROR | DEBUG | CRITICAL | FATAL

  function Name(l: Level): string {
    match l
    case INFO => "INFO"
    case WARN => "WARN"
    case WARNING => "WARNING"
    case ERROR => "ERROR"
    case DEBUG => "DEBUG"
    case CRITICAL => "CRITICAL"
    case FATAL => "FATAL"
  }

  /** A level whose lines are collected for the summariser. */
  predicate IsElevated(l: Level) {
    l == ERROR || l == WARN || l == WARNING || l == CRITICAL || l == FATAL
  }

  /** The levels the ERROR keyword leaves alone. */
  predicate IsErrorOrWorse(l: Level) {
    l == ERROR || l == CRITICAL || l == FATAL
  }

  /** The levels the WARN keyword leaves alone. */
  predicate IsWarning(l: Level) {
    l == WARN || l == WARNING
  }

  /** `keyword in line.upper()`. */
  predicate HasKeyword(line: string, keyword: string) {
    Contains(AsciiUpper(line), keyword)
  }

  /**
   * The fallback for lines whose severity is written as a free-text keyword:
   * "ERROR" anywhere in the upper-cased line forces ERROR unless the level is
   * already ERROR, CRITICAL or FATAL; otherwise "WARN" or "WARNING" forces
   * WARN unless the level is already WARN or WARNING.
   */
  function KeywordOverride(line: string, level: Level): Level {
    var upper := AsciiUpper(line);
    if Contains(upper, "ERROR") && level != ERROR && level != CRITICAL && level != FATAL then ERROR
    else if (Contains(upper, "WARN") || Contains(upper, "WARNING")) && level != WARN && level != WARNING then WARN
    else level
  }

  /** The names are upper case, so `level_group.upper()` returns the matched name itself. */
  lemma NameIsUpperCase(l: Level)
    ensures AsciiUpper(Name(l)) == Name(l)
  {
    UpperOfUpperCase(Name(l));
  }

  /** The "WARNING" test of the override is subsumed by the "WARN" test. */
  lemma WarningKeywordImpliesWarn(line: string)
    ensures HasKeyword(line, "WARNING") ==> HasKeyword(line, "WARN")
  {
    if HasKeyword(line, "WARNING") {
      assert "WARNING" == "WARN" + "ING";
      ContainsPrefixOfPattern(AsciiUpper(line), "WARN", "ING");
    }
  }

  /**
   * The override as a rule list over the two keyword tests: ERROR first, then
   * WARN, otherwise the level stays.
   */
  lemma OverrideRules(line: string, level: Level)
    ensures HasKeyword(line, "ERROR") && !IsErrorOrWorse(level) ==> KeywordOverride(line, level) == ERROR
    ensures !(HasKeyword(line, "ERROR") && !IsErrorOrWorse(level)) && HasKeyword(line, "WARN") && !IsWarning(level)
      ==> KeywordOverride(line, level) == WARN
    ensures !(HasKeyword(line, "ERROR") && !IsErrorOrWorse(level)) && !(HasKeyword(line, "WARN") && !IsWarning(level))
      ==> KeywordOverride(line, level) == level
  {
    WarningKeywordImpliesWarn(line);
  }

  /** Without either keyword the override keeps the level. */
  lemma NoKeywordKeepsLevel(line: string, level: Level)
    requires !HasKeyword(line, "ERROR") && !HasKeyword(line, "WARN")
    ensures KeywordOverride(line, level) == level
  {
    OverrideRules(line, level);
  }

  /**
   * A line ends up elevated exactly when its structured level was elevated or
   * it mentions one of the keywords.
   */
  lemma OverrideElevatedIff(line: string, level: Level)
    ensures IsElevated(KeywordOverride(line, level))
      <==> IsElevated(level) || HasKeyword(line, "ERROR") || HasKeyword(line, "WARN")
  {
    OverrideRules(line, level);
  }

  /**
   * CRITICAL and FATAL are kept exactly when the line does not mention WARN;
   * when it does, they become WARN.
   */
  lemma CriticalKeptIffNoWarn(line: string, level: Level)
    requires level == CRITICAL || level == FATAL
    ensures KeywordOverride(line, level) == level <==> !HasKeyword(line, "WARN")
    ensures KeywordOverride(line, level) != level ==> KeywordOverride(line, level) == WARN
  {
    OverrideRules(line, level);
  }

  /**
   * Applying the override a second time changes nothing exactly when the line
   * does not mention both keywords: with both, it flips between ERROR and WARN.
   */
  lemma OverrideIdempotentIff(line: string, level: Level)
    ensures KeywordOverride(line, KeywordOverride(line, level)) == KeywordOverride(line, level)
      <==> !(HasKeyword(line, "ERROR") && HasKeyword(line, "WARN"))
  {
    OverrideRules(line, level);
    OverrideRules(line, KeywordOverride(line, level));
  }

  /** A line without the letter W in either case cannot mention WARN. */
  lemma NoWarnKeywordWithoutW(line: string)
    requires 'W' !in line && 'w' !in line
    ensures !HasKeyword(line, "WARN")
  {
    NoKeywordWithoutLetter(line, "WARN", 0, 'w');
  }

  /** A line without the letter O in either case cannot mention ERROR. */
  lemma NoErrorKeywordWithoutO(line: string)
    requires 'O' !in line && 'o' !in line
    ensures !HasKeyword(line, "ERROR")
  {
    NoKeywordWithoutLetter(line, "ERROR", 3, 'o');
  }

  /** A keyword cannot occur in the upper-cased line when one of its letters occurs in the line in neither case. */
  lemma NoKeywordWithoutLetter(line: string, keyword: string, k: nat, lower: char)
    requires k < |keyword| && 'a' <= lower <= 'z' && keyword[k] == UpperChar(lower)
    requires keyword[k] !in line && lower !in line
    ensures !HasKeyword(line, keyword)
  {
    var upper := AsciiUpper(line);
    ContainsIff(upper, keyword);
    forall i | 0 <= i < |line| ensures upper[i] != keyword[k] {
      assert line[i] in line;
    }
  }
}
