/**
 * The string operations the log parser relies on: Python's `str.strip`,
 * `str.upper`, the `in` substring test, `str.splitlines` and `"\n".join`,
 * restricted to ASCII whitespace, ASCII case and the `\n`, `\r\n`, `\r`
 * line breaks.
 */
module Text {

  /** The ASCII characters that both `str.strip()` and the regex class `\s` skip. */
  predicate IsSpace(c: char) {
    c == ' ' || c == '\t' || c == '\n' || c == '\r' || c == '\U{000B}' || c == '\U{000C}'
  }

  predicate AllSpace(s: string) {
    forall i :: 0 <= i < |s| ==> IsSpace(s[i])
  }

  /** Neither end of `s` is whitespace. */
  predicate IsStripped(s: string) {
    s == [] || (!IsSpace(s[0]) && !IsSpace(s[|s| - 1]))
  }

  /** `r` is `s` with only whitespace taken off its two ends, `a` characters at the front. */
  predicate PaddedAt(s: string, r: string, a: int) {
    0 <= a && a + |r| <= |s| && s[a..a + |r|] == r && AllSpace(s[..a]) && AllSpace(s[a + |r|..])
  }

  /** `\s*` from position `i`: the first position at or after `i` that is not whitespace. */
  function SkipSpaces(s: string, i: nat): (j: nat)
    requires i <= |s|
    ensures i <= j <= |s| && AllSpace(s[i..j])
    ensures j == |s| || !IsSpace(s[j])
    decreases |s| - i
  {
    if i < |s| && IsSpace(s[i]) then
      var j := SkipSpaces(s, i + 1);
      assert s[i..j] == [s[i]] + s[i + 1..j];
      j
    else
      i
  }

  /** The whitespace run ending at position `j`, scanned backwards: where it starts. */
  function SkipSpacesBack(s: string, j: nat): (i: nat)
    requires j <= |s|
    ensures i <= j && AllSpace(s[i..j])
    ensures i == 0 || !IsSpace(s[i - 1])
  {
    if j > 0 && IsSpace(s[j - 1]) then
      var i := SkipSpacesBack(s, j - 1);
      assert s[i..j] == s[i..j - 1] + [s[j - 1]];
      i
    else
      j
  }

  /**
   * Python's `s.strip()` on ASCII whitespace: the text between the leading
   * and the trailing whitespace run, empty when the whole string is whitespace.
   */
  function Strip(s: string): (r: string)
    ensures IsStripped(r)
  {
    var a := SkipSpaces(s, 0);
    var b := SkipSpacesBack(s, |s|);
    if b <= a then [] else
      assert s[a..b][0] == s[a];
      s[a..b]
  }

  /** Stripping removes whitespace only, from the two ends. */
  lemma StripRemovesOnlySpace(s: string)
    ensures PaddedAt(s, Strip(s), SkipSpaces(s, 0))
  {
    var a := SkipSpaces(s, 0);
    var b := SkipSpacesBack(s, |s|);
    assert s[..a] == s[0..a];
    assert s[b..] == s[b..|s|];
    if a < b {
      assert s[a + (b - a)..] == s[b..];
    }
  }

  /** In a stripped string only the empty suffix is all whitespace. */
  lemma SpaceSuffixOfStripped(s: string, i: nat)
    requires IsStripped(s) && i <= |s| && AllSpace(s[i..])
    ensures i == |s|
  {
  }

  /** Stripping is the identity exactly on stripped strings. */
  lemma StripFixesStripped(s: string)
    ensures Strip(s) == s <==> IsStripped(s)
  {
    if IsStripped(s) && s != [] {
      assert SkipSpaces(s, 0) == 0;
      assert SkipSpacesBack(s, |s|) == |s|;
      assert s[0..|s|] == s;
    }
  }

  /** A line is blank (stripped to nothing) exactly when it is all whitespace. */
  lemma StripEmptyIffAllSpace(s: string)
    ensures Strip(s) == [] <==> AllSpace(s)
  {
    StripRemovesOnlySpace(s);
    var a := SkipSpaces(s, 0);
    if Strip(s) == [] {
      assert a == |s|;
      assert s[0..a] == s;
    }
  }

  function UpperChar(c: char): char {
    if 'a' <= c <= 'z' then (c as int - 32) as char else c
  }

  /** Python's `s.upper()` on ASCII letters; every other character is kept. */
  function AsciiUpper(s: string): (r: string)
    ensures |r| == |s|
  {
    seq(|s|, i requires 0 <= i < |s| => UpperChar(s[i]))
  }

  predicate IsUpperCase(s: string) {
    forall i :: 0 <= i < |s| ==> !('a' <= s[i] <= 'z')
  }

  /** Upper-casing changes nothing in a string without lower-case letters. */
  lemma UpperOfUpperCase(s: string)
    requires IsUpperCase(s)
    ensures AsciiUpper(s) == s
  {
  }

  predicate StartsWith(s: string, p: string) {
    |p| <= |s| && s[..|p|] == p
  }

  predicate OccursAt(s: string, p: string, i: int) {
    0 <= i && i + |p| <= |s| && s[i..i + |p|] == p
  }

  /** Whether `p` occurs in `s` at position `i` or later. */
  function ContainsFrom(s: string, p: string, i: nat): bool
    requires i <= |s|
    decreases |s| - i
  {
    OccursAt(s, p, i) || (i < |s| && ContainsFrom(s, p, i + 1))
  }

  /** Python's `p in s`. */
  function Contains(s: string, p: string): bool {
    ContainsFrom(s, p, 0)
  }

  /** The scan from `i` finds `p` exactly when `p` occurs at `i` or later. */
  lemma {:induction false} ContainsFromIff(s: string, p: string, i: nat)
    requires i <= |s|
    ensures ContainsFrom(s, p, i) <==> exists j :: i <= j && OccursAt(s, p, j)
    decreases |s| - i
  {
    if i < |s| {
      ContainsFromIff(s, p, i + 1);
      if ContainsFrom(s, p, i + 1) {
        var j :| i + 1 <= j && OccursAt(s, p, j);
        assert i <= j;
      }
      forall j | i <= j && OccursAt(s, p, j) ensures ContainsFrom(s, p, i) {
        if j > i {
          assert i + 1 <= j;
        }
      }
    } else {
      forall j | i <= j && OccursAt(s, p, j) ensures OccursAt(s, p, i) {
        assert j == i;
      }
    }
  }

  /** `Contains` finds `p` exactly when `p` occurs somewhere in `s`. */
  lemma ContainsIff(s: string, p: string)
    ensures Contains(s, p) <==> exists i :: OccursAt(s, p, i)
  {
    ContainsFromIff(s, p, 0);
  }

  /** A string containing `p + q` contains `p`. */
  lemma ContainsPrefixOfPattern(s: string, p: string, q: string)
    requires Contains(s, p + q)
    ensures Contains(s, p)
  {
    ContainsIff(s, p + q);
    var i :| OccursAt(s, p + q, i);
    assert s[i..i + |p|] == s[i..i + |p + q|][..|p|];
    assert OccursAt(s, p, i);
    ContainsIff(s, p);
  }

  predicate IsLineBreak(c: char) {
    c == '\n' || c == '\r'
  }

  predicate HasNoLineBreak(s: string) {
    forall i :: 0 <= i < |s| ==> !IsLineBreak(s[i])
  }

  /** The index of the first line break in `s`, or `|s|` when there is none. */
  function LineEnd(s: string): (k: nat)
    ensures k <= |s| && HasNoLineBreak(s[..k])
    ensures k == |s| || IsLineBreak(s[k])
  {
    if s == [] || IsLineBreak(s[0]) then 0
    else
      var k := 1 + LineEnd(s[1..]);
      assert s[..k] == [s[0]] + s[1..][..k - 1];
      k
  }

  /** The position just past the line break at `k`: `\r\n` is one break. */
  function BreakEnd(s: string, k: nat): (next: nat)
    requires k < |s| && IsLineBreak(s[k])
    ensures k < next <= |s|
  {
    if s[k] == '\r' && k + 1 < |s| && s[k + 1] == '\n' then k + 2 else k + 1
  }

  /**
   * Python's `s.splitlines()` for the breaks `\n`, `\r\n` and `\r`: the text
   * between breaks, with no empty piece after a final break.
   */
  function SplitLines(s: string): (lines: seq<string>)
    ensures forall j :: 0 <= j < |lines| ==> HasNoLineBreak(lines[j])
    decreases |s|
  {
    if s == [] then []
    else
      var k := LineEnd(s);
      if k == |s| then [s]
      else [s[..k]] + SplitLines(s[BreakEnd(s, k)..])
  }

  /** The break that ended each piece of `SplitLines(s)`; `""` for a last line with none. */
  function LineEndings(s: string): (ends: seq<string>)
    ensures |ends| == |SplitLines(s)|
    decreases |s|
  {
    if s == [] then []
    else
      var k := LineEnd(s);
      if k == |s| then [""]
      else [s[k..BreakEnd(s, k)]] + LineEndings(s[BreakEnd(s, k)..])
  }

  predicate IsLineEnding(e: string) {
    e == "\n" || e == "\r" || e == "\r\n"
  }

  /** Each line followed by its ending: the text that `SplitLines` undoes. */
  function Terminated(lines: seq<string>, ends: seq<string>): string
    requires |ends| == |lines|
  {
    if lines == [] then [] else lines[0] + ends[0] + Terminated(lines[1..], ends[1..])
  }

  /**
   * Lines and endings that `Terminated` writes unambiguously: no line holds a
   * break, every line ends in `\n`, `\r` or `\r\n` except that a non-empty last
   * line may have no ending, and a `\r` is never followed by an empty line
   * ended by `\n` (the two would read as one `\r\n`).
   */
  predicate WellEnded(lines: seq<string>, ends: seq<string>) {
    |ends| == |lines| &&
    (lines != [] ==>
      HasNoLineBreak(lines[0]) &&
      if |lines| == 1 then IsLineEnding(ends[0]) || (ends[0] == [] && lines[0] != [])
      else
        IsLineEnding(ends[0]) && !(ends[0] == "\r" && lines[1] == [] && ends[1] == "\n") &&
        WellEnded(lines[1..], ends[1..]))
  }

  /** Splitting well-ended lines gives the lines back, and the endings are the ones written. */
  lemma {:induction false} SplitTerminated(lines: seq<string>, ends: seq<string>)
    requires WellEnded(lines, ends)
    ensures SplitLines(Terminated(lines, ends)) == lines
    ensures LineEndings(Terminated(lines, ends)) == ends
  {
    if lines != [] {
      if |lines| > 1 {
        SplitTerminated(lines[1..], ends[1..]);
      }
      SplitTerminatedStep(lines, ends);
    }
  }

  /** The step of `SplitTerminated`: the first line splits off with its ending. */
  lemma SplitTerminatedStep(lines: seq<string>, ends: seq<string>)
    requires WellEnded(lines, ends) && lines != []
    requires SplitLines(Terminated(lines[1..], ends[1..])) == lines[1..]
    requires LineEndings(Terminated(lines[1..], ends[1..])) == ends[1..]
    ensures SplitLines(Terminated(lines, ends)) == lines
    ensures LineEndings(Terminated(lines, ends)) == ends
  {
    if ends[0] == [] {
      assert lines == [lines[0]] && ends == [""];
      SplitUnended(lines[0]);
    } else {
      if |lines| > 1 && ends[0] == "\r" {
        NotNewlineAfterCr(lines[1..], ends[1..]);
      }
      SplitEnded(lines[0], ends[0], lines[1..], ends[1..]);
      assert lines == [lines[0]] + lines[1..];
      assert ends == [ends[0]] + ends[1..];
    }
  }

  /** A last line with no ending is the one piece. */
  lemma SplitUnended(l: string)
    requires HasNoLineBreak(l) && l != []
    ensures SplitLines(Terminated([l], [""])) == [l]
    ensures LineEndings(Terminated([l], [""])) == [""]
  {
    assert Terminated([l], [""]) == l;
    LineEndNoBreak(l);
  }

  /** A first line with an ending splits off in front of the rest. */
  lemma SplitEnded(l: string, e: string, ls: seq<string>, es: seq<string>)
    requires |es| == |ls| && HasNoLineBreak(l) && IsLineEnding(e)
    requires e == "\r" && Terminated(ls, es) != [] ==> Terminated(ls, es)[0] != '\n'
    requires SplitLines(Terminated(ls, es)) == ls && LineEndings(Terminated(ls, es)) == es
    ensures SplitLines(Terminated([l] + ls, [e] + es)) == [l] + ls
    ensures LineEndings(Terminated([l] + ls, [e] + es)) == [e] + es
  {
    var rest := Terminated(ls, es);
    assert ([l] + ls)[1..] == ls && ([e] + es)[1..] == es;
    assert Terminated([l] + ls, [e] + es) == l + e + rest;
    SplitOffLine(l, e, rest);
  }

  /** A line without breaks, then one ending, then text not starting `\n` after a lone `\r`, splits there. */
  lemma SplitOffLine(l: string, e: string, rest: string)
    requires HasNoLineBreak(l) && IsLineEnding(e)
    requires e == "\r" && rest != [] ==> rest[0] != '\n'
    ensures SplitLines(l + e + rest) == [l] + SplitLines(rest)
    ensures LineEndings(l + e + rest) == [e] + LineEndings(rest)
  {
    var s := l + e + rest;
    assert s == l + (e + rest);
    LineEndOfLine(l, e + rest);
    var k := |l|;
    assert s[..k] == l;
    assert s[k] == e[0];
    if e == "\r" && rest != [] {
      assert s[k + 1] == rest[0];
    }
    assert BreakEnd(s, k) == k + |e|;
    assert s[k..k + |e|] == e;
    assert s[k + |e|..] == rest;
  }

  /** Well-ended text that does not start with an empty line ended by `\n` does not start with `\n`. */
  lemma NotNewlineAfterCr(lines: seq<string>, ends: seq<string>)
    requires WellEnded(lines, ends) && lines != []
    requires !(lines[0] == [] && ends[0] == "\n")
    ensures Terminated(lines, ends) != [] && Terminated(lines, ends)[0] != '\n'
  {
    var s := Terminated(lines, ends);
    assert s == lines[0] + (ends[0] + Terminated(lines[1..], ends[1..]));
    if lines[0] != [] {
      assert s[0] == lines[0][0];
    } else {
      assert s[0] == ends[0][0];
    }
  }

  /** The three breaks, an empty line and an unended last line, on small texts. */
  lemma {:induction false} SplitLinesExamples()
    ensures SplitLines("a\rbc") == ["a", "bc"]
    ensures SplitLines("a\r\nb\n") == ["a", "b"]
    ensures SplitLines("a\n\r\nb") == ["a", "", "b"]
  {
    assert Terminated(["a", "bc"], ["\r", ""]) == "a\rbc";
    SplitTerminated(["a", "bc"], ["\r", ""]);
    assert Terminated(["a", "b"], ["\r\n", "\n"]) == "a\r\nb\n";
    SplitTerminated(["a", "b"], ["\r\n", "\n"]);
    assert Terminated(["a", "", "b"], ["\n", "\r\n", ""]) == "a\n\r\nb";
    SplitTerminated(["a", "", "b"], ["\n", "\r\n", ""]);
  }

  /** Every text is its lines written back with their endings. */
  lemma {:induction false} TerminatedOfSplit(s: string)
    ensures WellEnded(SplitLines(s), LineEndings(s))
    ensures Terminated(SplitLines(s), LineEndings(s)) == s
    decreases |s|
  {
    if s != [] {
      var k := LineEnd(s);
      if k == |s| {
        assert s[..k] == s;
        assert Terminated([s], [""]) == s + "" + [];
      } else {
        var next := BreakEnd(s, k);
        TerminatedOfSplit(s[next..]);
        SplitStep(s, k, next);
      }
    }
  }

  /** The step of `TerminatedOfSplit`: the first line and its break, in front of the rest. */
  lemma SplitStep(s: string, k: nat, next: nat)
    requires s != [] && k == LineEnd(s) < |s| && next == BreakEnd(s, k)
    requires WellEnded(SplitLines(s[next..]), LineEndings(s[next..]))
    requires Terminated(SplitLines(s[next..]), LineEndings(s[next..])) == s[next..]
    ensures WellEnded(SplitLines(s), LineEndings(s))
    ensures Terminated(SplitLines(s), LineEndings(s)) == s
  {
    var t := s[next..];
    var e := s[k..next];
    BreakIsEnding(s, k);
    if SplitLines(t) != [] && SplitLines(t)[0] == [] {
      EmptyFirstLine(t);
      assert t[0] == s[next];
    }
    ConsWellEnded(s[..k], e, SplitLines(t), LineEndings(t));
    assert SplitLines(s) == [s[..k]] + SplitLines(t);
    assert LineEndings(s) == [e] + LineEndings(t);
    SliceJoin(s, k, next);
  }

  lemma SliceJoin(s: string, k: nat, n: nat)
    requires k <= n <= |s|
    ensures s[..k] + s[k..n] + s[n..] == s
  {
    assert s[..k] + s[k..n] == s[..n];
  }

  /** The text of one break is one of the three endings. */
  lemma BreakIsEnding(s: string, k: nat)
    requires k < |s| && IsLineBreak(s[k])
    ensures IsLineEnding(s[k..BreakEnd(s, k)])
    ensures s[k..BreakEnd(s, k)] == "\r" ==> !(BreakEnd(s, k) < |s| && s[BreakEnd(s, k)] == '\n')
  {
    if BreakEnd(s, k) == k + 2 {
      assert s[k..k + 2] == [s[k], s[k + 1]];
    } else {
      assert s[k..k + 1] == [s[k]];
    }
  }

  /** A line with a break ending, in front of well-ended lines, is well ended. */
  lemma ConsWellEnded(l: string, e: string, lines: seq<string>, ends: seq<string>)
    requires HasNoLineBreak(l) && IsLineEnding(e) && WellEnded(lines, ends)
    requires lines != [] ==> !(e == "\r" && lines[0] == [] && ends[0] == "\n")
    ensures WellEnded([l] + lines, [e] + ends)
    ensures Terminated([l] + lines, [e] + ends) == l + e + Terminated(lines, ends)
  {
    assert ([l] + lines)[1..] == lines && ([e] + ends)[1..] == ends;
  }

  /** When the first piece is empty, the text starts with its ending. */
  lemma EmptyFirstLine(t: string)
    requires SplitLines(t) != [] && SplitLines(t)[0] == []
    ensures t != [] && LineEndings(t)[0] != [] && LineEndings(t)[0][0] == t[0]
  {
  }

  lemma LineEndNoBreak(l: string)
    requires HasNoLineBreak(l)
    ensures LineEnd(l) == |l|
  {
  }

  lemma LineEndOfLine(l: string, t: string)
    requires HasNoLineBreak(l) && t != [] && IsLineBreak(t[0])
    ensures LineEnd(l + t) == |l|
  {
    var s := l + t;
    assert s[|l|] == t[0];
    assert forall i :: 0 <= i < |l| ==> s[i] == l[i];
  }

  /** Python's `"\n".join(lines)`. */
  function JoinLines(lines: seq<string>): string {
    if lines == [] then []
    else if |lines| == 1 then lines[0]
    else lines[0] + "\n" + JoinLines(lines[1..])
  }

  /** When no line is empty, the joined text is empty exactly when there are no lines. */
  lemma {:induction false} JoinLinesEmpty(lines: seq<string>)
    requires forall j :: 0 <= j < |lines| ==> lines[j] != []
    ensures JoinLines(lines) == [] <==> lines == []
  {
    if |lines| == 1 {
      assert JoinLines(lines) == lines[0];
    } else if |lines| > 1 {
      assert |JoinLines(lines)| >= |lines[0]|;
    }
  }
}
