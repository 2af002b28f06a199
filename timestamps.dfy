/**
 * Timestamps: the fixed-width shape the log pattern captures and the two
 * formats `%Y-%m-%d %H:%M:%S,%f` and `%Y-%m-%d %H:%M:%S` it is converted with.
 */
module Timestamps {
  import opened Wrappers

  predicate IsDigit(c: char) {
    '0' <= c <= '9'
  }

  predicate AllDigits(s: string) {
    forall i :: 0 <= i < |s| ==> IsDigit(s[i])
  }

  /** `\d{4}-\d{2}-\d{2}`, the shape of `%Y-%m-%d` with two-digit fields. */
  predicate IsDateShaped(d: string) {
    |d| == 10 && AllDigits(d[0..4]) && d[4] == '-' && AllDigits(d[5..7]) && d[7] == '-' && AllDigits(d[8..10])
  }

  /** `\d{2}:\d{2}:\d{2}`, the shape of `%H:%M:%S` with two-digit fields. */
  predicate IsClockShaped(c: string) {
    |c| == 8 && AllDigits(c[0..2]) && c[2] == ':' && AllDigits(c[3..5]) && c[5] == ':' && AllDigits(c[6..8])
  }

  /** `\d{4}-\d{2}-\d{2} \d{2}:\d{2}:\d{2}`, the shape of `%Y-%m-%d %H:%M:%S`. */
  predicate IsSecondsShaped(s: string) {
    |s| == 19 && IsDateShaped(s[..10]) && s[10] == ' ' && IsClockShaped(s[11..])
  }

  /** The seconds shape followed by `,\d{3}`, the shape of `%Y-%m-%d %H:%M:%S,%f` with three fraction digits. */
  predicate IsMillisShaped(s: string) {
    |s| == 23 && IsSecondsShaped(s[..19]) && s[19] == ',' && AllDigits(s[20..23])
  }

  /** A calendar date-time with millisecond precision. */
  datatype DateTime = DateTime(year: int, month: int, day: int, hour: int, minute: int, second: int, millisecond: int)

  predicate IsLeapYear(y: int) {
    y % 4 == 0 && (y % 100 != 0 || y % 400 == 0)
  }

  function DaysInMonth(y: int, m: int): int {
    if m == 2 then (if IsLeapYear(y) then 29 else 28)
    else if m == 4 || m == 6 || m == 9 || m == 11 then 30
    else 31
  }

  /**
   * The fields in order of significance as one number; among date-times whose
   * fields are in range it orders them chronologically.
   */
  function Instant(t: DateTime): int {
    ((((((t.year * 13 + t.month) * 32 + t.day) * 24 + t.hour) * 60 + t.minute) * 60 + t.second) * 1000) + t.millisecond
  }

  /**
   * The first and last millisecond inside the range of a nanosecond timestamp,
   * 1677-09-21 00:12:43.145224193 to 2262-04-11 23:47:16.854775807.
   */
  const EarliestInstant: DateTime := DateTime(1677, 9, 21, 0, 12, 43, 146)
  const LatestInstant: DateTime := DateTime(2262, 4, 11, 23, 47, 16, 854)

  /**
   * What the conversion accepts: a calendar date-time whose fields are in
   * range and that falls inside the nanosecond timestamp range.
   */
  predicate ValidDateTime(t: DateTime) {
    && 1677 <= t.year <= 2262
    && 1 <= t.month <= 12
    && 1 <= t.day <= DaysInMonth(t.year, t.month)
    && 0 <= t.hour < 24
    && 0 <= t.minute < 60
    && 0 <= t.second < 60
    && 0 <= t.millisecond < 1000
    && Instant(EarliestInstant) <= Instant(t) <= Instant(LatestInstant)
  }

  /** The value of a decimal digit. */
  function DigitValue(c: char): nat {
    if IsDigit(c) then c as int - '0' as int else 0
  }

  /** The number a string of decimal digits denotes. */
  function DecimalValue(s: string): nat {
    if s == [] then 0 else DecimalValue(s[..|s| - 1]) * 10 + DigitValue(s[|s| - 1])
  }

  function Pow10(k: nat): nat {
    if k == 0 then 1 else 10 * Pow10(k - 1)
  }

  /** `n` written with exactly `width` digits, zero-padded on the left. */
  function Decimal(n: nat, width: nat): string {
    if width == 0 then [] else Decimal(n / 10, width - 1) + [('0' as int + n % 10) as char]
  }

  /** Reading back a number written in enough digits gives the number. */
  lemma {:induction false} DecimalRoundTrip(n: nat, width: nat)
    requires n < Pow10(width)
    ensures |Decimal(n, width)| == width && AllDigits(Decimal(n, width))
    ensures DecimalValue(Decimal(n, width)) == n
  {
    if width > 0 {
      DecimalRoundTrip(n / 10, width - 1);
      var s := Decimal(n, width);
      assert s[..|s| - 1] == Decimal(n / 10, width - 1);
    }
  }

  /** Writing back the number a digit string denotes, in as many digits, gives the string. */
  lemma {:induction false} DecimalValueRoundTrip(s: string)
    requires AllDigits(s)
    ensures 0 <= DecimalValue(s) < Pow10(|s|)
    ensures Decimal(DecimalValue(s), |s|) == s
  {
    if s != [] {
      var init := s[..|s| - 1];
      DecimalValueRoundTrip(init);
      var n := DecimalValue(s);
      assert n / 10 == DecimalValue(init);
      assert n % 10 == DigitValue(s[|s| - 1]);
      assert s == init + [s[|s| - 1]];
    }
  }

  /** The fields at their fixed positions; three millisecond digits follow a comma at position 19. */
  function FieldsOf(s: string): DateTime
    requires |s| >= 19
  {
    var date, clock := s[..10], s[11..19];
    DateTime(DecimalValue(date[0..4]), DecimalValue(date[5..7]), DecimalValue(date[8..10]),
             DecimalValue(clock[0..2]), DecimalValue(clock[3..5]), DecimalValue(clock[6..8]),
             if |s| >= 23 then DecimalValue(s[20..23]) else 0)
  }

  /** `to_datetime(s, format='%Y-%m-%d %H:%M:%S,%f', errors='coerce')` on the captured shape. */
  function ParseMillis(s: string): Option<DateTime> {
    if IsMillisShaped(s) && ValidDateTime(FieldsOf(s)) then Some(FieldsOf(s)) else None
  }

  /** `to_datetime(s, format='%Y-%m-%d %H:%M:%S', errors='coerce')` on the captured shape. */
  function ParseSeconds(s: string): Option<DateTime> {
    if IsSecondsShaped(s) && ValidDateTime(FieldsOf(s)) then Some(FieldsOf(s)) else None
  }

  /** One cell of the millisecond pass over the column; a missing string stays missing. */
  function MillisCell(s: Option<string>): Option<DateTime> {
    if s.Some? then ParseMillis(s.value) else None
  }

  /** One cell of the seconds pass over the column; a missing string stays missing. */
  function SecondsCell(s: Option<string>): Option<DateTime> {
    if s.Some? then ParseSeconds(s.value) else None
  }

  /** The millisecond format first, the seconds format for what it left unparsed; no string, no time. */
  function ParseTimestamp(s: Option<string>): Option<DateTime> {
    if MillisCell(s).Some? then MillisCell(s) else SecondsCell(s)
  }

  function FormatDate(t: DateTime): string
    requires ValidDateTime(t)
  {
    Decimal(t.year, 4) + "-" + Decimal(t.month, 2) + "-" + Decimal(t.day, 2)
  }

  function FormatClock(t: DateTime): string
    requires ValidDateTime(t)
  {
    Decimal(t.hour, 2) + ":" + Decimal(t.minute, 2) + ":" + Decimal(t.second, 2)
  }

  /** `t.strftime('%Y-%m-%d %H:%M:%S')`. */
  function FormatSeconds(t: DateTime): string
    requires ValidDateTime(t)
  {
    FormatDate(t) + " " + FormatClock(t)
  }

  /** `t.strftime('%Y-%m-%d %H:%M:%S,')` followed by the three millisecond digits. */
  function FormatMillis(t: DateTime): string
    requires ValidDateTime(t)
  {
    FormatSeconds(t) + "," + Decimal(t.millisecond, 3)
  }

  /** Three fields joined by a separator sit at fixed positions. */
  lemma ThreeFields(a: string, b: string, c: string, sep: string)
    requires |sep| == 1
    ensures var s := a + sep + b + sep + c;
      && |s| == |a| + |b| + |c| + 2
      && s[0..|a|] == a && s[|a|] == sep[0]
      && s[|a| + 1..|a| + 1 + |b|] == b && s[|a| + 1 + |b|] == sep[0]
      && s[|a| + |b| + 2..|s|] == c
  {
    var s := a + sep + b + sep + c;
    assert s == a + (sep + (b + (sep + c)));
  }

  lemma FormatDateReadsBack(t: DateTime)
    requires ValidDateTime(t)
    ensures IsDateShaped(FormatDate(t))
    ensures DecimalValue(FormatDate(t)[0..4]) == t.year
    ensures DecimalValue(FormatDate(t)[5..7]) == t.month
    ensures DecimalValue(FormatDate(t)[8..10]) == t.day
  {
    DecimalRoundTrip(t.year, 4);
    DecimalRoundTrip(t.month, 2);
    DecimalRoundTrip(t.day, 2);
    ThreeFields(Decimal(t.year, 4), Decimal(t.month, 2), Decimal(t.day, 2), "-");
  }

  lemma FormatClockReadsBack(t: DateTime)
    requires ValidDateTime(t)
    ensures IsClockShaped(FormatClock(t))
    ensures DecimalValue(FormatClock(t)[0..2]) == t.hour
    ensures DecimalValue(FormatClock(t)[3..5]) == t.minute
    ensures DecimalValue(FormatClock(t)[6..8]) == t.second
  {
    DecimalRoundTrip(t.hour, 2);
    DecimalRoundTrip(t.minute, 2);
    DecimalRoundTrip(t.second, 2);
    ThreeFields(Decimal(t.hour, 2), Decimal(t.minute, 2), Decimal(t.second, 2), ":");
  }

  /** Formatting writes the fixed-width seconds shape, and its fields read back as the date-time. */
  lemma FormatSecondsReadsBack(t: DateTime)
    requires ValidDateTime(t)
    ensures IsSecondsShaped(FormatSeconds(t))
    ensures FieldsOf(FormatSeconds(t)) == t.(millisecond := 0)
  {
    FormatDateReadsBack(t);
    FormatClockReadsBack(t);
    var s := FormatSeconds(t);
    assert s[..10] == FormatDate(t);
    assert s[11..] == FormatClock(t);
    assert s[11..19] == FormatClock(t);
  }

  /** A valid date-time without milliseconds survives formatting and the seconds format. */
  lemma ParseSecondsOfFormat(t: DateTime)
    requires ValidDateTime(t) && t.millisecond == 0
    ensures ParseSeconds(FormatSeconds(t)) == Some(t)
  {
    FormatSecondsReadsBack(t);
  }

  /** A valid date-time survives formatting and the millisecond format. */
  lemma ParseMillisOfFormat(t: DateTime)
    requires ValidDateTime(t)
    ensures ParseMillis(FormatMillis(t)) == Some(t)
  {
    FormatSecondsReadsBack(t);
    DecimalRoundTrip(t.millisecond, 3);
    var head := FormatSeconds(t);
    var s := FormatMillis(t);
    assert s[..19] == head;
    assert s[..10] == head[..10];
    assert s[11..19] == head[11..19];
    assert s[20..23] == Decimal(t.millisecond, 3);
  }

  lemma DateOfFields(s: string)
    requires |s| >= 19 && IsDateShaped(s[..10]) && ValidDateTime(FieldsOf(s))
    ensures FormatDate(FieldsOf(s)) == s[..10]
  {
    var d := s[..10];
    DecimalValueRoundTrip(d[0..4]);
    DecimalValueRoundTrip(d[5..7]);
    DecimalValueRoundTrip(d[8..10]);
    assert d == d[0..4] + [d[4]] + d[5..7] + [d[7]] + d[8..10];
  }

  lemma ClockOfFields(s: string)
    requires |s| >= 19 && IsClockShaped(s[11..19]) && ValidDateTime(FieldsOf(s))
    ensures FormatClock(FieldsOf(s)) == s[11..19]
  {
    var c := s[11..19];
    DecimalValueRoundTrip(c[0..2]);
    DecimalValueRoundTrip(c[3..5]);
    DecimalValueRoundTrip(c[6..8]);
    assert c == c[0..2] + [c[2]] + c[3..5] + [c[5]] + c[6..8];
  }

  /** What the seconds format accepts is the formatting of what it returns. */
  lemma FormatOfParseSeconds(s: string)
    requires ParseSeconds(s).Some?
    ensures FormatSeconds(ParseSeconds(s).value) == s
  {
    assert s[11..] == s[11..19];
    DateOfFields(s);
    ClockOfFields(s);
    assert s == s[..10] + [s[10]] + s[11..19];
  }

  /** What the millisecond format accepts is the formatting of what it returns. */
  lemma FormatOfParseMillis(s: string)
    requires ParseMillis(s).Some?
    ensures FormatMillis(ParseMillis(s).value) == s
  {
    MillisShapeParts(s);
    DateOfFields(s);
    ClockOfFields(s);
    DecimalValueRoundTrip(s[20..23]);
    MillisJoin(s);
  }

  /** The date, the clock and the fraction of the millisecond shape, each at its place. */
  lemma MillisShapeParts(s: string)
    requires IsMillisShaped(s)
    ensures IsDateShaped(s[..10]) && s[10] == ' ' && IsClockShaped(s[11..19])
    ensures s[19] == ',' && AllDigits(s[20..23])
  {
    var head := s[..19];
    assert head[..10] == s[..10] && head[11..] == s[11..19] && head[10] == s[10];
  }

  /** A 23-character string is its date, a space, its clock, a comma and its fraction. */
  lemma MillisJoin(s: string)
    requires |s| == 23 && s[10] == ' ' && s[19] == ','
    ensures s[..10] + " " + s[11..19] + "," + s[20..23] == s
  {
  }

  /**
   * On either captured shape the conversion succeeds exactly when the fields
   * form a valid date-time, and then yields those fields.
   */
  lemma ParseTimestampOfShape(s: string)
    requires IsMillisShaped(s) || IsSecondsShaped(s)
    ensures ParseTimestamp(Some(s)).Some? <==> ValidDateTime(FieldsOf(s))
    ensures ParseTimestamp(Some(s)).Some? ==> ParseTimestamp(Some(s)).value == FieldsOf(s)
    ensures IsSecondsShaped(s) ==> FieldsOf(s).millisecond == 0
  {
  }

  /** The timestamp of an error line of the sample log in `ai_logic.py`: 25 June 2024, 10:00:22.333. */
  lemma ExampleTimestamp()
    ensures ParseTimestamp(Some("2024-06-25 10:00:22,333")) == Some(DateTime(2024, 6, 25, 10, 0, 22, 333))
  {
    var t := DateTime(2024, 6, 25, 10, 0, 22, 333);
    ExampleFormatted(t);
    ParseMillisOfFormat(t);
  }

  lemma ExampleFormatted(t: DateTime)
    requires t == DateTime(2024, 6, 25, 10, 0, 22, 333)
    ensures ValidDateTime(t) && FormatMillis(t) == "2024-06-25 10:00:22,333"
  {
    ExampleDate(t);
    ExampleClock(t);
    TwoDigits(33);
    assert Decimal(333, 3) == Decimal(33, 2) + ['3'];
    ExampleJoined(FormatDate(t), FormatClock(t), Decimal(t.millisecond, 3));
  }

  lemma ExampleJoined(date: string, clock: string, millis: string)
    requires date == "2024-06-25" && clock == "10:00:22" && millis == "333"
    ensures date + " " + clock + "," + millis == "2024-06-25 10:00:22,333"
  {
  }

  lemma ExampleDate(t: DateTime)
    requires t == DateTime(2024, 6, 25, 10, 0, 22, 333)
    ensures ValidDateTime(t) && FormatDate(t) == "2024-06-25"
  {
    TwoDigits(20);
    TwoDigits(24);
    assert Decimal(2024, 4) == Decimal(20, 2) + Decimal(24, 2);
    TwoDigits(6);
    TwoDigits(25);
  }

  lemma ExampleClock(t: DateTime)
    requires t == DateTime(2024, 6, 25, 10, 0, 22, 333)
    ensures ValidDateTime(t) && FormatClock(t) == "10:00:22"
  {
    TwoDigits(10);
    TwoDigits(0);
    TwoDigits(22);
  }

  /** A number below 100 written in two digits. */
  lemma TwoDigits(n: nat)
    requires n < 100
    ensures Decimal(n, 2) == [('0' as int + n / 10) as char, ('0' as int + n % 10) as char]
  {
    assert Decimal(n / 10, 1) == [('0' as int + n / 10) as char];
  }

}
