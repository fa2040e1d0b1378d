/**
 * `formatDate` and `formatTime` of src/formatters.ts: the calendar and clock
 * fields of an instant rendered as decimal numbers, all but the year padded
 * to two characters, joined with a separator that defaults to "-".
 */
module Formatters {
  import opened Text

  /**
   * The fields the formatters read from a JavaScript `Date`. `monthIndex` is
   * what `getMonth()` returns (0 for January); how the fields come from one
   * clock reading (UTC or local time) is not part of the model.
   */
  datatype DateTime = DateTime(year: nat, monthIndex: nat, day: nat, hours: nat, minutes: nat, seconds: nat)

  /** The clock fields are in the ranges a `Date` produces. */
  predicate IsClockTime(t: DateTime) {
    t.hours < 24 && t.minutes < 60 && t.seconds < 60
  }

  const DefaultSeparator: string := "-"

  /** A field as `n.toString().padStart(2, "0")`. */
  function Field2(n: nat): (r: string)
    ensures AllDigits(r) && |r| >= 2
    ensures n < 10 ==> r == "0" + NatToDecimal(n)
    ensures n >= 10 ==> r == NatToDecimal(n)
    ensures n < 100 ==> |r| == 2
  {
    Pad2(NatToDecimal(n))
  }

  /** A padded field still denotes the number it was made from. */
  lemma Field2Value(n: nat)
    ensures DecimalValue(Field2(n)) == n
  {
    DecimalRoundTrip(n);
    if n < 10 {
      LeadingZero(NatToDecimal(n));
    }
  }

  /** `formatDate(date, separator)`: year, month and day of the month joined by `separator`. */
  function FormatDate(date: DateTime, separator: string := DefaultSeparator): (r: string)
    ensures r == NatToDecimal(date.year) + separator + Field2(date.monthIndex + 1) + separator + Field2(date.day)
  {
    var day := Field2(date.day);
    var month := Field2(date.monthIndex + 1);
    var year := NatToDecimal(date.year);
    JoinThree(year, month, day, separator);
    Join([year, month, day], separator)
  }

  /** `formatTime(date, separator)`: hours, minutes and seconds joined by `separator`. */
  function FormatTime(date: DateTime, separator: string := DefaultSeparator): (r: string)
    ensures r == Field2(date.hours) + separator + Field2(date.minutes) + separator + Field2(date.seconds)
  {
    var hours := Field2(date.hours);
    var minutes := Field2(date.minutes);
    var seconds := Field2(date.seconds);
    JoinThree(hours, minutes, seconds, separator);
    Join([hours, minutes, seconds], separator)
  }

  /** Without a separator argument both formatters join with "-". */
  lemma DefaultSeparatorIsDash(date: DateTime)
    ensures FormatDate(date) == FormatDate(date, "-")
    ensures FormatTime(date) == FormatTime(date, "-")
  {
  }

  /** The month is the 0-based month index plus one, so January to December read "01" to "12". */
  lemma MonthField(monthIndex: nat)
    requires monthIndex < 12
    ensures var m := Field2(monthIndex + 1);
      |m| == 2 && (m[0] == '0' || m[0] == '1') && 1 <= DecimalValue(m) <= 12 && DecimalValue(m) == monthIndex + 1
  {
    Field2Value(monthIndex + 1);
  }

  /** A time of day with a one-character separator is eight characters long ("HH-MM-SS"). */
  lemma TimeLength(date: DateTime, separator: string)
    requires IsClockTime(date) && |separator| == 1
    ensures |FormatTime(date, separator)| == 8
  {
  }

  /**
   * With a separator that is one non-digit character, splitting a formatted
   * date on it gives exactly the three fields, whose values are the year, the
   * month (1-based) and the day.
   */
  lemma {:induction false} DateRoundTrip(date: DateTime, separator: string)
    requires |separator| == 1 && !IsDigit(separator[0])
    ensures var parts := Split(FormatDate(date, separator), separator[0]);
      && parts == [NatToDecimal(date.year), Field2(date.monthIndex + 1), Field2(date.day)]
      && DecimalValue(parts[0]) == date.year
      && DecimalValue(parts[1]) == date.monthIndex + 1
      && DecimalValue(parts[2]) == date.day
  {
    SplitDigitFields(NatToDecimal(date.year), Field2(date.monthIndex + 1), Field2(date.day), separator);
    DecimalRoundTrip(date.year);
    Field2Value(date.monthIndex + 1);
    Field2Value(date.day);
  }

  /**
   * With a separator that is one non-digit character, splitting a formatted
   * time on it gives exactly the three fields, whose values are the hours,
   * minutes and seconds.
   */
  lemma {:induction false} TimeRoundTrip(date: DateTime, separator: string)
    requires |separator| == 1 && !IsDigit(separator[0])
    ensures var parts := Split(FormatTime(date, separator), separator[0]);
      && parts == [Field2(date.hours), Field2(date.minutes), Field2(date.seconds)]
      && DecimalValue(parts[0]) == date.hours
      && DecimalValue(parts[1]) == date.minutes
      && DecimalValue(parts[2]) == date.seconds
  {
    SplitDigitFields(Field2(date.hours), Field2(date.minutes), Field2(date.seconds), separator);
    Field2Value(date.hours);
    Field2Value(date.minutes);
    Field2Value(date.seconds);
  }

  /** Three digit strings joined by a one-character non-digit separator split back into those strings. */
  lemma SplitDigitFields(a: string, b: string, c: string, separator: string)
    requires AllDigits(a) && AllDigits(b) && AllDigits(c)
    requires |separator| == 1 && !IsDigit(separator[0])
    ensures Split(a + separator + b + separator + c, separator[0]) == [a, b, c]
  {
    var parts := [a, b, c];
    NoDigitNotIn(separator[0], a);
    NoDigitNotIn(separator[0], b);
    NoDigitNotIn(separator[0], c);
    JoinThree(a, b, c, separator);
    assert [separator[0]] == separator;
    SplitJoin(parts, separator[0]);
  }

  lemma NoDigitNotIn(c: char, s: string)
    requires !IsDigit(c) && AllDigits(s)
    ensures c !in s
  {
  }
}
