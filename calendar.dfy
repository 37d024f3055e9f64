/**
 * The timestamp handling of the tracking page: the fixed-width date and time
 * patterns, `datetime.strptime(f"{date} {time}", "%d/%m/%y %H:%M")` and
 * `datetime.isoformat()` for a value with no seconds or microseconds.
 */
module Calendar {
  import opened Wrappers
  import opened Text

  datatype DateTime = DateTime(year: int, month: int, day: int, hour: int, minute: int)

  predicate IsLeapYear(y: int) {
    (y % 4 == 0 && y % 100 != 0) || y % 400 == 0
  }

  function DaysInMonth(y: int, m: int): int
    requires 1 <= m <= 12
  {
    if m == 2 then (if IsLeapYear(y) then 29 else 28)
    else if m == 4 || m == 6 || m == 9 || m == 11 then 30
    else 31
  }

  /** A calendar date with a time of day, as `datetime` accepts it. */
  predicate Valid(dt: DateTime) {
    && 1 <= dt.month <= 12
    && 1 <= dt.day <= DaysInMonth(dt.year, dt.month)
    && 0 <= dt.hour <= 23
    && 0 <= dt.minute <= 59
  }

  /** The pattern `\d{2}/\d{2}/\d{2}` starts at position `i` of `s`. */
  predicate DateAt(s: string, i: nat) {
    && i + 8 <= |s|
    && IsDigit(s[i]) && IsDigit(s[i + 1]) && s[i + 2] == '/'
    && IsDigit(s[i + 3]) && IsDigit(s[i + 4]) && s[i + 5] == '/'
    && IsDigit(s[i + 6]) && IsDigit(s[i + 7])
  }

  /** The pattern `\d{2}:\d{2}` starts at position `i` of `s`. */
  predicate TimeAt(s: string, i: nat) {
    && i + 5 <= |s|
    && IsDigit(s[i]) && IsDigit(s[i + 1]) && s[i + 2] == ':'
    && IsDigit(s[i + 3]) && IsDigit(s[i + 4])
  }

  /** Exactly the text of one date match, e.g. "20/11/25". */
  predicate IsDateText(d: string) {
    |d| == 8 && DateAt(d, 0)
  }

  /** Exactly the text of one time match, e.g. "10:30". */
  predicate IsTimeText(t: string) {
    |t| == 5 && TimeAt(t, 0)
  }

  function TwoDigits(a: char, b: char): nat
    requires IsDigit(a) && IsDigit(b)
  {
    10 * DigitValue(a) + DigitValue(b)
  }

  /** `%y`: 00-68 are years 2000-2068, 69-99 are years 1969-1999. */
  function FullYear(yy: nat): int {
    if yy <= 68 then 2000 + yy else 1900 + yy
  }

  /**
   * strptime on "DD/MM/YY HH:MM". The directives accept day 01-31, month
   * 01-12, hour 00-23 and minute 00-59; the date must then exist in the
   * calendar. Any other value raises ValueError, modelled as None.
   */
  function ParseTimestamp(date: string, time: string): (r: Option<DateTime>)
    requires IsDateText(date) && IsTimeText(time)
    ensures r.Some? ==> Valid(r.value) && 1969 <= r.value.year <= 2068
  {
    var day := TwoDigits(date[0], date[1]);
    var month := TwoDigits(date[3], date[4]);
    var year := FullYear(TwoDigits(date[6], date[7]));
    var hour := TwoDigits(time[0], time[1]);
    var minute := TwoDigits(time[3], time[4]);
    var dt := DateTime(year, month, day, hour, minute);
    if Valid(dt) then Some(dt) else None
  }

  function Pad2(n: nat): (r: string)
    requires n < 100
  {
    [DigitChar(n / 10), DigitChar(n % 10)]
  }

  function Pad4(n: nat): (r: string)
    requires n < 10000
  {
    Pad2(n / 100) + Pad2(n % 100)
  }

  /** `datetime.isoformat()` of a value whose seconds are zero: "YYYY-MM-DDTHH:MM:00". */
  function IsoFormat(dt: DateTime): (r: string)
    requires Valid(dt) && 0 <= dt.year < 10000
    ensures |r| == 19
  {
    Pad4(dt.year) + "-" + Pad2(dt.month) + "-" + Pad2(dt.day)
    + "T" + Pad2(dt.hour) + ":" + Pad2(dt.minute) + ":00"
  }

  /** The carrier's text for a timestamp: "DD/MM/YY" and "HH:MM". */
  function DateText(dt: DateTime): string
    requires Valid(dt) && 1969 <= dt.year <= 2068
  {
    Pad2(dt.day) + "/" + Pad2(dt.month) + "/" + Pad2(dt.year % 100)
  }

  function TimeText(dt: DateTime): string
    requires Valid(dt)
  {
    Pad2(dt.hour) + ":" + Pad2(dt.minute)
  }

  lemma Pad2Digits(n: nat)
    requires n < 100
    ensures IsDigit(Pad2(n)[0]) && IsDigit(Pad2(n)[1])
    ensures TwoDigits(Pad2(n)[0], Pad2(n)[1]) == n
  {
  }

  /** Where the characters of "DD/MM/YY" come from. */
  lemma DateTextLayout(dt: DateTime)
    requires Valid(dt) && 1969 <= dt.year <= 2068
    ensures var d := DateText(dt);
      && |d| == 8 && d[2] == '/' && d[5] == '/'
      && d[0] == Pad2(dt.day)[0] && d[1] == Pad2(dt.day)[1]
      && d[3] == Pad2(dt.month)[0] && d[4] == Pad2(dt.month)[1]
      && d[6] == Pad2(dt.year % 100)[0] && d[7] == Pad2(dt.year % 100)[1]
  {
  }

  /** Where the characters of "HH:MM" come from. */
  lemma TimeTextLayout(dt: DateTime)
    requires Valid(dt)
    ensures var t := TimeText(dt);
      && |t| == 5 && t[2] == ':'
      && t[0] == Pad2(dt.hour)[0] && t[1] == Pad2(dt.hour)[1]
      && t[3] == Pad2(dt.minute)[0] && t[4] == Pad2(dt.minute)[1]
  {
  }

  /** The date text is a date match whose groups read back as the day, the month and the year. */
  lemma DateTextFields(dt: DateTime)
    requires Valid(dt) && 1969 <= dt.year <= 2068
    ensures var d := DateText(dt);
      && IsDateText(d)
      && TwoDigits(d[0], d[1]) == dt.day && TwoDigits(d[3], d[4]) == dt.month
      && FullYear(TwoDigits(d[6], d[7])) == dt.year
  {
    DateTextLayout(dt);
    Pad2Digits(dt.day);
    Pad2Digits(dt.month);
    Pad2Digits(dt.year % 100);
  }

  /** The time text is a time match whose groups read back as the hour and the minute. */
  lemma TimeTextFields(dt: DateTime)
    requires Valid(dt)
    ensures var t := TimeText(dt);
      && IsTimeText(t) && TwoDigits(t[0], t[1]) == dt.hour && TwoDigits(t[3], t[4]) == dt.minute
  {
    TimeTextLayout(dt);
    Pad2Digits(dt.hour);
    Pad2Digits(dt.minute);
  }

  /** Every timestamp the carrier can print parses back to itself. */
  lemma ParseDateText(dt: DateTime)
    requires Valid(dt) && 1969 <= dt.year <= 2068
    ensures IsDateText(DateText(dt)) && IsTimeText(TimeText(dt))
    ensures ParseTimestamp(DateText(dt), TimeText(dt)) == Some(dt)
  {
    DateTextFields(dt);
    TimeTextFields(dt);
  }

  lemma Pad2OfDigits(a: char, b: char)
    requires IsDigit(a) && IsDigit(b)
    ensures Pad2(TwoDigits(a, b)) == [a, b]
  {
    var n := TwoDigits(a, b);
    assert n / 10 == DigitValue(a) && n % 10 == DigitValue(b);
  }

  /** A date text is its three two-character groups around the slashes. */
  lemma DateTextGroups(date: string)
    requires IsDateText(date)
    ensures date == [date[0], date[1]] + "/" + [date[3], date[4]] + "/" + [date[6], date[7]]
  {
  }

  lemma TimeTextGroups(time: string)
    requires IsTimeText(time)
    ensures time == [time[0], time[1]] + ":" + [time[3], time[4]]
  {
  }

  /** The groups of a date text print back as the text. */
  lemma DateGroupsPrintBack(date: string, dt: DateTime)
    requires IsDateText(date) && Valid(dt) && 1969 <= dt.year <= 2068
    requires dt.day == TwoDigits(date[0], date[1]) && dt.month == TwoDigits(date[3], date[4])
    requires dt.year % 100 == TwoDigits(date[6], date[7])
    ensures date == DateText(dt)
  {
    Pad2OfDigits(date[0], date[1]);
    Pad2OfDigits(date[3], date[4]);
    Pad2OfDigits(date[6], date[7]);
    DateTextGroups(date);
  }

  /** The groups of a time text print back as the text. */
  lemma TimeGroupsPrintBack(time: string, dt: DateTime)
    requires IsTimeText(time) && Valid(dt)
    requires dt.hour == TwoDigits(time[0], time[1]) && dt.minute == TwoDigits(time[3], time[4])
    ensures time == TimeText(dt)
  {
    Pad2OfDigits(time[0], time[1]);
    Pad2OfDigits(time[3], time[4]);
    TimeTextGroups(time);
  }

  /** Conversely, a successful parse read exactly the text the timestamp prints as. */
  lemma ParsedTextIsDateText(date: string, time: string)
    requires IsDateText(date) && IsTimeText(time)
    requires ParseTimestamp(date, time).Some?
    ensures date == DateText(ParseTimestamp(date, time).value)
    ensures time == TimeText(ParseTimestamp(date, time).value)
  {
    var dt := ParseTimestamp(date, time).value;
    assert dt.year % 100 == TwoDigits(date[6], date[7]);
    DateGroupsPrintBack(date, dt);
    TimeGroupsPrintBack(time, dt);
  }

  /** The ISO text carries every field: its digit groups read back as the fields. */
  lemma IsoFormatFields(dt: DateTime)
    requires Valid(dt) && 0 <= dt.year < 10000
    ensures var r := IsoFormat(dt);
      && r[4] == '-' && r[7] == '-' && r[10] == 'T' && r[13] == ':' && r[16] == ':'
      && r[17..] == "00"
      && IsDigit(r[0]) && IsDigit(r[1]) && IsDigit(r[2]) && IsDigit(r[3])
      && 100 * TwoDigits(r[0], r[1]) + TwoDigits(r[2], r[3]) == dt.year
      && IsDigit(r[5]) && IsDigit(r[6]) && TwoDigits(r[5], r[6]) == dt.month
      && IsDigit(r[8]) && IsDigit(r[9]) && TwoDigits(r[8], r[9]) == dt.day
      && IsDigit(r[11]) && IsDigit(r[12]) && TwoDigits(r[11], r[12]) == dt.hour
      && IsDigit(r[14]) && IsDigit(r[15]) && TwoDigits(r[14], r[15]) == dt.minute
  {
    Pad2Digits(dt.year / 100);
    Pad2Digits(dt.year % 100);
    Pad2Digits(dt.month);
    Pad2Digits(dt.day);
    Pad2Digits(dt.hour);
    Pad2Digits(dt.minute);
  }

  /** "20/11/25 10:30" is 20 November 2025, 10:30 ... */
  lemma ParseExample()
    ensures IsDateText("20/11/25") && IsTimeText("10:30")
    ensures ParseTimestamp("20/11/25", "10:30") == Some(DateTime(2025, 11, 20, 10, 30))
  {
  }

  /** ... which `isoformat()` writes as 2025-11-20T10:30:00. */
  lemma IsoFormatExample()
    ensures IsoFormat(DateTime(2025, 11, 20, 10, 30)) == "2025-11-20T10:30:00"
  {
  }

  /** 31 February does not exist, 29 February does only in a leap year. */
  lemma ParseRejectsMissingDates()
    ensures ParseTimestamp("31/02/25", "10:30") == None
    ensures ParseTimestamp("29/02/25", "10:30") == None
    ensures ParseTimestamp("29/02/24", "10:30") == Some(DateTime(2024, 2, 29, 10, 30))
    ensures ParseTimestamp("20/11/25", "24:00") == None
    ensures ParseTimestamp("01/01/69", "00:00") == Some(DateTime(1969, 1, 1, 0, 0))
  {
  }
}
