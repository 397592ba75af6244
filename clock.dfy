/** The timestamps of message headers: the text shape `YYYY-MM-DD HH:MM:SS`, and what
    `datetime.strptime(text, "%Y-%m-%d %H:%M:%S")` makes of it, counted in whole seconds. */
module Clock {
  import opened Wrappers
  import opened Text

  /** The pattern `\d{4}-\d{2}-\d{2} \d{2}:\d{2}:\d{2}` on exactly the text `s`. */
  predicate TimestampShape(s: string) {
    && |s| == 19
    && IsDigits(s[0..4]) && s[4] == '-' && IsDigits(s[5..7]) && s[7] == '-' && IsDigits(s[8..10])
    && s[10] == ' '
    && IsDigits(s[11..13]) && s[13] == ':' && IsDigits(s[14..16]) && s[16] == ':' && IsDigits(s[17..19])
  }

  /** The same pattern matched at the start of a line (`re.match`, which needs no more than
      a prefix). */
  predicate TimestampPrefix(line: string) {
    |line| >= 19 && TimestampShape(line[..19])
  }

  datatype DateTime = DateTime(year: nat, month: nat, day: nat, hour: nat, minute: nat, second: nat)

  predicate IsLeap(year: int) {
    year % 4 == 0 && (year % 100 != 0 || year % 400 == 0)
  }

  function DaysInMonth(year: int, month: int): (n: int)
    requires 1 <= month <= 12
    ensures 28 <= n <= 31
  {
    if month == 2 then (if IsLeap(year) then 29 else 28)
    else if month == 4 || month == 6 || month == 9 || month == 11 then 30
    else 31
  }

  /** Days in the months of `year` before `month`. */
  function DaysBeforeMonth(year: int, month: int): nat
    requires 1 <= month <= 12
    decreases month
  {
    if month == 1 then 0 else DaysBeforeMonth(year, month - 1) + DaysInMonth(year, month - 1)
  }

  /** The calendar fields `strptime` accepts: a year from 1 (`datetime.MINYEAR`), a day that
      exists in its month, and a time of day up to 23:59:59. */
  predicate Valid(t: DateTime) {
    && 1 <= t.year && 1 <= t.month <= 12 && 1 <= t.day <= DaysInMonth(t.year, t.month)
    && t.hour < 24 && t.minute < 60 && t.second < 60
  }

  /** `date.toordinal()`: 0001-01-01 of the proleptic Gregorian calendar is day 1. */
  function Ordinal(t: DateTime): int
    requires Valid(t)
  {
    DaysBeforeYear(t.year) + DaysBeforeMonth(t.year, t.month) + t.day
  }

  /** Days in the years before `year`: 365 each, and one more for each leap year. */
  function DaysBeforeYear(year: int): int {
    var y := year - 1;
    365 * y + y / 4 - y / 100 + y / 400
  }

  /** Seconds since 0001-01-01 00:00:00; differences are `timedelta.total_seconds()`. */
  function Seconds(t: DateTime): int
    requires Valid(t)
  {
    (Ordinal(t) - 1) * 86400 + t.hour * 3600 + t.minute * 60 + t.second
  }

  /** The six numeric fields of a timestamp. */
  function Fields(s: string): DateTime
    requires TimestampShape(s)
  {
    DateTime(ParseNat(s[0..4]), ParseNat(s[5..7]), ParseNat(s[8..10]),
             ParseNat(s[11..13]), ParseNat(s[14..16]), ParseNat(s[17..19]))
  }

  /** `datetime.strptime(s, "%Y-%m-%d %H:%M:%S")` for a timestamp-shaped `s`, as seconds;
      None where it raises `ValueError` (year 0, month or day out of range, 24 o'clock,
      minute or second 60 and above). */
  function ParseTime(s: string): (r: Option<int>)
    requires TimestampShape(s)
    ensures r.Some? <==> Valid(Fields(s))
    ensures r.Some? ==> r.value == Seconds(Fields(s))
  {
    var t := Fields(s);
    if Valid(t) then Some(Seconds(t)) else None
  }

  /** Later in the same day means more seconds, by exactly the clock difference. */
  lemma SameDay(a: DateTime, b: DateTime)
    requires Valid(a) && Valid(b) && a.year == b.year && a.month == b.month && a.day == b.day
    ensures Seconds(b) - Seconds(a)
      == (b.hour - a.hour) * 3600 + (b.minute - a.minute) * 60 + (b.second - a.second)
  {
  }

  /** Every day counts 86400 seconds: the seconds of a time of day stay below the next day's. */
  lemma {:induction false} NextDay(a: DateTime, b: DateTime)
    requires Valid(a) && Valid(b) && Ordinal(a) < Ordinal(b)
    ensures Seconds(a) < Seconds(b)
  {
    assert a.hour * 3600 + a.minute * 60 + a.second < 86400;
  }

  // ---------------------------------------------------------------------------------------
  // The calendar behind the day count

  /** The calendar day after the date of `t`, at the same time of day. */
  function NextDate(t: DateTime): DateTime
    requires Valid(t)
  {
    if t.day < DaysInMonth(t.year, t.month) then t.(day := t.day + 1)
    else if t.month < 12 then t.(month := t.month + 1, day := 1)
    else t.(year := t.year + 1, month := 1, day := 1)
  }

  /** The days of a year: 366 in a leap year, 365 otherwise. */
  lemma YearLength(year: int)
    ensures DaysBeforeMonth(year, 12) + DaysInMonth(year, 12) == if IsLeap(year) then 366 else 365
  {
    assert DaysBeforeMonth(year, 3) == 31 + DaysInMonth(year, 2);
    assert DaysBeforeMonth(year, 7) == DaysBeforeMonth(year, 3) + 122;
    assert DaysBeforeMonth(year, 12) == DaysBeforeMonth(year, 7) + 153;
  }

  /** Moving from year `y - 1` to `y` passes one more multiple of 4 exactly when `y` is one. */
  lemma Fours(y: int)
    requires y >= 1
    ensures y / 4 - (y - 1) / 4 == if y % 4 == 0 then 1 else 0
  {
  }

  /** The same for multiples of 100. */
  lemma Hundreds(y: int)
    requires y >= 1
    ensures y / 100 - (y - 1) / 100 == if y % 100 == 0 then 1 else 0
  {
  }

  /** The same for multiples of 400. */
  lemma FourHundreds(y: int)
    requires y >= 1
    ensures y / 400 - (y - 1) / 400 == if y % 400 == 0 then 1 else 0
  {
  }

  /** A year adds its own length to the days before it. */
  lemma YearStep(year: int)
    requires year >= 1
    ensures DaysBeforeYear(year + 1) == DaysBeforeYear(year) + if IsLeap(year) then 366 else 365
  {
    Fours(year);
    Hundreds(year);
    FourHundreds(year);
    LeapCount(year);
    var y := year - 1;
    assert DaysBeforeYear(year + 1) == 365 * year + year / 4 - year / 100 + year / 400;
    assert DaysBeforeYear(year) == 365 * y + y / 4 - y / 100 + y / 400;
  }

  /** A leap year is a multiple of 4, less the multiples of 100, plus those of 400. */
  lemma LeapCount(year: int)
    ensures (if IsLeap(year) then 1 else 0)
      == (if year % 4 == 0 then 1 else 0) - (if year % 100 == 0 then 1 else 0) + (if year % 400 == 0 then 1 else 0)
  {
    if year % 100 == 0 {
      HundredIsFour(year);
    }
    if year % 400 == 0 {
      FourHundredIsHundred(year);
    }
  }

  /** Every multiple of 100 is a multiple of 4. */
  lemma HundredIsFour(year: int)
    requires year % 100 == 0
    ensures year % 4 == 0
  {
    var k := year / 100;
    assert year == 4 * (25 * k);
  }

  /** Every multiple of 400 is a multiple of 100. */
  lemma FourHundredIsHundred(year: int)
    requires year % 400 == 0
    ensures year % 100 == 0
  {
    var k := year / 400;
    assert year == 100 * (4 * k);
  }

  /** The first day of a year follows the last day of the year before. */
  lemma NewYear(t: DateTime)
    requires Valid(t) && t.month == 12 && t.day == 31
    ensures Valid(NextDate(t)) && Ordinal(NextDate(t)) == Ordinal(t) + 1
  {
    var u := NextDate(t);
    assert u == DateTime(t.year + 1, 1, 1, t.hour, t.minute, t.second);
    YearLength(t.year);
    YearStep(t.year);
  }

  /** The day count goes up by one from each date to the next, and valid dates stay valid:
      `Ordinal` numbers the days of the calendar consecutively. */
  lemma NextDateOrdinal(t: DateTime)
    requires Valid(t)
    ensures Valid(NextDate(t)) && Ordinal(NextDate(t)) == Ordinal(t) + 1
    ensures Seconds(NextDate(t)) == Seconds(t) + 86400
  {
    if t.day == DaysInMonth(t.year, t.month) && t.month == 12 {
      NewYear(t);
    }
  }

  /** `date(1, 1, 1).toordinal()` is 1. */
  lemma FirstOrdinal()
    ensures Ordinal(DateTime(1, 1, 1, 0, 0, 0)) == 1
  {
  }

  /** `date(1970, 1, 1).toordinal()` is 719163. */
  lemma EpochOrdinal()
    ensures Ordinal(DateTime(1970, 1, 1, 0, 0, 0)) == 719163
  {
  }

  /** `date(2000, 1, 1).toordinal()` is 730120. */
  lemma MillenniumOrdinal()
    ensures Ordinal(DateTime(2000, 1, 1, 0, 0, 0)) == 730120
  {
  }

  /** The leap-year rule of the Gregorian calendar: every fourth year, except centuries not
      divisible by 400. */
  lemma LeapYears()
    ensures DaysInMonth(2024, 2) == 29 && DaysInMonth(2023, 2) == 28
    ensures DaysInMonth(2000, 2) == 29 && DaysInMonth(1900, 2) == 28
  {
  }
}
