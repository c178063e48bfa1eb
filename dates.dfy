/**
 * Dates of birth (main.py:148-157): reading a `dd/mm/yyyy` text day first,
 * as `datetime.strptime(text, "%d/%m/%Y").date()` does, and the age formula
 * of main.py:154. The current date is a parameter.
 */
module Dates {
  import opened Wrappers
  import opened Patterns

  /** A proleptic Gregorian calendar date, as Python's `datetime.date`. */
  datatype Date = Date(year: int, month: int, day: int)

  predicate IsLeapYear(y: int)
  {
    y % 4 == 0 && (y % 100 != 0 || y % 400 == 0)
  }

  function DaysInMonth(y: int, m: int): int
    requires 1 <= m <= 12
  {
    if m == 2 then (if IsLeapYear(y) then 29 else 28)
    else if m == 4 || m == 6 || m == 9 || m == 11 then 30
    else 31
  }

  /** The dates `datetime.date` accepts: years 1 to 9999 and a day that exists in its month. */
  predicate IsValidDate(d: Date)
  {
    1 <= d.year <= 9999 && 1 <= d.month <= 12 && 1 <= d.day <= DaysInMonth(d.year, d.month)
  }

  /** Strictly earlier in the calendar: (year, month, day) compared lexicographically. */
  predicate Before(a: Date, b: Date)
  {
    a.year < b.year || (a.year == b.year && (a.month < b.month || (a.month == b.month && a.day < b.day)))
  }

  // ---------------------------------------------------------------------
  // Decimal digits
  // ---------------------------------------------------------------------

  function DigitValue(c: char): nat
    requires IsDigit(c)
  {
    c as int - '0' as int
  }

  function DigitChar(n: nat): (c: char)
    requires n < 10
    ensures IsDigit(c) && DigitValue(c) == n
  {
    ('0' as int + n) as char
  }

  /** The value of a string of decimal digits, most significant first (as `int()`). */
  function DecimalValue(s: string): nat
    requires AllDigits(s)
  {
    if s == [] then 0 else 10 * DecimalValue(s[..|s| - 1]) + DigitValue(s[|s| - 1])
  }

  /** `n` written with exactly `width` digits, padded with leading zeros. */
  function ZeroPadded(n: nat, width: nat): (s: string)
    ensures |s| == width && AllDigits(s)
  {
    if width == 0 then [] else ZeroPadded(n / 10, width - 1) + [DigitChar(n % 10)]
  }

  /** Reading back a zero-padded number gives it back, when it fits the width. */
  lemma {:induction false} DecimalOfZeroPadded(n: nat, width: nat)
    requires n < Pow10(width)
    ensures DecimalValue(ZeroPadded(n, width)) == n
  {
    if width > 0 {
      var s := ZeroPadded(n, width);
      assert Pow10(width) == 10 * Pow10(width - 1);
      assert n / 10 < Pow10(width - 1);
      assert s[..|s| - 1] == ZeroPadded(n / 10, width - 1);
      DecimalOfZeroPadded(n / 10, width - 1);
      assert DecimalValue(s) == 10 * (n / 10) + n % 10;
    }
  }

  /** Writing a digit string's value back with its own width gives the string back. */
  lemma {:induction false} ZeroPaddedOfDecimal(s: string)
    requires AllDigits(s)
    ensures DecimalValue(s) < Pow10(|s|)
    ensures ZeroPadded(DecimalValue(s), |s|) == s
  {
    if s != [] {
      var init, last := s[..|s| - 1], s[|s| - 1];
      assert AllDigits(init);
      ZeroPaddedOfDecimal(init);
      var n, v, d := DecimalValue(s), DecimalValue(init), DigitValue(last);
      assert n == 10 * v + d && d < 10;
      assert n / 10 == v && n % 10 == d;
      assert Pow10(|s|) == 10 * Pow10(|init|);
      assert DigitChar(d) == last;
      assert ZeroPadded(n, |s|) == ZeroPadded(v, |init|) + [DigitChar(d)];
      assert s == init + [last];
    }
  }

  function Pow10(k: nat): (p: nat)
    ensures p >= 1
  {
    if k == 0 then 1 else 10 * Pow10(k - 1)
  }

  // ---------------------------------------------------------------------
  // strptime(text, "%d/%m/%Y")
  // ---------------------------------------------------------------------

  /**
   * Why `strptime` raises `ValueError`: the text does not fit the format (a
   * day outside 01-31 or a month outside 01-12), or the fields name no date
   * (year 0000, or a day past the end of its month).
   */
  datatype DateError = FormatMismatch | DateOutOfRange

  /** The day, month and year fields of `dd/mm/yyyy`, read as numbers. */
  function Fields(t: string): Date
    requires SlashDateShape(t)
  {
    Date(DecimalValue(t[6..10]), DecimalValue(t[3..5]), DecimalValue(t[0..2]))
  }

  /**
   * `datetime.strptime(t, "%d/%m/%Y").date()` on a text of the slash shape:
   * day first, then month, then year. Python's `%d` accepts 1-31 and `%m`
   * accepts 1-12 as two digits; the date itself must then exist.
   */
  function ParseDayFirst(t: string): (r: Result<Date, DateError>)
    requires SlashDateShape(t)
    ensures r.Success? <==> IsValidDate(Fields(t))
    ensures r.Success? ==> r.value == Fields(t) && FormatDayFirst(r.value) == t
  {
    ZeroPaddedOfDecimal(t[6..10]);
    var d := Fields(t);
    if !(1 <= d.day <= 31) || !(1 <= d.month <= 12) then Failure(FormatMismatch)
    else if d.year < 1 || d.day > DaysInMonth(d.year, d.month) then Failure(DateOutOfRange)
    else
      FormatOfFields(t);
      Success(d)
  }

  /** A date written `dd/mm/yyyy`, the form the format `%d/%m/%Y` reads. */
  function FormatDayFirst(d: Date): (t: string)
    requires IsValidDate(d)
    ensures SlashDateShape(t)
  {
    var t := ZeroPadded(d.day, 2) + "/" + ZeroPadded(d.month, 2) + "/" + ZeroPadded(d.year, 4);
    assert t[0..2] == ZeroPadded(d.day, 2) && t[3..5] == ZeroPadded(d.month, 2);
    assert t[6..10] == ZeroPadded(d.year, 4);
    t
  }

  lemma FormatOfFields(t: string)
    requires SlashDateShape(t) && IsValidDate(Fields(t))
    ensures FormatDayFirst(Fields(t)) == t
  {
    ZeroPaddedOfDecimal(t[0..2]);
    ZeroPaddedOfDecimal(t[3..5]);
    ZeroPaddedOfDecimal(t[6..10]);
    assert t == t[0..2] + "/" + t[3..5] + "/" + t[6..10];
  }

  /** Every valid date, written day first, is read back as itself. */
  lemma ParseFormatRoundTrip(d: Date)
    requires IsValidDate(d)
    ensures ParseDayFirst(FormatDayFirst(d)) == Success(d)
  {
    var t := FormatDayFirst(d);
    assert t[0..2] == ZeroPadded(d.day, 2) && t[3..5] == ZeroPadded(d.month, 2);
    assert t[6..10] == ZeroPadded(d.year, 4);
    DecimalOfZeroPadded(d.day, 2);
    DecimalOfZeroPadded(d.month, 2);
    DecimalOfZeroPadded(d.year, 4);
  }

  // ---------------------------------------------------------------------
  // Age (main.py:154)
  // ---------------------------------------------------------------------

  /** Python's tuple comparison `(m1, d1) < (m2, d2)`. */
  predicate MonthDayBefore(m1: int, d1: int, m2: int, d2: int)
  {
    m1 < m2 || (m1 == m2 && d1 < d2)
  }

  /** `today.year - dob.year - ((today.month, today.day) < (dob.month, dob.day))`. */
  function Age(dob: Date, today: Date): (r: int)
    ensures today.year - dob.year - 1 <= r <= today.year - dob.year
    ensures today.month == dob.month && today.day == dob.day ==> r == today.year - dob.year
  {
    today.year - dob.year - (if MonthDayBefore(today.month, today.day, dob.month, dob.day) then 1 else 0)
  }

  /** The `k`-th birthday: the date of birth with `k` added to its year. */
  function Birthday(dob: Date, k: int): Date
  {
    Date(dob.year + k, dob.month, dob.day)
  }

  /**
   * The age is the number of birthdays that have come: the `Age`-th has been
   * reached by `today` and the next one has not.
   */
  lemma AgeCountsBirthdays(dob: Date, today: Date)
    ensures !Before(today, Birthday(dob, Age(dob, today)))
    ensures Before(today, Birthday(dob, Age(dob, today) + 1))
  {
  }

  /** Only one count of birthdays fits that description, so it determines the age. */
  lemma AgeIsUnique(dob: Date, today: Date, k: int)
    requires !Before(today, Birthday(dob, k)) && Before(today, Birthday(dob, k + 1))
    ensures k == Age(dob, today)
  {
    AgeCountsBirthdays(dob, today);
  }

  /** Nobody is of negative age on or after their date of birth. */
  lemma AgeNonNegative(dob: Date, today: Date)
    requires !Before(today, dob)
    ensures Age(dob, today) >= 0
  {
  }

  /** The age never decreases as `today` moves forward. */
  lemma AgeMonotone(dob: Date, today: Date, later: Date)
    requires !Before(later, today)
    ensures Age(dob, today) <= Age(dob, later)
  {
  }
}
