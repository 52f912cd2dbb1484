/**
 * The slice of Python's `datetime` the date resolver uses: proleptic
 * Gregorian dates from year 1 to year 9999, `toordinal()`, `weekday()`,
 * adding whole days, comparing a midnight with the current moment, and the
 * `'%Y-%m-%d'` text form in both directions (`strftime` and `strptime`).
 */
module Calendar {
  import opened Text

  datatype Date = Date(year: int, month: int, day: int)

  /** `datetime.MAXYEAR`; `datetime.MINYEAR` is 1. */
  const MaxYear: int := 9999

  predicate IsLeapYear(y: int) {
    y % 4 == 0 && (y % 100 != 0 || y % 400 == 0)
  }

  function DaysInMonth(y: int, m: int): int {
    if m == 2 then (if IsLeapYear(y) then 29 else 28)
    else if m == 4 || m == 6 || m == 9 || m == 11 then 30
    else 31
  }

  function DaysInYear(y: int): int {
    if IsLeapYear(y) then 366 else 365
  }

  /** A day of the proleptic Gregorian calendar from year 1 on, with no upper year bound. */
  predicate WellFormed(d: Date) {
    d.year >= 1 && 1 <= d.month <= 12 && 1 <= d.day <= DaysInMonth(d.year, d.month)
  }

  /** A date Python's `datetime` can hold; `datetime(y, m, d)` raises `ValueError` on any other. */
  predicate IsValid(d: Date) {
    WellFormed(d) && d.year <= MaxYear
  }

  /** Days in the years before `y`, counted year by year from year 1. */
  function DaysBeforeYear(y: int): int
    requires y >= 1
    decreases y
  {
    if y == 1 then 0 else DaysBeforeYear(y - 1) + DaysInYear(y - 1)
  }

  /** Days in the months of year `y` before month `m`. */
  function DaysBeforeMonth(y: int, m: int): int
    requires 1 <= m <= 12
  {
    (match m
     case 1 => 0 case 2 => 31 case 3 => 59 case 4 => 90
     case 5 => 120 case 6 => 151 case 7 => 181 case 8 => 212
     case 9 => 243 case 10 => 273 case 11 => 304 case _ => 334)
    + (if m > 2 && IsLeapYear(y) then 1 else 0)
  }

  /** `date.toordinal()`: 0001-01-01 is day 1. */
  function Ordinal(d: Date): int
    requires WellFormed(d)
  {
    DaysBeforeYear(d.year) + DaysBeforeMonth(d.year, d.month) + d.day
  }

  /** `date.weekday()`: Monday is 0 and Sunday is 6. */
  function Weekday(d: Date): int
    requires WellFormed(d)
  {
    (Ordinal(d) + 6) % 7
  }

  lemma DaysBeforeNextYear(y: int)
    requires y >= 1
    ensures DaysBeforeYear(y + 1) == DaysBeforeYear(y) + DaysInYear(y)
  {
  }

  /** The day after `d`. */
  function NextDay(d: Date): (r: Date)
    requires WellFormed(d)
    ensures WellFormed(r) && Ordinal(r) == Ordinal(d) + 1
  {
    if d.day < DaysInMonth(d.year, d.month) then
      Date(d.year, d.month, d.day + 1)
    else if d.month < 12 then
      Date(d.year, d.month + 1, 1)
    else
      DaysBeforeNextYear(d.year);
      Date(d.year + 1, 1, 1)
  }

  /** Only the last day of year 9999 has its next day past the supported range. */
  lemma NextDayPastMaxYear(d: Date)
    requires IsValid(d)
    ensures NextDay(d).year > MaxYear <==> d == Date(MaxYear, 12, 31)
  {
  }

  /** `d + timedelta(days=n)`, before Python's range check on the year. */
  function AddDays(d: Date, n: nat): (r: Date)
    requires WellFormed(d)
    ensures WellFormed(r) && Ordinal(r) == Ordinal(d) + n
    decreases n
  {
    if n == 0 then d else AddDays(NextDay(d), n - 1)
  }

  /** Moving `n` days ahead moves the weekday `n` places round the week. */
  lemma WeekdayAfter(d: Date, n: nat)
    requires WellFormed(d)
    ensures Weekday(AddDays(d, n)) == (Weekday(d) + n) % 7
  {
    var o := Ordinal(d) + 6;
    assert Ordinal(AddDays(d, n)) + 6 == o + n;
    WeekShift(o, n);
  }

  lemma WeekShift(o: int, n: int)
    ensures (o + n) % 7 == (o % 7 + n) % 7
  {
    var q := o / 7;
    assert o + n == 7 * q + (o % 7 + n);
  }

  /** Within seven days, only a date in the last week of December can reach the next year. */
  lemma AddDaysSameYear(d: Date, n: nat)
    requires WellFormed(d) && n <= 7
    requires d.month < 12 || d.day + n <= 31
    ensures AddDays(d, n).year == d.year
    decreases n
  {
    if n > 0 {
      AddDaysSameYear(NextDay(d), n - 1);
    }
  }

  /** Within seven days, no date moves more than one year on. */
  lemma AddDaysYearBound(d: Date, n: nat)
    requires WellFormed(d) && n <= 7
    ensures AddDays(d, n).year <= d.year + 1
  {
    var e := AddDays(d, n);
    if e.year > d.year + 1 {
      OrdinalWithinYear(d);
      OrdinalWithinYear(e);
      DaysBeforeNextYear(d.year);
      DaysBeforeYearMonotone(d.year + 1, e.year);
      assert false;
    }
  }

  /**
   * A date within seven days of a date of year 9999 that lies past year
   * 9999 can only come from the last days of December 9999.
   */
  lemma AddDaysPastMaxYear(d: Date, n: nat)
    requires IsValid(d) && n <= 7 && AddDays(d, n).year > MaxYear
    ensures d.year == MaxYear && d.month == 12 && d.day + n > 31
  {
    AddDaysYearBound(d, n);
    if d.month < 12 || d.day + n <= 31 {
      AddDaysSameYear(d, n);
    }
  }

  /** Lexicographic order on (year, month, day). */
  predicate DateBefore(a: Date, b: Date) {
    a.year < b.year
    || (a.year == b.year && (a.month < b.month || (a.month == b.month && a.day < b.day)))
  }

  lemma {:induction false} DaysBeforeYearMonotone(y: int, z: int)
    requires 1 <= y < z
    ensures DaysBeforeYear(y) + DaysInYear(y) <= DaysBeforeYear(z)
    decreases z - y
  {
    DaysBeforeNextYear(y);
    if y + 1 < z {
      DaysBeforeYearMonotone(y + 1, z);
    }
  }

  /** A date's ordinal lies within its own year's block of ordinals. */
  lemma OrdinalWithinYear(d: Date)
    requires WellFormed(d)
    ensures DaysBeforeYear(d.year) < Ordinal(d) <= DaysBeforeYear(d.year) + DaysInYear(d.year)
  {
  }

  /** The calendar order of two dates is the order of their ordinals. */
  lemma OrdinalOrder(a: Date, b: Date)
    requires WellFormed(a) && WellFormed(b)
    ensures DateBefore(a, b) <==> Ordinal(a) < Ordinal(b)
  {
    OrdinalWithinYear(a);
    OrdinalWithinYear(b);
    if a.year < b.year {
      DaysBeforeYearMonotone(a.year, b.year);
    } else if b.year < a.year {
      DaysBeforeYearMonotone(b.year, a.year);
    }
  }

  /** A moment: a date and the microseconds elapsed since its midnight (`datetime.now()`). */
  datatype Moment = Moment(date: Date, micros: int)

  const MicrosPerDay: int := 86_400_000_000

  predicate IsValidMoment(t: Moment) {
    IsValid(t.date) && 0 <= t.micros < MicrosPerDay
  }

  /** `datetime(d.year, d.month, d.day) < now`: midnight of `d` comes before `now`. */
  predicate MidnightBefore(d: Date, now: Moment) {
    DateBefore(d, now.date) || (d == now.date && now.micros > 0)
  }

  function Pow10(n: nat): nat {
    if n == 0 then 1 else 10 * Pow10(n - 1)
  }

  function DigitChar(n: int): char
    requires 0 <= n < 10
  {
    ('0' as int + n) as char
  }

  /** The last `width` decimal digits of `n`, zero-padded. */
  function Decimal(n: nat, width: nat): (s: string)
    ensures |s| == width && AllDigits(s)
  {
    if width == 0 then [] else Decimal(n / 10, width - 1) + [DigitChar(n % 10)]
  }

  /** The number a string of decimal digits denotes. */
  function DigitsValue(s: string): (v: nat)
    requires AllDigits(s)
    ensures v < Pow10(|s|)
  {
    if s == [] then 0 else DigitsValue(s[..|s| - 1]) * 10 + (s[|s| - 1] as int - '0' as int)
  }

  lemma {:induction false} DecimalValue(n: nat, width: nat)
    requires n < Pow10(width)
    ensures DigitsValue(Decimal(n, width)) == n
  {
    if width > 0 {
      DecimalValue(n / 10, width - 1);
      var s := Decimal(n, width);
      assert s[..|s| - 1] == Decimal(n / 10, width - 1);
    }
  }

  lemma {:induction false} ValueDecimal(s: string)
    requires AllDigits(s)
    ensures Decimal(DigitsValue(s), |s|) == s
  {
    if s != [] {
      var init := s[..|s| - 1];
      ValueDecimal(init);
      var v := DigitsValue(s);
      assert v / 10 == DigitsValue(init);
      assert DigitChar(v % 10) == s[|s| - 1];
      assert s == init + [s[|s| - 1]];
    }
  }

  /** `date.strftime('%Y-%m-%d')`. */
  function IsoFormat(d: Date): string
    requires IsValid(d)
  {
    Decimal(d.year, 4) + "-" + Decimal(d.month, 2) + "-" + Decimal(d.day, 2)
  }

  /** The text shape `\d{4}-\d{2}-\d{2}`. */
  predicate IsoShape(s: string) {
    |s| == 10 && AllDigits(s[0..4]) && s[4] == '-' && AllDigits(s[5..7]) && s[7] == '-'
    && AllDigits(s[8..10])
  }

  /** The year, month and day written in an ISO-shaped string. */
  function IsoDate(s: string): Date
    requires IsoShape(s)
  {
    Date(DigitsValue(s[0..4]), DigitsValue(s[5..7]), DigitsValue(s[8..10]))
  }

  /** `datetime.strptime(s, '%Y-%m-%d')` succeeds on an ISO-shaped string. */
  predicate IsIsoDate(s: string) {
    IsoShape(s) && IsValid(IsoDate(s))
  }

  /** Formatting a valid date gives a string `strptime` reads back as that date. */
  lemma IsoFormatParses(d: Date)
    requires IsValid(d)
    ensures IsIsoDate(IsoFormat(d)) && IsoDate(IsoFormat(d)) == d
  {
    var s := IsoFormat(d);
    assert s[0..4] == Decimal(d.year, 4);
    assert s[5..7] == Decimal(d.month, 2);
    assert s[8..10] == Decimal(d.day, 2);
    DecimalValue(d.year, 4);
    DecimalValue(d.month, 2);
    DecimalValue(d.day, 2);
  }

  /** Reading an ISO-shaped string and formatting the date gives the string back. */
  lemma IsoDateFormats(s: string)
    requires IsIsoDate(s)
    ensures IsoFormat(IsoDate(s)) == s
  {
    ValueDecimal(s[0..4]);
    ValueDecimal(s[5..7]);
    ValueDecimal(s[8..10]);
    IsoPieces(s);
  }

  /** An ISO-shaped string is its three digit groups joined by dashes. */
  lemma IsoPieces(s: string)
    requires |s| == 10 && s[4] == '-' && s[7] == '-'
    ensures s == s[0..4] + "-" + s[5..7] + "-" + s[8..10]
  {
    var f := s[0..4] + "-" + s[5..7] + "-" + s[8..10];
    assert |f| == 10;
    forall k | 0 <= k < 10 ensures f[k] == s[k] {
    }
  }
}
