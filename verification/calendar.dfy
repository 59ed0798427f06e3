/** The calendar day that `new Date(t).toISOString().slice(0, 10)` gives for an epoch time `t`
    in milliseconds: the proleptic Gregorian calendar in UTC, as integer arithmetic. */
module Calendar {
  import opened Util

  const MS_PER_DAY: int := 86400000
  /** An ECMAScript time value lies within this many milliseconds of the epoch;
      `toISOString` throws a RangeError beyond it. */
  const MAX_TIME_MS: int := 8640000000000000
  const EPOCH_YEAR: int := 1970

  predicate IsLeapYear(y: int)
  {
    y % 4 == 0 && (y % 100 != 0 || y % 400 == 0)
  }

  function DaysInYear(y: int): int
  {
    if IsLeapYear(y) then 366 else 365
  }

  function DaysInMonth(y: int, m: int): int
    requires 1 <= m <= 12
  {
    if m == 2 then (if IsLeapYear(y) then 29 else 28)
    else if m == 4 || m == 6 || m == 9 || m == 11 then 30
    else 31
  }

  /** Days of year `y` before the first of month `m` (`m == 13`: the whole year). */
  function DaysBeforeMonth(y: int, m: int): int
    requires 1 <= m <= 13
    decreases m
  {
    if m == 1 then 0 else DaysBeforeMonth(y, m - 1) + DaysInMonth(y, m - 1)
  }

  /** Days from 1970-01-01 to January 1st of year `y` (negative before 1970). */
  function DaysBeforeYear(y: int): int
    decreases if y < EPOCH_YEAR then EPOCH_YEAR - y else y - EPOCH_YEAR
  {
    if y == EPOCH_YEAR then 0
    else if y > EPOCH_YEAR then DaysBeforeYear(y - 1) + DaysInYear(y - 1)
    else DaysBeforeYear(y + 1) - DaysInYear(y)
  }

  datatype Date = Date(year: int, month: int, day: int)

  predicate Valid(d: Date)
  {
    1 <= d.month <= 12 && 1 <= d.day <= DaysInMonth(d.year, d.month)
  }

  /** Chronological order of calendar days. */
  predicate Before(a: Date, b: Date)
  {
    a.year < b.year || (a.year == b.year && (a.month < b.month || (a.month == b.month && a.day < b.day)))
  }

  /** The reference numbering of days: days elapsed from 1970-01-01 to `d`. */
  function DayNumber(d: Date): int
    requires Valid(d)
  {
    DaysBeforeYear(d.year) + DaysBeforeMonth(d.year, d.month) + d.day - 1
  }

  lemma MonthsFillYear(y: int)
    ensures DaysBeforeMonth(y, 13) == DaysInYear(y)
  {
    assert DaysBeforeMonth(y, 3) == 31 + DaysInMonth(y, 2);
    assert DaysBeforeMonth(y, 7) == DaysBeforeMonth(y, 3) + 122;
    assert DaysBeforeMonth(y, 13) == DaysBeforeMonth(y, 7) + 184;
  }

  lemma DaysBeforeYearStep(y: int)
    ensures DaysBeforeYear(y + 1) == DaysBeforeYear(y) + DaysInYear(y)
  {
  }

  /** The year holding day `r` of year `y` (`r` may fall before or after year `y`), with the day's
      offset from January 1st of that year. */
  function FindYear(y: int, r: int): (found: (int, int))
    ensures 0 <= found.1 < DaysInYear(found.0)
    ensures DaysBeforeYear(found.0) + found.1 == DaysBeforeYear(y) + r
    decreases if r < 0 then 1 else 0, if r < 0 then -r else r
  {
    DaysBeforeYearStep(y - 1);
    DaysBeforeYearStep(y);
    if r < 0 then FindYear(y - 1, r + DaysInYear(y - 1))
    else if r >= DaysInYear(y) then FindYear(y + 1, r - DaysInYear(y))
    else (y, r)
  }

  /** The month of year `y` holding offset `r`, counted from the first of month `m`, with the
      day of that month (from 1). */
  function FindMonth(y: int, m: int, r: int): (found: (int, int))
    requires 1 <= m <= 12
    requires 0 <= r < DaysInYear(y) - DaysBeforeMonth(y, m)
    ensures 1 <= found.0 <= 12 && 1 <= found.1 <= DaysInMonth(y, found.0)
    ensures DaysBeforeMonth(y, found.0) + found.1 - 1 == DaysBeforeMonth(y, m) + r
    decreases 12 - m
  {
    MonthsFillYear(y);
    if r < DaysInMonth(y, m) then (m, r + 1)
    else FindMonth(y, m + 1, r - DaysInMonth(y, m))
  }

  /** The calendar day numbered `z`: a valid date whose reference number is `z`. */
  function CivilFromDays(z: int): (d: Date)
    ensures Valid(d) && DayNumber(d) == z
  {
    var (y, r) := FindYear(EPOCH_YEAR, z);
    var (m, day) := FindMonth(y, 1, r);
    Date(y, m, day)
  }

  lemma {:induction false} DaysBeforeYearIncreasing(y: int, y': int)
    requires y <= y'
    ensures DaysBeforeYear(y) + DaysInYear(y) <= DaysBeforeYear(y') + (if y == y' then DaysInYear(y) else 0)
    decreases y' - y
  {
    if y < y' {
      DaysBeforeYearStep(y' - 1);
      if y < y' - 1 {
        DaysBeforeYearIncreasing(y, y' - 1);
      }
    }
  }

  lemma {:induction false} DaysBeforeMonthIncreasing(y: int, m: int, m': int)
    requires 1 <= m < m' <= 13
    ensures DaysBeforeMonth(y, m) + DaysInMonth(y, m) <= DaysBeforeMonth(y, m')
    decreases m' - m
  {
    if m + 1 < m' {
      DaysBeforeMonthIncreasing(y, m, m' - 1);
    }
  }

  /** Later days have larger numbers. */
  lemma DayNumberIncreasing(a: Date, b: Date)
    requires Valid(a) && Valid(b) && Before(a, b)
    ensures DayNumber(a) < DayNumber(b)
  {
    DaysBeforeMonthIncreasing(a.year, a.month, 13);
    MonthsFillYear(a.year);
    if a.year < b.year {
      DaysBeforeYearIncreasing(a.year, b.year);
    } else if a.month < b.month {
      DaysBeforeMonthIncreasing(a.year, a.month, b.month);
    }
  }

  /** Numbering a valid day and converting back gives the same day. */
  lemma CivilFromDaysRoundTrip(d: Date)
    requires Valid(d)
    ensures CivilFromDays(DayNumber(d)) == d
  {
    var c := CivilFromDays(DayNumber(d));
    if Before(c, d) {
      DayNumberIncreasing(c, d);
    } else if Before(d, c) {
      DayNumberIncreasing(d, c);
    }
  }

  /** Conversion preserves order: day `z1` falls before day `z2` exactly when `z1 < z2`. */
  lemma CivilFromDaysOrder(z1: int, z2: int)
    ensures Before(CivilFromDays(z1), CivilFromDays(z2)) <==> z1 < z2
    ensures CivilFromDays(z1) == CivilFromDays(z2) <==> z1 == z2
  {
    var c1, c2 := CivilFromDays(z1), CivilFromDays(z2);
    if Before(c1, c2) {
      DayNumberIncreasing(c1, c2);
    } else if Before(c2, c1) {
      DayNumberIncreasing(c2, c1);
    }
  }

  // ISO-8601 rendering

  function DigitChar(n: int): char
    requires 0 <= n < 10
  {
    (48 + n) as char
  }

  function Pow10(w: nat): nat
  {
    if w == 0 then 1 else 10 * Pow10(w - 1)
  }

  /** `n` in decimal, zero-padded to `width` digits (`n < 10^width`). */
  function Digits(n: nat, width: nat): (s: string)
    ensures |s| == width
  {
    if width == 0 then "" else Digits(n / 10, width - 1) + [DigitChar(n % 10)]
  }

  /** Fixed-width decimal strings compare as the numbers they spell. */
  lemma {:induction false} DigitsOrder(a: nat, b: nat, width: nat)
    requires a < Pow10(width) && b < Pow10(width)
    ensures LexLess(Digits(a, width), Digits(b, width)) <==> a < b
    ensures Digits(a, width) == Digits(b, width) <==> a == b
  {
    if width > 0 {
      DigitsOrder(a / 10, b / 10, width - 1);
      LexLessConcat(Digits(a / 10, width - 1), [DigitChar(a % 10)],
                    Digits(b / 10, width - 1), [DigitChar(b % 10)]);
      assert LexLess([DigitChar(a % 10)], [DigitChar(b % 10)]) <==> a % 10 < b % 10;
    } else {
      LexLessIrreflexive("");
    }
  }

  /** The year as `toISOString` writes it: four digits for 0..9999, otherwise a sign and six digits. */
  function FormatYear(y: int): string
  {
    if 0 <= y <= 9999 then Digits(y, 4)
    else if y < 0 then "-" + Digits(-y, 6)
    else "+" + Digits(y, 6)
  }

  /** The first ten characters of the ISO-8601 rendering of a day. */
  function IsoDate(d: Date): string
    requires Valid(d)
  {
    Take(FormatYear(d.year) + "-" + Digits(d.month, 2) + "-" + Digits(d.day, 2), 10)
  }

  /** `new Date(t).toISOString().slice(0, 10)`. */
  function IsoDay(t: int): (r: Result<string>)
    ensures r.Success? <==> -MAX_TIME_MS <= t <= MAX_TIME_MS
    ensures r.Success? ==> |r.value| == 10
  {
    if t < -MAX_TIME_MS || t > MAX_TIME_MS then Failure("RangeError: Invalid time value")
    else Success(IsoDate(CivilFromDays(t / MS_PER_DAY)))
  }

  /** `t` is a valid time value whose year has four digits. */
  predicate FourDigitYear(t: int)
  {
    -MAX_TIME_MS <= t <= MAX_TIME_MS && 0 <= CivilFromDays(t / MS_PER_DAY).year <= 9999
  }

  /** For years 0..9999, "YYYY-MM-DD" strings compare lexicographically as the days compare
      chronologically, and distinct days get distinct strings. */
  lemma IsoDateOrder(a: Date, b: Date)
    requires Valid(a) && Valid(b) && 0 <= a.year <= 9999 && 0 <= b.year <= 9999
    ensures LexLess(IsoDate(a), IsoDate(b)) <==> Before(a, b)
    ensures IsoDate(a) == IsoDate(b) <==> a == b
  {
    var ya, yb := Digits(a.year, 4), Digits(b.year, 4);
    var ma, mb := Digits(a.month, 2), Digits(b.month, 2);
    var da, db := Digits(a.day, 2), Digits(b.day, 2);
    assert IsoDate(a) == ya + "-" + ma + "-" + da;
    assert IsoDate(b) == yb + "-" + mb + "-" + db;
    DigitsOrder(a.year, b.year, 4);
    DigitsOrder(a.month, b.month, 2);
    DigitsOrder(a.day, b.day, 2);
    LexLessIrreflexive("-");
    LexLessConcat(ya + "-" + ma + "-", da, yb + "-" + mb + "-", db);
    LexLessConcat(ya + "-" + ma, "-", yb + "-" + mb, "-");
    LexLessConcat(ya + "-", ma, yb + "-", mb);
    LexLessConcat(ya, "-", yb, "-");
  }

  /** The ISO day strings of two four-digit-year instants compare lexicographically exactly as
      their UTC days compare in time. */
  lemma IsoDayChronological(t1: int, t2: int)
    requires FourDigitYear(t1) && FourDigitYear(t2)
    ensures LexLess(IsoDay(t1).value, IsoDay(t2).value) <==> t1 / MS_PER_DAY < t2 / MS_PER_DAY
    ensures IsoDay(t1) == IsoDay(t2) <==> t1 / MS_PER_DAY == t2 / MS_PER_DAY
  {
    var z1, z2 := t1 / MS_PER_DAY, t2 / MS_PER_DAY;
    IsoDateOrder(CivilFromDays(z1), CivilFromDays(z2));
    CivilFromDaysOrder(z1, z2);
  }

  /** For years 0..9999, an instant at or after `t1` never has an ISO day that sorts before `t1`'s. */
  lemma IsoDayMonotone(t1: int, t2: int)
    requires FourDigitYear(t1) && FourDigitYear(t2) && t1 <= t2
    ensures !LexLess(IsoDay(t2).value, IsoDay(t1).value)
  {
    IsoDayChronological(t2, t1);
    assert t1 / MS_PER_DAY <= t2 / MS_PER_DAY;
  }

  lemma EpochIsoDay()
    ensures IsoDay(0) == Success("1970-01-01")
  {
    assert CivilFromDays(0) == Date(1970, 1, 1);
    assert Digits(1970, 4) == "1970" by {
      assert Digits(1, 1) == "1";
      assert Digits(19, 2) == "19";
      assert Digits(197, 3) == "197";
    }
    assert Digits(1, 2) == "01" by {
      assert Digits(0, 1) == "0";
    }
    assert FormatYear(1970) + "-" + Digits(1, 2) + "-" + Digits(1, 2) == "1970-01-01";
    assert IsoDate(Date(1970, 1, 1)) == "1970-01-01";
  }
}
