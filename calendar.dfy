/**
 * The proleptic Gregorian calendar of JavaScript's `Date`: the civil date of a day number
 * (`getFullYear`, `getMonth`, `getDate` on the local day) and the day number ECMAScript's
 * `MakeDay(year, month, date)` gives, month and day overflow included. Day numbers count
 * days from 1970-01-01. Internally years start on the 1st of March, so that a leap day is
 * the last day of its year, and 400 such years make an era of 146097 days.
 */
module Calendar {

  /** A civil date; `month` runs from 1 to 12 (`getMonth() + 1`). */
  datatype Date = Date(year: int, month: int, day: int)

  predicate IsLeap(y: int) {
    y % 4 == 0 && (y % 100 != 0 || y % 400 == 0)
  }

  function DaysInMonth(y: int, m: int): int
    requires 1 <= m <= 12
  {
    if m == 2 then (if IsLeap(y) then 29 else 28)
    else if m == 4 || m == 6 || m == 9 || m == 11 then 30
    else 31
  }

  function DaysInYear(y: int): int {
    if IsLeap(y) then 366 else 365
  }

  predicate ValidDate(d: Date) {
    1 <= d.month <= 12 && 1 <= d.day <= DaysInMonth(d.year, d.month)
  }

  /** Days from 0000-03-01 to the 1st of March of year `s`. */
  function MarchFirst(s: int): int {
    var era, yoe := s / 400, s % 400;
    146097 * era + 365 * yoe + yoe / 4 - yoe / 100
  }

  /** Days from the 1st of March to the 1st of the `k`-th month after it. */
  function MonthOffset(k: int): int
    requires 0 <= k <= 11
  {
    if k == 0 then 0 else if k == 1 then 31 else if k == 2 then 61
    else if k == 3 then 92 else if k == 4 then 122 else if k == 5 then 153
    else if k == 6 then 184 else if k == 7 then 214 else if k == 8 then 245
    else if k == 9 then 275 else if k == 10 then 306 else 337
  }

  /** The March-based month (0 for March, 11 for February) of a civil month. */
  function MarchMonth(m: int): int
    requires 1 <= m <= 12
  {
    if m >= 3 then m - 3 else m + 9
  }

  /** The March-based year a civil month belongs to: January and February close the year before. */
  function MarchYear(y: int, m: int): int {
    if m >= 3 then y else y - 1
  }

  /** Days from 0000-03-01 to 1970-01-01. */
  const EpochShift: int := 719468

  /** The day number of a civil date; a day past the end of the month runs on into the next. */
  function DayNumber(y: int, m: int, d: int): int
    requires 1 <= m <= 12
  {
    MarchFirst(MarchYear(y, m)) + MonthOffset(MarchMonth(m)) + d - 1 - EpochShift
  }

  /** ECMAScript's `MakeDay`: the month index is normalized into the year first, then days are added. */
  function MakeDay(year: int, monthIndex: int, date: int): int {
    DayNumber(year + monthIndex / 12, monthIndex % 12 + 1, 1) + date - 1
  }

  /** The March-based month a day of the March-based year falls in. */
  function MonthAt(doy: int): (k: int)
    requires 0 <= doy
    ensures 0 <= k <= 11 && MonthOffset(k) <= doy
    ensures k < 11 ==> doy < MonthOffset(k + 1)
  {
    if doy < 31 then 0 else if doy < 61 then 1 else if doy < 92 then 2
    else if doy < 122 then 3 else if doy < 153 then 4 else if doy < 184 then 5
    else if doy < 214 then 6 else if doy < 245 then 7 else if doy < 275 then 8
    else if doy < 306 then 9 else if doy < 337 then 10 else 11
  }

  /**
   * The March-based year of day `n`, counted from 0000-03-01, and the day within that year:
   * the era, then the century (the last century of an era is one day longer), the four-year
   * block and the year within it (the last year of a block is one day longer).
   */
  function YearOfDay(n: int): (r: (int, int))
    ensures 0 <= r.1 < DaysInYear(r.0 + 1)
    ensures MarchFirst(r.0) + r.1 == n
  {
    var era, doe := n / 146097, n % 146097;
    var c := if doe / 36524 < 3 then doe / 36524 else 3;
    var r := doe - 36524 * c;
    CenturyOf(doe);
    var q, b := r / 1461, r % 1461;
    BlockOf(r);
    var k := if b / 365 < 3 then b / 365 else 3;
    var doy := b - 365 * k;
    YearOfBlock(b);
    MarchFirstOfParts(era, c, q, k);
    LeapDayOfBlock(era, c, q, k, b);
    (400 * era + 100 * c + 4 * q + k, doy)
  }

  /** The 1st of March of year `100 c + 4 q + k` of an era, counted in eras, centuries, blocks and years. */
  lemma MarchFirstOfParts(era: int, c: int, q: int, k: int)
    requires 0 <= c <= 3 && 0 <= q <= 24 && 0 <= k <= 3
    ensures MarchFirst(400 * era + 100 * c + 4 * q + k) == 146097 * era + 36524 * c + 1461 * q + 365 * k
  {
    var yoe := 100 * c + 4 * q + k;
    EraOf(era, yoe);
    YoeParts(c, q, k);
  }

  /** Day 365 of a March-based year is the leap day that closes it. */
  lemma LeapDayOfBlock(era: int, c: int, q: int, k: int, b: int)
    requires 0 <= c <= 3 && 0 <= q <= 24 && 0 <= k <= 3 && 0 <= b <= 1460
    requires c < 3 && q == 24 ==> b <= 1459
    requires b - 365 * k == 365 ==> k == 3 && b == 1460
    ensures b - 365 * k == 365 ==> IsLeap(400 * era + 100 * c + 4 * q + k + 1)
  {
    if b - 365 * k == 365 {
      var yoe := 100 * c + 4 * q + k;
      ShiftMod(era, yoe + 1);
      if q == 24 {
        EraOf(era + 1, 0);
      } else {
        EraOf(era, yoe + 1);
      }
    }
  }

  /** The civil date of a day number; `DayNumber` gives the day number back. */
  function DateOf(z: int): (d: Date)
    ensures ValidDate(d)
    ensures DayNumber(d.year, d.month, d.day) == z
  {
    var (s, doy) := YearOfDay(z + EpochShift);
    DateInYear(s, doy)
  }

  /** The civil date of day `doy` of the March-based year `s`. */
  function DateInYear(s: int, doy: int): (d: Date)
    requires 0 <= doy < DaysInYear(s + 1)
    ensures ValidDate(d)
    ensures DayNumber(d.year, d.month, d.day) == MarchFirst(s) + doy - EpochShift
  {
    var mm := MonthAt(doy);
    var m := if mm < 10 then mm + 3 else mm - 9;
    Date(if m <= 2 then s + 1 else s, m, doy - MonthOffset(mm) + 1)
  }

  /** A March-based year has 365 days, 366 when the February that closes it has a leap day. */
  lemma YearLength(s: int)
    ensures MarchFirst(s + 1) - MarchFirst(s) == DaysInYear(s + 1)
  {
    var era, yoe := s / 400, s % 400;
    assert s == 400 * era + yoe;
    ShiftMod(era, yoe + 1);
    if yoe < 399 {
      EraOf(era, yoe + 1);
      YoeStep(yoe);
    } else {
      EraOf(era + 1, 0);
    }
  }

  lemma EraOf(era: int, yoe: int)
    requires 0 <= yoe < 400
    ensures (400 * era + yoe) / 400 == era && (400 * era + yoe) % 400 == yoe
  {
  }

  lemma Mod4(q: int, r: int)
    requires 0 <= r < 4
    ensures (4 * q + r) % 4 == r
  {
  }

  lemma Mod100(q: int, r: int)
    requires 0 <= r < 100
    ensures (100 * q + r) % 100 == r
  {
  }

  /** Whole eras do not change a year's remainders by 4 and by 100. */
  lemma ShiftMod(era: int, x: int)
    ensures (400 * era + x) % 4 == x % 4
    ensures (400 * era + x) % 100 == x % 100
  {
    assert 400 * era + x == 4 * (100 * era + x / 4) + x % 4;
    Mod4(100 * era + x / 4, x % 4);
    assert 400 * era + x == 100 * (4 * era + x / 100) + x % 100;
    Mod100(4 * era + x / 100, x % 100);
  }

  /** The leap days counted up to a year of an era grow by one exactly at a multiple of 4, less one at a multiple of 100. */
  lemma YoeStep(yoe: int)
    requires 0 <= yoe < 399
    ensures (yoe + 1) / 4 - yoe / 4 == (if (yoe + 1) % 4 == 0 then 1 else 0)
    ensures (yoe + 1) / 100 - yoe / 100 == (if (yoe + 1) % 100 == 0 then 1 else 0)
  {
  }

  /** The century of an era: the first three have 36524 days, the last one 36525. */
  lemma CenturyOf(doe: int)
    requires 0 <= doe < 146097
    ensures var c := if doe / 36524 < 3 then doe / 36524 else 3;
      0 <= c <= 3 && 0 <= doe - 36524 * c <= 36524 && (c < 3 ==> doe - 36524 * c <= 36523)
  {
  }

  /** The four-year block of a century and the day within it. */
  lemma BlockOf(r: int)
    requires 0 <= r <= 36524
    ensures 0 <= r / 1461 <= 24 && 0 <= r % 1461 <= 1460 && r == 1461 * (r / 1461) + r % 1461
    ensures r / 1461 == 24 ==> r % 1461 <= 1460 && r >= 35064
  {
  }

  /** The year of a four-year block and the day within it; only the last year reaches day 365. */
  lemma YearOfBlock(b: int)
    requires 0 <= b <= 1460
    ensures var k := if b / 365 < 3 then b / 365 else 3;
      0 <= k <= 3 && 0 <= b - 365 * k <= 365 && (b - 365 * k == 365 ==> k == 3 && b == 1460)
  {
  }

  /** The leap days counted up to year `100 c + 4 q + k` of an era. */
  lemma YoeParts(c: int, q: int, k: int)
    requires 0 <= c <= 3 && 0 <= q <= 24 && 0 <= k <= 3
    ensures (100 * c + 4 * q + k) / 4 == 25 * c + q
    ensures (100 * c + 4 * q + k) / 100 == c
  {
    assert 100 * c + 4 * q + k == 4 * (25 * c + q) + k;
    assert 100 * c + 4 * q + k == 100 * c + (4 * q + k) && 4 * q + k < 100;
  }

  /** The 1st of the month after month `m` (index `m`) comes `DaysInMonth` days after the 1st of `m`. */
  lemma MonthSpan(y: int, m: int)
    requires 1 <= m <= 12
    ensures MakeDay(y, m - 1, 1) == DayNumber(y, m, 1)
    ensures MakeDay(y, m, 1) - MakeDay(y, m - 1, 1) == DaysInMonth(y, m)
  {
    assert (m - 1) / 12 == 0 && (m - 1) % 12 == m - 1;
    if m == 12 {
      assert m / 12 == 1 && m % 12 == 0;
    } else {
      assert m / 12 == 0 && m % 12 == m;
      if m == 2 {
        YearLength(y - 1);
      }
    }
  }

  /** January 1st to December 31st: `DaysInYear` days. */
  lemma YearSpan(y: int)
    ensures MakeDay(y, 0, 1) == DayNumber(y, 1, 1)
    ensures MakeDay(y, 11, 31) + 1 - MakeDay(y, 0, 1) == DaysInYear(y)
  {
    YearLength(y - 1);
  }

  /** A valid date lies between the 1st of its month and the 1st of the next. */
  lemma InMonth(d: Date)
    requires ValidDate(d)
    ensures MakeDay(d.year, d.month - 1, 1) == DayNumber(d.year, d.month, d.day) - (d.day - 1)
    ensures DayNumber(d.year, d.month, d.day) < MakeDay(d.year, d.month, 1)
  {
    MonthSpan(d.year, d.month);
  }

  /** A valid date lies between the 1st of January and the 31st of December of its year. */
  lemma InYear(d: Date)
    requires ValidDate(d)
    ensures MakeDay(d.year, 0, 1) <= DayNumber(d.year, d.month, d.day) <= MakeDay(d.year, 11, 31)
  {
    YearSpan(d.year);
    YearLength(d.year - 1);
    assert MakeDay(d.year, 11, 31) == DayNumber(d.year, 12, 1) + 30;
    DayOfMarchYear(d);
  }

  /** Where a valid date falls in its March-based year: March to December first, then January and February. */
  lemma DayOfMarchYear(d: Date)
    requires ValidDate(d)
    ensures var k := MonthOffset(MarchMonth(d.month)) + d.day - 1;
      && 0 <= k < DaysInYear(MarchYear(d.year, d.month) + 1)
      && (d.month >= 3 ==> k <= 305)
      && (d.month <= 2 ==> k >= 306)
  {
    if d.month <= 2 {
      assert MarchYear(d.year, d.month) + 1 == d.year;
    }
  }

  /** Each March-based year starts after the whole of every earlier one. */
  lemma {:induction false} MarchFirstGrows(s: int, t: int)
    requires s < t
    ensures MarchFirst(s) + DaysInYear(s + 1) <= MarchFirst(t)
    decreases t - s
  {
    YearLength(s);
    if s + 1 < t {
      MarchFirstGrows(s + 1, t);
    }
  }

  /** A day number has exactly one March-based year and day within it. */
  lemma YearOfDayUnique(n: int, s: int, doy: int)
    requires 0 <= doy < DaysInYear(s + 1) && MarchFirst(s) + doy == n
    ensures YearOfDay(n) == (s, doy)
  {
    var r := YearOfDay(n);
    if r.0 < s {
      MarchFirstGrows(r.0, s);
    } else if s < r.0 {
      MarchFirstGrows(s, r.0);
    }
  }

  /** `DateOf` undoes `DayNumber`: a valid date is read back from its day number. */
  lemma DateRoundTrip(d: Date)
    requires ValidDate(d)
    ensures DateOf(DayNumber(d.year, d.month, d.day)) == d
  {
    var s, doy := MarchYear(d.year, d.month), MonthOffset(MarchMonth(d.month)) + d.day - 1;
    DayOfMarchYear(d);
    YearOfDayUnique(DayNumber(d.year, d.month, d.day) + EpochShift, s, doy);
    MonthOfMarchYear(d);
  }

  /** The day of the March-based year of a valid date falls in that date's month and gives the date back. */
  lemma MonthOfMarchYear(d: Date)
    requires ValidDate(d)
    ensures DateInYear(MarchYear(d.year, d.month), MonthOffset(MarchMonth(d.month)) + d.day - 1) == d
  {
    DayOfMarchYear(d);
  }
}
