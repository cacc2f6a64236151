/**
 * The administrator's statistics: `getRevenue` (the approved purchases of a day, month or
 * year, their revenue in total and per template, and the confirmed orders of that period),
 * `getMenuItemStats` (how often each dish was ordered on the menus of a range of days) and
 * `getDashboard` (today's counts, the month's revenue and its five most ordered dishes).
 * Instants are milliseconds; the host's local calendar day is read with a fixed offset.
 */
module Statistics {
  import opened Wrappers
  import opened Types
  import opened Records
  import Seqs
  import Clock
  import Calendar
  import Tally
  import OrderReports
  import DailyMenus
  import Store

  // ---------------------------------------------------------------- local dates

  /** The host-local day number (days since 1970-01-01) of an instant. */
  function LocalDay(t: int, hostOffset: int): int {
    (t + hostOffset * Clock.MsPerMinute) / Clock.MsPerDay
  }

  /** `getFullYear()`, `getMonth() + 1` and `getDate()` of an instant. */
  function LocalDate(t: int, hostOffset: int): (d: Calendar.Date)
    ensures Calendar.ValidDate(d)
    ensures Calendar.DayNumber(d.year, d.month, d.day) == LocalDay(t, hostOffset)
  {
    Calendar.DateOf(LocalDay(t, hostOffset))
  }

  /** The `Date` constructor reads the years 0 to 99 as 1900 to 1999. */
  function ConstructorYear(y: int): int {
    if 0 <= y <= 99 then 1900 + y else y
  }

  /** `new Date(y, monthIndex, date, h, mi, s)`: the instant the host-local clock reads then. */
  function LocalInstant(y: int, monthIndex: int, date: int, h: int, mi: int, s: int, hostOffset: int): int {
    Calendar.MakeDay(ConstructorYear(y), monthIndex, date) * Clock.MsPerDay
    + h * Clock.MsPerHour + mi * Clock.MsPerMinute + s * 1000 - hostOffset * Clock.MsPerMinute
  }

  /** An instant `ms` milliseconds into local day `day`: its day, start of day and end of day. */
  lemma AtLocalTime(day: int, ms: int, hostOffset: int)
    requires 0 <= ms < Clock.MsPerDay
    ensures var t := day * Clock.MsPerDay + ms - hostOffset * Clock.MsPerMinute;
      && LocalDay(t, hostOffset) == day
      && Clock.StartOfDay(t, hostOffset) == day * Clock.MsPerDay - hostOffset * Clock.MsPerMinute
  {
    Clock.DivisionPins(day * Clock.MsPerDay + ms, day);
  }

  /** An instant lies in its local day. */
  lemma InLocalDay(t: int, hostOffset: int)
    ensures var day := LocalDay(t, hostOffset);
      day * Clock.MsPerDay - hostOffset * Clock.MsPerMinute <= t < (day + 1) * Clock.MsPerDay - hostOffset * Clock.MsPerMinute
  {
  }

  // ---------------------------------------------------------------- period ranges

  datatype Period = Day | Month | Year

  /** `period` defaults to "day"; "day" and "month" are recognized and any other value means a year. */
  function PeriodOf(query: Option<string>): (p: Period)
    ensures p == Day <==> query.None? || query.value == "day"
    ensures p == Month <==> query.Some? && query.value == "month"
  {
    var period := query.GetOr("day");
    if period == "day" then Day else if period == "month" then Month else Year
  }

  /** `processedAt: { $gte: start, $lte: end }`, both ends included. */
  datatype Range = Range(start: int, end: int)

  /**
   * The range as written: the local day of `base`; or the 1st of its month at 00:00:00 to
   * the last day of the month at 23:59:59; or January 1st at 00:00:00 to December 31st at
   * 23:59:59. The month and year ranges end on a whole second, 999 ms before the day does.
   */
  function PeriodRangeAsWritten(p: Period, base: int, hostOffset: int): Range {
    match p
    case Day => Range(Clock.StartOfDay(base, hostOffset), Clock.EndOfDay(base, hostOffset))
    case Month => MonthAsWritten(LocalDate(base, hostOffset), hostOffset)
    case Year => YearAsWritten(LocalDate(base, hostOffset), hostOffset)
  }

  /** The month of date `d` as written: `new Date(y, m - 1, 1)` to `new Date(y, m, 0, 23, 59, 59)`. */
  function MonthAsWritten(d: Calendar.Date, hostOffset: int): Range {
    Range(LocalInstant(d.year, d.month - 1, 1, 0, 0, 0, hostOffset),
          LocalInstant(d.year, d.month, 0, 23, 59, 59, hostOffset))
  }

  /** The year of date `d` as written: `new Date(y, 0, 1)` to `new Date(y, 11, 31, 23, 59, 59)`. */
  function YearAsWritten(d: Calendar.Date, hostOffset: int): Range {
    Range(LocalInstant(d.year, 0, 1, 0, 0, 0, hostOffset),
          LocalInstant(d.year, 11, 31, 23, 59, 59, hostOffset))
  }

  /** The period range, each range closing with the last millisecond of its last day. */
  function PeriodRange(p: Period, base: int, hostOffset: int): (r: Range)
    ensures (r.start + hostOffset * Clock.MsPerMinute) % Clock.MsPerDay == 0
    ensures r.end == Clock.EndOfDay(r.end, hostOffset)
  {
    var w := PeriodRangeAsWritten(p, base, hostOffset);
    WrittenStartsAtMidnight(p, base, hostOffset);
    if p == Day then
      Clock.SameLocalDay(base, w.end, hostOffset);
      w
    else
      Clock.SameLocalDay(w.end, Clock.EndOfDay(w.end, hostOffset), hostOffset);
      Range(w.start, Clock.EndOfDay(w.end, hostOffset))
  }

  /** Every range as written starts at a local midnight. */
  lemma WrittenStartsAtMidnight(p: Period, base: int, hostOffset: int)
    ensures (PeriodRangeAsWritten(p, base, hostOffset).start + hostOffset * Clock.MsPerMinute) % Clock.MsPerDay == 0
  {
    var d := LocalDate(base, hostOffset);
    match p
    case Day =>
    case Month =>
      StartsAtMidnight(Calendar.MakeDay(ConstructorYear(d.year), d.month - 1, 1), hostOffset);
    case Year =>
      StartsAtMidnight(Calendar.MakeDay(ConstructorYear(d.year), 0, 1), hostOffset);
  }

  lemma StartsAtMidnight(day: int, hostOffset: int)
    ensures (day * Clock.MsPerDay - hostOffset * Clock.MsPerMinute + hostOffset * Clock.MsPerMinute) % Clock.MsPerDay == 0
  {
  }

  /** How many local days a period of the date `d` spans. */
  function DaysOf(p: Period, d: Calendar.Date): int
    requires 1 <= d.month <= 12
  {
    match p
    case Day => 1
    case Month => Calendar.DaysInMonth(d.year, d.month)
    case Year => Calendar.DaysInYear(d.year)
  }

  /**
   * The range holds `base`; it starts on the 1st of the month (of January) of `base` and
   * spans that month's (that year's) days. The years 0 to 99 are excepted: the `Date`
   * constructor moves them to the twentieth century.
   */
  lemma PeriodCovers(p: Period, base: int, hostOffset: int)
    requires !(0 <= LocalDate(base, hostOffset).year <= 99)
    ensures var r := PeriodRange(p, base, hostOffset);
      r.start <= base <= r.end
    ensures var r, d := PeriodRange(p, base, hostOffset), LocalDate(base, hostOffset);
      LocalDay(r.end, hostOffset) + 1 - LocalDay(r.start, hostOffset) == DaysOf(p, d)
    ensures var r, d := PeriodRange(p, base, hostOffset), LocalDate(base, hostOffset);
      p == Month ==> LocalDay(base, hostOffset) - LocalDay(r.start, hostOffset) == d.day - 1
  {
    match p
    case Day => DayCovers(base, hostOffset);
    case Month => MonthCovers(base, hostOffset);
    case Year => YearCovers(base, hostOffset);
  }

  lemma DayCovers(base: int, hostOffset: int)
    ensures var r := PeriodRange(Day, base, hostOffset);
      && r.start <= base <= r.end
      && LocalDay(r.end, hostOffset) == LocalDay(r.start, hostOffset)
  {
    var z := LocalDay(base, hostOffset);
    InLocalDay(base, hostOffset);
    Clock.SameLocalDay(base, Clock.EndOfDay(base, hostOffset), hostOffset);
    AtLocalTime(z, 0, hostOffset);
    AtLocalTime(z, Clock.MsPerDay - 1, hostOffset);
  }

  lemma MonthCovers(base: int, hostOffset: int)
    requires !(0 <= LocalDate(base, hostOffset).year <= 99)
    ensures var r, d := PeriodRange(Month, base, hostOffset), LocalDate(base, hostOffset);
      && r.start <= base <= r.end
      && LocalDay(r.end, hostOffset) + 1 - LocalDay(r.start, hostOffset) == Calendar.DaysInMonth(d.year, d.month)
      && LocalDay(base, hostOffset) - LocalDay(r.start, hostOffset) == d.day - 1
  {
    MonthOfDate(LocalDate(base, hostOffset), base, hostOffset);
  }

  /** The month range of the local date `d` of `t`, closed at the end of its last day. */
  lemma MonthOfDate(d: Calendar.Date, t: int, hostOffset: int)
    requires Calendar.ValidDate(d) && !(0 <= d.year <= 99)
    requires Calendar.DayNumber(d.year, d.month, d.day) == LocalDay(t, hostOffset)
    ensures var w := MonthAsWritten(d, hostOffset);
      var r := Range(w.start, Clock.EndOfDay(w.end, hostOffset));
      && r.start <= t <= r.end
      && LocalDay(r.end, hostOffset) + 1 - LocalDay(r.start, hostOffset) == Calendar.DaysInMonth(d.year, d.month)
      && LocalDay(t, hostOffset) - LocalDay(r.start, hostOffset) == d.day - 1
  {
    var first, next := Calendar.MakeDay(d.year, d.month - 1, 1), Calendar.MakeDay(d.year, d.month, 1);
    MonthRange(d, hostOffset);
    Calendar.InMonth(d);
    Calendar.MonthSpan(d.year, d.month);
    var w := MonthAsWritten(d, hostOffset);
    RangeOfDays(first, next - 1, t, hostOffset, w.start, w.end);
  }

  /** Outside the years 0 to 99, the month range runs from the 1st of the month to the day before the 1st of the next. */
  lemma MonthRange(d: Calendar.Date, hostOffset: int)
    requires !(0 <= d.year <= 99)
    ensures var w := MonthAsWritten(d, hostOffset);
      && w.start == Calendar.MakeDay(d.year, d.month - 1, 1) * Clock.MsPerDay - hostOffset * Clock.MsPerMinute
      && w.end == (Calendar.MakeDay(d.year, d.month, 1) - 1) * Clock.MsPerDay + 86399000 - hostOffset * Clock.MsPerMinute
  {
  }

  lemma YearCovers(base: int, hostOffset: int)
    requires !(0 <= LocalDate(base, hostOffset).year <= 99)
    ensures var r, d := PeriodRange(Year, base, hostOffset), LocalDate(base, hostOffset);
      && r.start <= base <= r.end
      && LocalDay(r.end, hostOffset) + 1 - LocalDay(r.start, hostOffset) == Calendar.DaysInYear(d.year)
  {
    YearOfDate(LocalDate(base, hostOffset), base, hostOffset);
  }

  /** The year range of the local date `d` of `t`, closed at the end of its last day. */
  lemma YearOfDate(d: Calendar.Date, t: int, hostOffset: int)
    requires Calendar.ValidDate(d) && !(0 <= d.year <= 99)
    requires Calendar.DayNumber(d.year, d.month, d.day) == LocalDay(t, hostOffset)
    ensures var w := YearAsWritten(d, hostOffset);
      var r := Range(w.start, Clock.EndOfDay(w.end, hostOffset));
      && r.start <= t <= r.end
      && LocalDay(r.end, hostOffset) + 1 - LocalDay(r.start, hostOffset) == Calendar.DaysInYear(d.year)
  {
    var first, last := Calendar.MakeDay(d.year, 0, 1), Calendar.MakeDay(d.year, 11, 31);
    YearRange(d, hostOffset);
    Calendar.InYear(d);
    Calendar.YearSpan(d.year);
    var w := YearAsWritten(d, hostOffset);
    RangeOfDays(first, last, t, hostOffset, w.start, w.end);
  }

  /** Outside the years 0 to 99, the year range runs from January 1st to December 31st. */
  lemma YearRange(d: Calendar.Date, hostOffset: int)
    requires !(0 <= d.year <= 99)
    ensures var w := YearAsWritten(d, hostOffset);
      && w.start == Calendar.MakeDay(d.year, 0, 1) * Clock.MsPerDay - hostOffset * Clock.MsPerMinute
      && w.end == Calendar.MakeDay(d.year, 11, 31) * Clock.MsPerDay + 86399000 - hostOffset * Clock.MsPerMinute
  {
  }

  /** The instants of the local days `first` to `last`, the last one cut at 23:59:59, then extended to its end. */
  lemma RangeOfDays(first: int, last: int, base: int, hostOffset: int, start: int, cut: int)
    requires first <= LocalDay(base, hostOffset) <= last
    requires start == first * Clock.MsPerDay - hostOffset * Clock.MsPerMinute
    requires cut == last * Clock.MsPerDay + 86399000 - hostOffset * Clock.MsPerMinute
    ensures var end := Clock.EndOfDay(cut, hostOffset);
      && start <= base <= end
      && LocalDay(start, hostOffset) == first
      && LocalDay(end, hostOffset) == last
  {
    InLocalDay(base, hostOffset);
    AtLocalTime(first, 0, hostOffset);
    AtLocalTime(last, 86399000, hostOffset);
    AtLocalTime(last, Clock.MsPerDay - 1, hostOffset);
  }

  // ---------------------------------------------------------------- getRevenue

  /** The populated `mealPackageId`: the template, or null once it has been deleted. */
  function TemplateOf(mealPackages: seq<MealPackage>, id: nat): (r: Option<MealPackage>)
    ensures r.Some? ==> r.value in mealPackages && r.value.id == id
    ensures r.None? <==> forall p | p in mealPackages :: p.id != id
  {
    match Seqs.FindFirst(mealPackages, (p: MealPackage) => p.id == id)
    case None => None
    case Some(k) => Some(mealPackages[k])
  }

  /** `status: "approved", processedAt: { $gte: start, $lte: end }`. */
  predicate ApprovedIn(q: PurchaseRequest, range: Range) {
    q.status == Approved && q.processedAt.Some? && range.start <= q.processedAt.value <= range.end
  }

  /** `PackagePurchaseRequest.find(...)`: the approved requests of a range, in natural order. */
  function ApprovedRequests(requests: seq<PurchaseRequest>, range: Range): (r: seq<PurchaseRequest>)
    ensures forall q | q in r :: q in requests && ApprovedIn(q, range)
    ensures forall q | q in requests && ApprovedIn(q, range) :: q in r
  {
    Seqs.Filter(requests, (q: PurchaseRequest) => ApprovedIn(q, range))
  }

  /** `{ name, count, revenue }` under the key of a template. */
  datatype Sales = Sales(packageId: nat, name: string, count: int, revenue: int)

  /** `totalRevenue` and `revenueByPackage`, its entries in order of first sale. */
  datatype Revenue = Revenue(total: int, breakdown: seq<Sales>)

  function FindSales(breakdown: seq<Sales>, id: nat): (r: Option<nat>)
    ensures r.Some? ==> r.value < |breakdown| && breakdown[r.value].packageId == id
    ensures r.None? <==> forall e | e in breakdown :: e.packageId != id
  {
    Seqs.FindFirst(breakdown, (e: Sales) => e.packageId == id)
  }

  /** One sale of template `p`: a template not seen yet starts at count and revenue 0. */
  function Sell(rev: Revenue, p: MealPackage): Revenue {
    Revenue(rev.total + p.price,
      match FindSales(rev.breakdown, p.id)
      case None => rev.breakdown + [Sales(p.id, p.name, 0 + 1, 0 + p.price)]
      case Some(k) => rev.breakdown[k := rev.breakdown[k].(count := rev.breakdown[k].count + 1,
                                                            revenue := rev.breakdown[k].revenue + p.price)])
  }

  /** The revenue after the loop has seen `requests`; a request whose template is gone is skipped. */
  function RevenueOf(requests: seq<PurchaseRequest>, mealPackages: seq<MealPackage>): Revenue {
    if requests == [] then Revenue(0, [])
    else
      var rev := RevenueOf(requests[..|requests| - 1], mealPackages);
      match TemplateOf(mealPackages, requests[|requests| - 1].mealPackageId)
      case None => rev
      case Some(p) => Sell(rev, p)
  }

  /** How many of the requests still have their template. */
  function Priced(requests: seq<PurchaseRequest>, mealPackages: seq<MealPackage>): (n: nat)
    ensures n <= |requests|
  {
    if requests == [] then 0
    else Priced(requests[..|requests| - 1], mealPackages)
         + (if TemplateOf(mealPackages, requests[|requests| - 1].mealPackageId).Some? then 1 else 0)
  }

  /** How many of the requests are for template `id`. */
  function Requested(requests: seq<PurchaseRequest>, id: nat): nat {
    if requests == [] then 0
    else Requested(requests[..|requests| - 1], id) + (if requests[|requests| - 1].mealPackageId == id then 1 else 0)
  }

  function Revenues(breakdown: seq<Sales>): int {
    if breakdown == [] then 0 else Revenues(breakdown[..|breakdown| - 1]) + breakdown[|breakdown| - 1].revenue
  }

  function Counts(breakdown: seq<Sales>): int {
    if breakdown == [] then 0 else Counts(breakdown[..|breakdown| - 1]) + breakdown[|breakdown| - 1].count
  }

  /**
   * The breakdown accounts for the whole revenue: its revenues add up to `totalRevenue`, and
   * its counts to the requests whose template still exists, which is at most
   * `totalPackagesSold`.
   */
  lemma {:induction false} RevenueAddsUp(requests: seq<PurchaseRequest>, mealPackages: seq<MealPackage>)
    ensures Revenues(RevenueOf(requests, mealPackages).breakdown) == RevenueOf(requests, mealPackages).total
    ensures Counts(RevenueOf(requests, mealPackages).breakdown) == Priced(requests, mealPackages) <= |requests|
  {
    if requests != [] {
      var init := requests[..|requests| - 1];
      RevenueAddsUp(init, mealPackages);
      match TemplateOf(mealPackages, requests[|requests| - 1].mealPackageId)
      case None =>
      case Some(p) => SellAddsUp(RevenueOf(init, mealPackages), p);
    }
  }

  lemma SellAddsUp(rev: Revenue, p: MealPackage)
    ensures Revenues(Sell(rev, p).breakdown) == Revenues(rev.breakdown) + p.price
    ensures Counts(Sell(rev, p).breakdown) == Counts(rev.breakdown) + 1
  {
    var b := rev.breakdown;
    match FindSales(b, p.id)
    case None =>
      assert (b + [Sales(p.id, p.name, 1, p.price)])[..|b|] == b;
    case Some(k) =>
      UpdateSums(b, k, b[k].(count := b[k].count + 1, revenue := b[k].revenue + p.price));
  }

  lemma {:induction false} UpdateSums(b: seq<Sales>, k: nat, e: Sales)
    requires k < |b|
    ensures Revenues(b[k := e]) == Revenues(b) - b[k].revenue + e.revenue
    ensures Counts(b[k := e]) == Counts(b) - b[k].count + e.count
    decreases |b|
  {
    var b' := b[k := e];
    if k < |b| - 1 {
      assert b'[..|b'| - 1] == b[..|b| - 1][k := e];
      UpdateSums(b[..|b| - 1], k, e);
    } else {
      assert b'[..|b'| - 1] == b[..|b| - 1];
    }
  }

  /** No template has two entries. */
  predicate KeyedSales(b: seq<Sales>) {
    forall i, j | 0 <= i < j < |b| :: b[i].packageId != b[j].packageId
  }

  /** An entry under an existing template's id, with its name, its requests and their revenue at its price. */
  predicate SoldAsRequested(e: Sales, requests: seq<PurchaseRequest>, mealPackages: seq<MealPackage>) {
    && TemplateOf(mealPackages, e.packageId).Some?
    && e.name == TemplateOf(mealPackages, e.packageId).value.name
    && e.count == Requested(requests, e.packageId)
    && e.revenue == e.count * TemplateOf(mealPackages, e.packageId).value.price
  }

  /**
   * One entry per template sold: under its id, with its name, the number of requests for it
   * and their revenue at the template's price.
   */
  lemma {:induction false} RevenueEntries(requests: seq<PurchaseRequest>, mealPackages: seq<MealPackage>)
    ensures KeyedSales(RevenueOf(requests, mealPackages).breakdown)
    ensures forall e | e in RevenueOf(requests, mealPackages).breakdown :: SoldAsRequested(e, requests, mealPackages)
  {
    if requests != [] {
      var init, q := requests[..|requests| - 1], requests[|requests| - 1];
      assert requests == init + [q];
      RevenueEntries(init, mealPackages);
      var rev := RevenueOf(init, mealPackages);
      match TemplateOf(mealPackages, q.mealPackageId)
      case None =>
        forall e | e in rev.breakdown ensures SoldAsRequested(e, requests, mealPackages) {
          assert SoldAsRequested(e, init, mealPackages);
          assert e.packageId != q.mealPackageId;
        }
      case Some(p) =>
        SellEntries(rev, p, init, q, mealPackages);
    }
  }

  lemma SellEntries(rev: Revenue, p: MealPackage, init: seq<PurchaseRequest>, q: PurchaseRequest, mealPackages: seq<MealPackage>)
    requires TemplateOf(mealPackages, q.mealPackageId) == Some(p)
    requires rev == RevenueOf(init, mealPackages)
    requires KeyedSales(rev.breakdown)
    requires forall e | e in rev.breakdown :: SoldAsRequested(e, init, mealPackages)
    ensures KeyedSales(Sell(rev, p).breakdown)
    ensures forall e | e in Sell(rev, p).breakdown :: SoldAsRequested(e, init + [q], mealPackages)
  {
    RequestedSnoc(init, q);
    var b := rev.breakdown;
    match FindSales(b, p.id)
    case None =>
      RequestedAbsent(init, p.id, mealPackages);
      SellNew(b, p, init, q, mealPackages);
      assert Sell(rev, p).breakdown == b + [Sales(p.id, p.name, 0 + 1, 0 + p.price)];
    case Some(k) =>
      SellMore(b, k, p, init, q, mealPackages);
      assert Sell(rev, p).breakdown == b[k := b[k].(count := b[k].count + 1, revenue := b[k].revenue + p.price)];
  }

  lemma RequestedSnoc(init: seq<PurchaseRequest>, q: PurchaseRequest)
    ensures forall id :: Requested(init + [q], id) == Requested(init, id) + (if q.mealPackageId == id then 1 else 0)
  {
    assert (init + [q])[..|init|] == init;
  }

  /** The first sale of `p` appends its entry; the other entries are for other templates. */
  lemma SellNew(b: seq<Sales>, p: MealPackage, init: seq<PurchaseRequest>, q: PurchaseRequest, mealPackages: seq<MealPackage>)
    requires TemplateOf(mealPackages, q.mealPackageId) == Some(p)
    requires KeyedSales(b) && forall e | e in b :: e.packageId != p.id
    requires forall e | e in b :: SoldAsRequested(e, init, mealPackages)
    requires Requested(init, p.id) == 0
    requires forall id :: Requested(init + [q], id) == Requested(init, id) + (if q.mealPackageId == id then 1 else 0)
    ensures var b' := b + [Sales(p.id, p.name, 0 + 1, 0 + p.price)];
      KeyedSales(b') && forall e | e in b' :: SoldAsRequested(e, init + [q], mealPackages)
  {
    var b' := b + [Sales(p.id, p.name, 0 + 1, 0 + p.price)];
    forall i, j | 0 <= i < j < |b'| ensures b'[i].packageId != b'[j].packageId {
      if j == |b| { assert b'[i] in b; }
    }
    forall e | e in b' ensures SoldAsRequested(e, init + [q], mealPackages) {
      if e in b {
        assert SoldAsRequested(e, init, mealPackages);
      }
    }
  }

  /** A further sale of `p` counts it once more in its entry `k`; the others are for other templates. */
  lemma SellMore(b: seq<Sales>, k: nat, p: MealPackage, init: seq<PurchaseRequest>, q: PurchaseRequest, mealPackages: seq<MealPackage>)
    requires TemplateOf(mealPackages, q.mealPackageId) == Some(p)
    requires k < |b| && b[k].packageId == p.id
    requires KeyedSales(b)
    requires forall e | e in b :: SoldAsRequested(e, init, mealPackages)
    requires forall id :: Requested(init + [q], id) == Requested(init, id) + (if q.mealPackageId == id then 1 else 0)
    ensures var b' := b[k := b[k].(count := b[k].count + 1, revenue := b[k].revenue + p.price)];
      KeyedSales(b') && forall e | e in b' :: SoldAsRequested(e, init + [q], mealPackages)
  {
    var b' := b[k := b[k].(count := b[k].count + 1, revenue := b[k].revenue + p.price)];
    forall e | e in b' ensures SoldAsRequested(e, init + [q], mealPackages) {
      var i :| 0 <= i < |b'| && b'[i] == e;
      assert SoldAsRequested(b[i], init, mealPackages) by { assert b[i] in b; }
      if i == k {
        SoldOnceMore(b[k], p, init, q, mealPackages);
      } else {
        assert b[i].packageId != p.id;
      }
    }
  }

  /** The entry of the template sold once more: one more request, one more price in its revenue. */
  lemma SoldOnceMore(e: Sales, p: MealPackage, init: seq<PurchaseRequest>, q: PurchaseRequest, mealPackages: seq<MealPackage>)
    requires SoldAsRequested(e, init, mealPackages)
    requires TemplateOf(mealPackages, q.mealPackageId) == Some(p) && e.packageId == p.id
    requires Requested(init + [q], p.id) == Requested(init, p.id) + 1
    ensures SoldAsRequested(e.(count := e.count + 1, revenue := e.revenue + p.price), init + [q], mealPackages)
  {
    assert (e.count + 1) * p.price == e.count * p.price + p.price;
  }

  /** A template without an entry has no request yet. */
  lemma {:induction false} RequestedAbsent(requests: seq<PurchaseRequest>, id: nat, mealPackages: seq<MealPackage>)
    requires TemplateOf(mealPackages, id).Some?
    requires forall e | e in RevenueOf(requests, mealPackages).breakdown :: e.packageId != id
    ensures Requested(requests, id) == 0
  {
    if requests != [] {
      var init, q := requests[..|requests| - 1], requests[|requests| - 1];
      var rev := RevenueOf(init, mealPackages);
      match TemplateOf(mealPackages, q.mealPackageId)
      case None =>
        RequestedAbsent(init, id, mealPackages);
      case Some(p) =>
        SellKeeps(rev, p, id);
        RequestedAbsent(init, id, mealPackages);
    }
  }

  /** A sale keeps every entry's key and adds the sold template's. */
  lemma SellKeeps(rev: Revenue, p: MealPackage, id: nat)
    ensures (exists e | e in Sell(rev, p).breakdown :: e.packageId == id)
      <==> id == p.id || exists e | e in rev.breakdown :: e.packageId == id
  {
    var b, b' := rev.breakdown, Sell(rev, p).breakdown;
    match FindSales(b, p.id)
    case None =>
      if exists e | e in b :: e.packageId == id {
        var e :| e in b && e.packageId == id;
        assert e in b';
      }
      if id == p.id {
        assert b'[|b|] in b';
      }
    case Some(k) =>
      if exists e | e in b :: e.packageId == id {
        var e :| e in b && e.packageId == id;
        var i :| 0 <= i < |b| && b[i] == e;
        assert b'[i] in b';
      }
      if exists e | e in b' :: e.packageId == id {
        var e :| e in b' && e.packageId == id;
        var i :| 0 <= i < |b'| && b'[i] == e;
        assert b[i] in b;
      }
      if id == p.id {
        assert b'[k] in b';
      }
  }

  /** The loop over the approved requests that fills `totalRevenue` and `revenueByPackage`. */
  method SumRevenue(requests: seq<PurchaseRequest>, mealPackages: seq<MealPackage>) returns (rev: Revenue)
    ensures rev == RevenueOf(requests, mealPackages)
  {
    rev := Revenue(0, []);
    for i := 0 to |requests|
      invariant rev == RevenueOf(requests[..i], mealPackages)
    {
      Seqs.TakeSnoc(requests, i);
      rev := SellTurn(rev, requests[i], mealPackages, requests[..i]);
    }
    assert requests[..|requests|] == requests;
  }

  /** One turn: skip a request whose template is gone, otherwise add its price everywhere. */
  method SellTurn(rev: Revenue, q: PurchaseRequest, mealPackages: seq<MealPackage>, ghost seen: seq<PurchaseRequest>)
    returns (rev': Revenue)
    requires rev == RevenueOf(seen, mealPackages)
    ensures rev' == RevenueOf(seen + [q], mealPackages)
  {
    assert (seen + [q])[..|seen|] == seen;
    var pkg := TemplateOf(mealPackages, q.mealPackageId);
    if pkg.None? {
      return rev;
    }
    rev' := SellOne(rev, pkg.value);
  }

  /** One sale inside the loop: the entry is found or appended at zero, then counted and priced. */
  method SellOne(rev: Revenue, p: MealPackage) returns (rev': Revenue)
    ensures rev' == Sell(rev, p)
  {
    var b := rev.breakdown;
    var k := FindSales(b, p.id);
    if k.None? {
      b := b + [Sales(p.id, p.name, 0, 0)];
      k := Some(|rev.breakdown|);
    }
    b := b[k.value := b[k.value].(count := b[k.value].count + 1)];
    b := b[k.value := b[k.value].(revenue := b[k.value].revenue + p.price)];
    rev' := Revenue(rev.total + p.price, b);
  }

  /** `DailyMenu.find({ menuDate: { $gte: start, $lte: end } })`. */
  function MenusIn(menus: seq<DailyMenu>, range: Range): (r: seq<DailyMenu>)
    ensures forall m | m in r :: m in menus && range.start <= m.menuDate <= range.end
    ensures forall m | m in menus && range.start <= m.menuDate <= range.end :: m in r
  {
    Seqs.Filter(menus, (m: DailyMenu) => range.start <= m.menuDate <= range.end)
  }

  function MenuIds(menus: seq<DailyMenu>): set<nat> {
    set m | m in menus :: m.id
  }

  /** `Order.find({ dailyMenuId: { $in: menuIds } })`. */
  function OrdersOn(orders: seq<Order>, menuIds: set<nat>): (r: seq<Order>)
    ensures forall o | o in r :: o in orders && o.dailyMenuId in menuIds
    ensures forall o | o in orders && o.dailyMenuId in menuIds :: o in r
  {
    Seqs.Filter(orders, (o: Order) => o.dailyMenuId in menuIds)
  }

  /** `Order.countDocuments({ dailyMenuId: { $in: menuIds }, isConfirmed: true })`. */
  function ConfirmedOrdersOn(orders: seq<Order>, menuIds: set<nat>): (r: seq<Order>)
    ensures forall o | o in r :: o in orders && o.dailyMenuId in menuIds && o.isConfirmed
    ensures forall o | o in orders && o.dailyMenuId in menuIds && o.isConfirmed :: o in r
  {
    Seqs.Filter(orders, (o: Order) => o.dailyMenuId in menuIds && o.isConfirmed)
  }

  /** The confirmed orders are some of the orders: the revenue counts no more orders than the dish statistics. */
  lemma {:induction false} ConfirmedAmongOrders(orders: seq<Order>, menuIds: set<nat>)
    ensures |ConfirmedOrdersOn(orders, menuIds)| <= |OrdersOn(orders, menuIds)|
    ensures |ConfirmedOrdersOn(orders, menuIds)| == |OrdersOn(orders, menuIds)| <==>
      forall o | o in orders && o.dailyMenuId in menuIds :: o.isConfirmed
  {
    if orders != [] {
      ConfirmedAmongOrders(orders[1..], menuIds);
      assert forall o | o in orders[1..] :: o in orders;
      assert orders == [orders[0]] + orders[1..];
    }
  }

  /** The response data of `getRevenue`. */
  datatype RevenueReport = RevenueReport(
    period: string,
    startDate: int,
    endDate: int,
    totalRevenue: int,
    totalPackagesSold: nat,
    totalOrders: nat,
    breakdown: seq<Sales>)

  /**
   * `getRevenue` for the instant `base` (the `date` query, or the current time): the
   * revenue of the approved requests of the period, the number of them, and the number of
   * confirmed orders on the period's menus.
   */
  method GetRevenue(db: Store.Db, period: Option<string>, base: int, hostOffset: int) returns (r: RevenueReport)
    ensures var range := PeriodRange(PeriodOf(period), base, hostOffset);
      var approved := ApprovedRequests(db.requests, range);
      && r.startDate == range.start && r.endDate == range.end
      && r.totalRevenue == RevenueOf(approved, db.mealPackages).total
      && r.breakdown == RevenueOf(approved, db.mealPackages).breakdown
      && r.totalPackagesSold == |approved|
      && r.totalOrders == |ConfirmedOrdersOn(db.orders, MenuIds(MenusIn(db.menus, range)))|
    ensures r.period == period.GetOr("day")
  {
    var range := PeriodRange(PeriodOf(period), base, hostOffset);
    var approved := ApprovedRequests(db.requests, range);
    var rev := SumRevenue(approved, db.mealPackages);
    var menuIds := MenuIds(MenusIn(db.menus, range));
    var totalOrders := |ConfirmedOrdersOn(db.orders, menuIds)|;
    r := RevenueReport(period.GetOr("day"), range.start, range.end, rev.total, |approved|, totalOrders, rev.breakdown);
  }

  // ---------------------------------------------------------------- getMenuItemStats

  function OrderIds(orders: seq<Order>): set<nat> {
    set o | o in orders :: o.id
  }

  /** `OrderItem.find({ orderId: { $in: orderIds } })`: in natural order, not grouped by order. */
  function ItemsOfAll(orderItems: seq<OrderItem>, orderIds: set<nat>): (r: seq<OrderItem>)
    ensures forall x | x in r :: x in orderItems && x.orderId in orderIds
    ensures forall x | x in orderItems && x.orderId in orderIds :: x in r
  {
    Seqs.Filter(orderItems, (x: OrderItem) => x.orderId in orderIds)
  }

  /** The items ordered on some menus, as the statistics loops read them. */
  function ItemsOnMenus(orders: seq<Order>, orderItems: seq<OrderItem>, menuIds: set<nat>): seq<OrderItem> {
    ItemsOfAll(orderItems, OrderIds(OrdersOn(orders, menuIds)))
  }

  /** The `itemStats` of some order items; an item whose menu item is gone is skipped. */
  function ItemStats(items: seq<OrderItem>, menuItems: seq<MenuItem>): seq<Tally.Entry> {
    Tally.TallyOf(OrderReports.Resolved(items, menuItems))
  }

  /** The loop that fills `itemStats`. */
  method CountItems(items: seq<OrderItem>, menuItems: seq<MenuItem>) returns (stats: seq<Tally.Entry>)
    ensures stats == ItemStats(items, menuItems)
  {
    stats := [];
    for i := 0 to |items|
      invariant stats == ItemStats(items[..i], menuItems)
    {
      Seqs.TakeSnoc(items, i);
      stats := OrderReports.CountItem(stats, items[i], menuItems, items[..i]);
    }
    assert items[..|items|] == items;
  }

  /** The response data of `getMenuItemStats`. */
  datatype ItemReport = ItemReport(startDate: int, endDate: int, totalOrders: nat, items: seq<Tally.Entry>)

  /**
   * `getMenuItemStats` from the local day of `startDate` to that of `endDate` (each the
   * current time when absent): every order on the menus of those days counts, confirmed or
   * not, and the dishes are ranked by the quantities ordered.
   */
  method GetMenuItemStats(db: Store.Db, startDate: Option<int>, endDate: Option<int>, now: int, hostOffset: int)
    returns (r: ItemReport)
    ensures r.startDate == Clock.StartOfDay(startDate.GetOr(now), hostOffset)
    ensures r.endDate == Clock.EndOfDay(endDate.GetOr(now), hostOffset)
    ensures var menuIds := MenuIds(MenusIn(db.menus, Range(r.startDate, r.endDate)));
      && r.totalOrders == |OrdersOn(db.orders, menuIds)|
      && r.items == Tally.ByCountDesc(ItemStats(ItemsOnMenus(db.orders, db.orderItems, menuIds), db.menuItems))
  {
    var start := Clock.StartOfDay(startDate.GetOr(now), hostOffset);
    var end := Clock.EndOfDay(endDate.GetOr(now), hostOffset);
    var menuIds := MenuIds(MenusIn(db.menus, Range(start, end)));
    var orders := OrdersOn(db.orders, menuIds);
    var stats := CountItems(ItemsOfAll(db.orderItems, OrderIds(orders)), db.menuItems);
    r := ItemReport(start, end, |orders|, Tally.ByCountDesc(stats));
  }

  // ---------------------------------------------------------------- getDashboard

  /** The dashboard's `activePackages`: the packages usable today, whoever owns them. */
  function PackagesInUse(ps: seq<UserPackage>, now: int): (r: seq<UserPackage>)
    ensures forall p | p in r :: p in ps && Usable(p, now)
    ensures forall p | p in ps && Usable(p, now) :: p in r
  {
    Seqs.Filter(ps, (p: UserPackage) => Usable(p, now))
  }

  function PendingRequests(requests: seq<PurchaseRequest>): (r: seq<PurchaseRequest>)
    ensures forall q | q in r :: q in requests && q.status == Pending
    ensures forall q | q in requests && q.status == Pending :: q in r
  {
    Seqs.Filter(requests, (q: PurchaseRequest) => q.status == Pending)
  }

  /** `.slice(0, 5)` of the ranked dishes: the five most ordered, most ordered first. */
  function TopItems(stats: seq<Tally.Entry>): (r: seq<Tally.Entry>)
    ensures |r| <= 5
    ensures forall i, j | 0 <= i < j < |r| :: r[i].count >= r[j].count
  {
    Seqs.Take(Tally.ByCountDesc(stats), 5)
  }

  /** Only a full top five leaves dishes out, and no dish left out was ordered more than one kept. */
  lemma TopItemsBeatTheRest(stats: seq<Tally.Entry>)
    ensures |TopItems(stats)| == if |stats| < 5 then |stats| else 5
    ensures forall e | e in TopItems(stats) :: e in stats
    ensures forall x, y | x in stats && x !in TopItems(stats) && y in TopItems(stats) :: y.count >= x.count
  {
    var s, r := Tally.ByCountDesc(stats), TopItems(stats);
    assert |s| == |multiset(s)| == |multiset(stats)| == |stats|;
    forall e | e in r ensures e in stats {
      assert e in multiset(s);
    }
    forall x, y | x in stats && x !in r && y in r ensures y.count >= x.count {
      assert x in multiset(s);
      var j :| 0 <= j < |s| && s[j] == x;
      var i :| 0 <= i < |r| && r[i] == y;
      assert j >= |r|;
    }
  }

  /** The response data of `getDashboard`. */
  datatype Dashboard = Dashboard(
    totalUsers: nat,
    activePackages: nat,
    todayMenus: nat,
    todayOrders: nat,
    pendingPurchaseRequests: nat,
    monthlyRevenue: int,
    topItems: seq<Tally.Entry>)

  /** From the 1st of the month of `now` to the end of today. */
  function MonthToDate(now: int, hostOffset: int): Range {
    Range(PeriodRangeAsWritten(Month, now, hostOffset).start, Clock.EndOfDay(now, hostOffset))
  }

  /**
   * `getDashboard` at `now`: the users; the packages in use; today's menus and the orders
   * on them; the pending purchase requests; the revenue of the month so far; and the five
   * dishes ordered most on this month's menus.
   */
  method GetDashboard(db: Store.Db, now: int, hostOffset: int) returns (r: Dashboard)
    ensures r.totalUsers == |db.users|
    ensures r.activePackages == |PackagesInUse(db.userPackages, now)|
    ensures r.todayMenus == |DailyMenus.MenusOfDay(db.menus, now, hostOffset)|
    ensures r.todayOrders == |OrdersOn(db.orders, MenuIds(DailyMenus.MenusOfDay(db.menus, now, hostOffset)))|
    ensures r.pendingPurchaseRequests == |PendingRequests(db.requests)|
    ensures var month := MonthToDate(now, hostOffset);
      && r.monthlyRevenue == RevenueOf(ApprovedRequests(db.requests, month), db.mealPackages).total
      && r.topItems == TopItems(ItemStats(ItemsOnMenus(db.orders, db.orderItems, MenuIds(MenusIn(db.menus, month))), db.menuItems))
  {
    var today := DailyMenus.MenusOfDay(db.menus, now, hostOffset);
    var month := MonthToDate(now, hostOffset);
    var monthlyRevenue := SumPrices(ApprovedRequests(db.requests, month), db.mealPackages);
    var items := ItemsOnMenus(db.orders, db.orderItems, MenuIds(MenusIn(db.menus, month)));
    var stats := CountItems(items, db.menuItems);
    r := Dashboard(|db.users|, |PackagesInUse(db.userPackages, now)|, |today|,
                   |OrdersOn(db.orders, MenuIds(today))|, |PendingRequests(db.requests)|,
                   monthlyRevenue, TopItems(stats));
  }

  /** The loop of `monthlyRevenue`: the price of each request whose template still exists. */
  method SumPrices(requests: seq<PurchaseRequest>, mealPackages: seq<MealPackage>) returns (total: int)
    ensures total == RevenueOf(requests, mealPackages).total
  {
    total := 0;
    for i := 0 to |requests|
      invariant total == RevenueOf(requests[..i], mealPackages).total
    {
      Seqs.TakeSnoc(requests, i);
      assert (requests[..i] + [requests[i]])[..i] == requests[..i];
      var pkg := TemplateOf(mealPackages, requests[i].mealPackageId);
      if pkg.Some? {
        total := total + pkg.value.price;
      }
    }
    assert requests[..|requests|] == requests;
  }

  // ---------------------------------------------------------------- the range as written

  /** The month and year ranges as written stop 999 ms short of the end of their last day. */
  lemma AsWrittenEndsEarly(p: Period, base: int, hostOffset: int)
    ensures p != Day ==> PeriodRange(p, base, hostOffset).end == PeriodRangeAsWritten(p, base, hostOffset).end + 999
  {
    var d := LocalDate(base, hostOffset);
    match p
    case Day =>
    case Month =>
      AtLocalTime(Calendar.MakeDay(ConstructorYear(d.year), d.month, 0), 86399000, hostOffset);
    case Year =>
      AtLocalTime(Calendar.MakeDay(ConstructorYear(d.year), 11, 31), 86399000, hostOffset);
  }

  /**
   * 2025-01-31 23:59:59.500 in UTC+7: the month range as written for that instant leaves the
   * instant itself out, and a request approved then is in no monthly revenue report.
   */
  lemma LastSecondOfJanuary()
    ensures var base := 1738342799500;
      var w, r := PeriodRangeAsWritten(Month, base, 420), PeriodRange(Month, base, 420);
      && w.end < base
      && r.start <= base <= r.end
  {
    var base := 1738342799500;
    var d := Calendar.Date(2025, 1, 31);
    EndOfJanuary2025();
    assert LocalDay(base, 420) == 20119;
    Calendar.DateRoundTrip(d);
    MonthRange(d, 420);
    MonthCovers(base, 420);
  }

  /** January 31st, 2025 is day 20119; February 1st is day 20120. */
  lemma EndOfJanuary2025()
    ensures Calendar.DayNumber(2025, 1, 31) == 20119
    ensures Calendar.MakeDay(2025, 1, 1) == 20120
  {
    assert Calendar.MarchFirst(2024) == 739251;
  }
}
