/**
 * Instants, local days and the ordering window.
 *
 * An instant is a count of milliseconds since the Unix epoch (UTC). The host's time zone is
 * a fixed offset `hostOffset`, in minutes east of UTC, so JavaScript's `getTimezoneOffset()`
 * is `-hostOffset`, and `setHours` works on the host-local wall clock `t + hostOffset`
 * minutes. Two different "days" exist side by side: the host-local day of `getStartOfDay`
 * and `getEndOfDay`, and the fixed UTC+7 day the ordering window is checked against.
 */
module Clock {
  import opened Wrappers
  import Text

  const MsPerMinute: int := 60000
  const MsPerHour: int := 3600000
  const MsPerDay: int := 86400000
  /** Vietnam's fixed offset, UTC+7, in minutes. */
  const VietnamOffset: int := 420

  /** The instant at which the host-local day holding `t` starts. */
  function LocalMidnight(t: int, hostOffset: int): int {
    ((t + hostOffset * MsPerMinute) / MsPerDay) * MsPerDay - hostOffset * MsPerMinute
  }

  /** `getStartOfDay(date)`: 00:00:00.000 of the host-local day of `t`. */
  function StartOfDay(t: int, hostOffset: int): (r: int)
    ensures r <= t < r + MsPerDay
    ensures (r + hostOffset * MsPerMinute) % MsPerDay == 0
  {
    LocalMidnight(t, hostOffset)
  }

  /** `getEndOfDay(date)`: 23:59:59.999 of the host-local day of `t`. */
  function EndOfDay(t: int, hostOffset: int): (r: int)
    ensures StartOfDay(t, hostOffset) <= t <= r
    ensures r == StartOfDay(t, hostOffset) + MsPerDay - 1
  {
    LocalMidnight(t, hostOffset) + MsPerDay - 1
  }

  /** Every instant of a local day has the same start and end of day. */
  lemma SameLocalDay(t: int, u: int, hostOffset: int)
    requires StartOfDay(t, hostOffset) <= u <= EndOfDay(t, hostOffset)
    ensures StartOfDay(u, hostOffset) == StartOfDay(t, hostOffset)
    ensures EndOfDay(u, hostOffset) == EndOfDay(t, hostOffset)
  {
    var s := StartOfDay(t, hostOffset);
    var w := s + hostOffset * MsPerMinute;
    var q := w / MsPerDay;
    assert w == q * MsPerDay;
    var x := u + hostOffset * MsPerMinute;
    assert q * MsPerDay <= x < q * MsPerDay + MsPerDay;
    DivisionPins(x, q);
  }

  lemma DivisionPins(x: int, q: int)
    requires q * MsPerDay <= x < q * MsPerDay + MsPerDay
    ensures x / MsPerDay == q
  {
  }

  /**
   * `getVietnamTime()`: the instant whose host-local wall clock reads the current UTC+7
   * civil time, whatever the host's own offset.
   */
  function VietnamTime(now: int, hostOffset: int): (r: int)
    ensures r + hostOffset * MsPerMinute == now + VietnamOffset * MsPerMinute
  {
    var utc := now + (-hostOffset) * MsPerMinute;
    utc + VietnamOffset * MsPerMinute
  }

  /** Hours and minutes read from an `"HH:mm"` string by `split(":").map(Number)`. */
  datatype ClockTime = ClockTime(hours: nat, minutes: nat)

  /**
   * The two leading `:`-separated fields as numbers, or `None` when either is NaN (a
   * missing minutes field is `undefined`, which is NaN too).
   */
  function ParseClock(s: string): (r: Option<ClockTime>)
    ensures r.Some? <==>
      var parts := Text.Split(s, ':');
      |parts| >= 2 && Text.ToNumber(parts[0]).Some? && Text.ToNumber(parts[1]).Some?
  {
    var parts := Text.Split(s, ':');
    if |parts| < 2 then None
    else
      match (Text.ToNumber(parts[0]), Text.ToNumber(parts[1]))
      case (Some(h), Some(m)) => Some(ClockTime(h, m))
      case _ => None
  }

  /** Offset of a clock time from midnight, in milliseconds (`setHours(h, m, 0, 0)`). */
  function ClockOffset(c: ClockTime): int {
    c.hours * MsPerHour + c.minutes * MsPerMinute
  }

  /**
   * `parseTimeString(s, base)` / `parseTimeStringVN(s, base)`: `base`'s host-local day with
   * the hours and minutes set from `s` and seconds and milliseconds zeroed; `None` stands
   * for the Invalid Date a NaN field produces.
   */
  function SetClock(s: string, base: int, hostOffset: int): (r: Option<int>)
    ensures r.Some? <==> ParseClock(s).Some?
    ensures r.Some? ==> (r.value - StartOfDay(base, hostOffset)) % MsPerMinute == 0
  {
    match ParseClock(s)
    case None => None
    case Some(c) => Some(StartOfDay(base, hostOffset) + ClockOffset(c))
  }

  /**
   * A well-formed clock time keeps the base instant's day and reads back as the hours and
   * minutes that were set.
   */
  lemma SetClockKeepsDay(s: string, base: int, hostOffset: int)
    requires ParseClock(s).Some?
    requires ParseClock(s).value.hours < 24 && ParseClock(s).value.minutes < 60
    ensures StartOfDay(SetClock(s, base, hostOffset).value, hostOffset) == StartOfDay(base, hostOffset)
    ensures var since := SetClock(s, base, hostOffset).value - StartOfDay(base, hostOffset);
      since / MsPerHour == ParseClock(s).value.hours
      && (since / MsPerMinute) % 60 == ParseClock(s).value.minutes
  {
    var c := ParseClock(s).value;
    var r := SetClock(s, base, hostOffset).value;
    assert 0 <= ClockOffset(c) < MsPerDay;
    SameLocalDay(base, r, hostOffset);
  }

  /** Milliseconds elapsed since midnight on the UTC+7 civil day of `now`. */
  function VietnamClock(now: int): (ms: int)
    ensures 0 <= ms < MsPerDay
  {
    (now + VietnamOffset * MsPerMinute) % MsPerDay
  }

  /**
   * `isWithinTimeRange(beginAt, endAt)`: both ends are placed on the UTC+7 day of `now`
   * and `now` must lie between them, both ends included; an Invalid Date on either side
   * makes a comparison false.
   */
  predicate IsWithinTimeRange(beginAt: string, endAt: string, now: int, hostOffset: int) {
    var vn := VietnamTime(now, hostOffset);
    match (SetClock(beginAt, vn, hostOffset), SetClock(endAt, vn, hostOffset))
    case (Some(b), Some(e)) => b <= vn <= e
    case _ => false
  }

  /**
   * The window test depends on the UTC+7 time of day only: it holds exactly when both
   * strings parse and the clock reading lies between them, ends included. In particular
   * the host's offset plays no part.
   */
  lemma WindowByVietnamClock(beginAt: string, endAt: string, now: int, hostOffset: int)
    ensures IsWithinTimeRange(beginAt, endAt, now, hostOffset) <==>
      ParseClock(beginAt).Some? && ParseClock(endAt).Some?
      && ClockOffset(ParseClock(beginAt).value) <= VietnamClock(now)
      && VietnamClock(now) <= ClockOffset(ParseClock(endAt).value)
  {
    var vn := VietnamTime(now, hostOffset);
    var x := now + VietnamOffset * MsPerMinute;
    assert vn + hostOffset * MsPerMinute == x;
    assert StartOfDay(vn, hostOffset) == vn - VietnamClock(now);
  }

  /** A window whose begin lies after its end never admits: there is no wrap past midnight. */
  lemma InvertedWindowIsEmpty(beginAt: string, endAt: string, now: int, hostOffset: int)
    requires ParseClock(beginAt).Some? && ParseClock(endAt).Some?
    requires ClockOffset(ParseClock(beginAt).value) > ClockOffset(ParseClock(endAt).value)
    ensures !IsWithinTimeRange(beginAt, endAt, now, hostOffset)
  {
    WindowByVietnamClock(beginAt, endAt, now, hostOffset);
  }

  /** `getOTPExpiry(minutes)`: `minutes` minutes after `now`. */
  function OtpExpiry(now: int, minutes: int): (r: int)
    ensures minutes > 0 ==> r > now
  {
    now + minutes * MsPerMinute
  }

  /** `isOTPValid(expiry)`: strictly before the expiry instant. */
  predicate IsOtpValid(expiry: int, now: int) {
    now < expiry
  }

  /** A code issued for `minutes` minutes is valid for exactly that long, the expiry instant excluded. */
  lemma OtpValidFor(issued: int, minutes: int, now: int)
    ensures IsOtpValid(OtpExpiry(issued, minutes), now) <==> now - issued < minutes * MsPerMinute
  {
  }
}
