/**
 The market clock of the nft-market-hours program: two pure predicates of a
 signed 64-bit Unix timestamp, written with Rust's truncating `/` and `%`, and
 a calendar reading of the same timestamp (floor division, UTC) against which
 they are characterised.
 */
module MarketClock {

  /** Rust's `i64`. */
  type I64 = x: int | -0x8000_0000_0000_0000 <= x < 0x8000_0000_0000_0000

  const SECONDS_IN_A_DAY: int := 86400
  /** 14:30 UTC (9:30 Eastern Standard Time, daylight saving is not applied). */
  const MARKET_OPEN_TIME: int := 14 * 3600 + 30 * 60
  /** 21:00 UTC (16:00 Eastern Standard Time). */
  const MARKET_CLOSE_TIME: int := 21 * 3600
  const MARKET_OPEN_CLOSE_MARGIN: int := 15 * 60
  const SECONDS_IN_A_WEEK: int := 7 * SECONDS_IN_A_DAY

  function Abs(x: int): nat { if x < 0 then -x else x }

  /** Rust's `/` on signed integers: the quotient truncated toward zero. */
  function RustDiv(a: int, b: int): (q: int)
    requires b != 0
    ensures Abs(q) == Abs(a) / Abs(b)
    ensures (a < 0) == (b < 0) ==> q >= 0
    ensures (a < 0) != (b < 0) ==> q <= 0
  {
    var m := Abs(a) / Abs(b);
    QuotientOfNaturals(Abs(a), Abs(b));
    if (a < 0) == (b < 0) then m else -m
  }

  lemma QuotientOfNaturals(x: int, y: int)
    requires x >= 0 && y > 0
    ensures x / y >= 0
  {
    assert x == y * (x / y) + x % y;
  }

  /** Rust's `%` on signed integers: the magnitude of the remainder, with the
      sign of the dividend. */
  function RustRem(a: int, b: int): (r: int)
    requires b != 0
    ensures Abs(r) < Abs(b)
    ensures a >= 0 ==> r >= 0
    ensures a <= 0 ==> r <= 0
  {
    var m := Abs(a) % Abs(b);
    if a < 0 then -m else m
  }

  /** `a / b` and `a % b` fit together: `a == b * (a / b) + a % b`. */
  lemma RustDivRem(a: int, b: int)
    requires b != 0
    ensures a == b * RustDiv(a, b) + RustRem(a, b)
  {
    var q, m := Abs(a) / Abs(b), Abs(a) % Abs(b);
    assert Abs(a) == Abs(b) * q + m;
    if a >= 0 && b > 0 {
      assert b * RustDiv(a, b) == Abs(b) * q;
    } else if a < 0 && b > 0 {
      assert b * RustDiv(a, b) == -(Abs(b) * q);
    } else if a >= 0 {
      assert b * RustDiv(a, b) == Abs(b) * q;
    } else {
      assert b * RustDiv(a, b) == -(Abs(b) * q);
    }
  }

  /** Truncating and Euclidean division agree on a non-negative dividend and a
      positive divisor. */
  lemma RustDivRemOfNonNegative(a: int, b: int)
    requires a >= 0 && b > 0
    ensures RustDiv(a, b) == a / b
    ensures RustRem(a, b) == a % b
  {
  }

  // ------------------------------------------------------------------
  // The two predicates as the program writes them
  // ------------------------------------------------------------------

  /** `unix_timestamp % SECONDS_IN_A_DAY`: zero or negative before the epoch. */
  function SecondsSinceMidnight(t: I64): (s: int)
    ensures t >= 0 ==> s == t % SECONDS_IN_A_DAY
    ensures t < 0 ==> -SECONDS_IN_A_DAY < s <= 0
  {
    RustRem(t, SECONDS_IN_A_DAY)
  }

  /** `(unix_timestamp / SECONDS_IN_A_DAY + 4) % 7`; epoch day 0 (a Thursday)
      gets 4, so 0 is Sunday and 5, 6 are Friday and Saturday. */
  function WeekdayNumber(t: I64): (w: int)
    ensures -6 <= w <= 6
  {
    RustRem(RustDiv(t, SECONDS_IN_A_DAY) + 4, 7)
  }

  /** `is_us_market_open`: open exactly on Sunday to Thursday (UTC), inside
      [14:30, 21:00) UTC, and never before the epoch. */
  predicate IsUsMarketOpen(t: I64)
    ensures IsUsMarketOpen(t) <==>
      t >= 0 && IsTradingDayAsCoded(DayOfWeekAt(t)) && InSession(TimeOfDay(t))
  {
    var secondsSinceMidnight := SecondsSinceMidnight(t);
    var weekday := WeekdayNumber(t);
    assert t >= 0 ==>
      0 <= weekday < 7 && DayOfWeekFromIndex(weekday) == DayOfWeekAt(t)
      && (IsTradingDayAsCoded(DayOfWeekAt(t)) <==> weekday < 5) by {
      if t >= 0 { WeekdayNumberIsCalendarDay(t); }
    }
    if weekday >= 5 then false
    else secondsSinceMidnight >= MARKET_OPEN_TIME && secondsSinceMidnight < MARKET_CLOSE_TIME
  }

  /** `is_within_15_minutes_of_market_open_or_close`: the two 15-minute
      intervals after 14:30 and 21:00 UTC on every day, with no weekday test,
      and never before the epoch. */
  predicate IsWithin15MinutesOfMarketOpenOrClose(t: I64)
    ensures IsWithin15MinutesOfMarketOpenOrClose(t) <==>
      t >= 0 && InPayoutWindow(TimeOfDay(t))
  {
    var secondsSinceMidnight := SecondsSinceMidnight(t);
    (secondsSinceMidnight >= MARKET_OPEN_TIME
      && secondsSinceMidnight < MARKET_OPEN_TIME + MARKET_OPEN_CLOSE_MARGIN)
    || (secondsSinceMidnight >= MARKET_CLOSE_TIME
      && secondsSinceMidnight < MARKET_CLOSE_TIME + MARKET_OPEN_CLOSE_MARGIN)
  }

  // ------------------------------------------------------------------
  // The calendar reading of a timestamp (UTC, proleptic, floor division)
  // ------------------------------------------------------------------

  datatype DayOfWeek = Sunday | Monday | Tuesday | Wednesday | Thursday | Friday | Saturday

  function DayOfWeekFromIndex(i: int): DayOfWeek
    requires 0 <= i < 7
  {
    [Sunday, Monday, Tuesday, Wednesday, Thursday, Friday, Saturday][i]
  }

  /** Seconds since the most recent UTC midnight, for any instant. */
  function TimeOfDay(t: int): (s: nat)
    ensures s < SECONDS_IN_A_DAY
  {
    t % SECONDS_IN_A_DAY
  }

  /** The UTC day of the week of an instant; 1 January 1970 was a Thursday. */
  function DayOfWeekAt(t: int): DayOfWeek
  {
    DayOfWeekFromIndex((t / SECONDS_IN_A_DAY + 4) % 7)
  }

  /** The days on which the program's weekday test lets the market open:
      Sunday to Thursday. */
  predicate IsTradingDayAsCoded(d: DayOfWeek)
  {
    d != Friday && d != Saturday
  }

  /** The session [14:30, 21:00) UTC, end excluded. */
  predicate InSession(s: int)
  {
    MARKET_OPEN_TIME <= s < MARKET_CLOSE_TIME
  }

  /** The two payout windows [14:30, 14:45) and [21:00, 21:15) UTC. */
  predicate InPayoutWindow(s: int)
  {
    (MARKET_OPEN_TIME <= s < MARKET_OPEN_TIME + MARKET_OPEN_CLOSE_MARGIN)
    || (MARKET_CLOSE_TIME <= s < MARKET_CLOSE_TIME + MARKET_OPEN_CLOSE_MARGIN)
  }

  // ------------------------------------------------------------------
  // Characterisations
  // ------------------------------------------------------------------

  lemma WeekdayNumberIsCalendarDay(t: I64)
    requires t >= 0
    ensures 0 <= WeekdayNumber(t) < 7
    ensures DayOfWeekFromIndex(WeekdayNumber(t)) == DayOfWeekAt(t)
  {
    RustDivRemOfNonNegative(t, SECONDS_IN_A_DAY);
    RustDivRemOfNonNegative(t / SECONDS_IN_A_DAY + 4, 7);
  }

  /** Before the epoch nothing is open: the truncating remainder is never
      positive there, so it is below 14:30. */
  lemma NothingBeforeEpoch(t: I64)
    requires t < 0
    ensures !IsUsMarketOpen(t)
    ensures !IsWithin15MinutesOfMarketOpenOrClose(t)
  {
  }

  /** The weekday test closes the market all of Friday and Saturday. */
  lemma ClosedOnFridayAndSaturday(t: I64)
    requires t >= 0
    requires (t / SECONDS_IN_A_DAY) % 7 == 1 || (t / SECONDS_IN_A_DAY) % 7 == 2
    ensures DayOfWeekAt(t) == Friday || DayOfWeekAt(t) == Saturday
    ensures !IsUsMarketOpen(t)
  {
  }

  /** The weekday test lets a Sunday session open. */
  lemma OpenOnSundaySession(t: I64)
    requires t >= 0
    requires (t / SECONDS_IN_A_DAY) % 7 == 3
    requires InSession(t % SECONDS_IN_A_DAY)
    ensures DayOfWeekAt(t) == Sunday
    ensures IsUsMarketOpen(t)
  {
  }

  /** The open window lies inside the session, so on a Sunday-to-Thursday it
      coincides with an open market; the close window lies after the session,
      so it never does. */
  lemma PayoutWindowsAgainstSession(t: I64)
    requires IsWithin15MinutesOfMarketOpenOrClose(t)
    ensures SecondsSinceMidnight(t) < MARKET_CLOSE_TIME ==>
      (IsUsMarketOpen(t) <==> IsTradingDayAsCoded(DayOfWeekAt(t)))
    ensures SecondsSinceMidnight(t) >= MARKET_CLOSE_TIME ==> !IsUsMarketOpen(t)
  {
  }

  /** Decomposing a timestamp into a day number and a second of that day. */
  lemma DayAndSecond(d: nat, s: int)
    requires 0 <= s < SECONDS_IN_A_DAY
    ensures (d * SECONDS_IN_A_DAY + s) / SECONDS_IN_A_DAY == d
    ensures (d * SECONDS_IN_A_DAY + s) % SECONDS_IN_A_DAY == s
  {
  }

  /** On epoch day d, second s of the day: open iff the day is Sunday to
      Thursday and s is in the session; in the payout window iff s is in one
      of the two windows, whatever the day. */
  lemma OnDayAtSecond(d: nat, s: int)
    requires 0 <= s < SECONDS_IN_A_DAY
    requires d * SECONDS_IN_A_DAY + s < 0x8000_0000_0000_0000
    ensures IsUsMarketOpen(d * SECONDS_IN_A_DAY + s) <==>
      IsTradingDayAsCoded(DayOfWeekFromIndex((d + 4) % 7)) && InSession(s)
    ensures IsWithin15MinutesOfMarketOpenOrClose(d * SECONDS_IN_A_DAY + s) <==> InPayoutWindow(s)
  {
    var t: I64 := d * SECONDS_IN_A_DAY + s;
    DayAndSecond(d, s);
  }

  /** Adding whole days keeps the second of the day; adding whole weeks also
      keeps the weekday. */
  lemma ShiftByDays(t: int, k: nat)
    requires t >= 0
    ensures TimeOfDay(t + k * SECONDS_IN_A_DAY) == TimeOfDay(t)
    ensures k % 7 == 0 ==> DayOfWeekAt(t + k * SECONDS_IN_A_DAY) == DayOfWeekAt(t)
  {
    var d, s := t / SECONDS_IN_A_DAY, t % SECONDS_IN_A_DAY;
    assert t + k * SECONDS_IN_A_DAY == (d + k) * SECONDS_IN_A_DAY + s;
    DayAndSecond(d + k, s);
    if k % 7 == 0 {
      assert (d + k + 4) % 7 == (d + 4) % 7;
    }
  }

  /** The payout window repeats every day. */
  lemma PayoutWindowIsDaily(t: I64, k: nat)
    requires t >= 0
    requires t + k * SECONDS_IN_A_DAY < 0x8000_0000_0000_0000
    ensures IsWithin15MinutesOfMarketOpenOrClose(t + k * SECONDS_IN_A_DAY)
        == IsWithin15MinutesOfMarketOpenOrClose(t)
  {
    var u: I64 := t + k * SECONDS_IN_A_DAY;
    ShiftByDays(t, k);
  }

  /** Market hours repeat every week. */
  lemma MarketOpenIsWeekly(t: I64, k: nat)
    requires t >= 0
    requires t + k * SECONDS_IN_A_WEEK < 0x8000_0000_0000_0000
    ensures IsUsMarketOpen(t + k * SECONDS_IN_A_WEEK) == IsUsMarketOpen(t)
  {
    var u: I64 := t + k * SECONDS_IN_A_WEEK;
    assert u == t + (7 * k) * SECONDS_IN_A_DAY;
    ShiftByDays(t, 7 * k);
  }

  // ------------------------------------------------------------------
  // Dated instants
  // ------------------------------------------------------------------

  /** 2024-01-01 (epoch day 19723) was a Monday; 14:35 UTC is open and in the
      opening payout window. */
  lemma MondayAfterOpen()
    ensures DayOfWeekAt(1704119700) == Monday && TimeOfDay(1704119700) == 14 * 3600 + 35 * 60
    ensures IsUsMarketOpen(1704119700)
    ensures IsWithin15MinutesOfMarketOpenOrClose(1704119700)
  {
    OnDayAtSecond(19723, 14 * 3600 + 35 * 60);
  }

  /** 2024-01-06 15:00 UTC, a Saturday: closed and outside both windows. */
  lemma SaturdayAfternoon()
    ensures DayOfWeekAt(1704553200) == Saturday
    ensures !IsUsMarketOpen(1704553200)
    ensures !IsWithin15MinutesOfMarketOpenOrClose(1704553200)
  {
    OnDayAtSecond(19728, 15 * 3600);
  }

  /** 2024-01-03 18:00 UTC, a Wednesday: open, outside both windows. */
  lemma WednesdayMidSession()
    ensures DayOfWeekAt(1704304800) == Wednesday
    ensures IsUsMarketOpen(1704304800)
    ensures !IsWithin15MinutesOfMarketOpenOrClose(1704304800)
  {
    OnDayAtSecond(19725, 18 * 3600);
  }

  /** 2024-01-05 15:00 UTC, a Friday: closed, although Friday is a US trading
      day; 2024-01-07 15:00 UTC, a Sunday: open. */
  lemma FridayClosedSundayOpen()
    ensures DayOfWeekAt(1704466800) == Friday && !IsUsMarketOpen(1704466800)
    ensures DayOfWeekAt(1704639600) == Sunday && IsUsMarketOpen(1704639600)
  {
    OnDayAtSecond(19727, 15 * 3600);
    OnDayAtSecond(19729, 15 * 3600);
  }

  /** 2024-01-06 14:35 UTC, a Saturday: closed, yet in the payout window. */
  lemma PayoutWindowOnClosedDay()
    ensures !IsUsMarketOpen(1704551700)
    ensures IsWithin15MinutesOfMarketOpenOrClose(1704551700)
  {
    OnDayAtSecond(19728, 14 * 3600 + 35 * 60);
  }

  /** The session's end is excluded: 21:00 UTC on a Monday is closed, one
      second earlier is open. */
  lemma SessionEndExcluded()
    ensures IsUsMarketOpen(1704142799)
    ensures !IsUsMarketOpen(1704142800)
  {
    OnDayAtSecond(19723, MARKET_CLOSE_TIME - 1);
    OnDayAtSecond(19723, MARKET_CLOSE_TIME);
  }
}
