/** Candle close times (crates/bat-markets-core/src/market.rs). Fixed intervals add a duration;
    the monthly interval closes one millisecond before the next Gregorian month opens. */
module KlineCalendar {
  import opened Basics

  datatype KlineInterval =
    | Minute1 | Minute3 | Minute5 | Minute15 | Minute30
    | Hour1 | Hour2 | Hour4 | Hour6 | Hour12
    | Day1 | Day3 | Week1 | Month1

  datatype Month =
    | January | February | March | April | May | June
    | July | August | September | October | November | December

  datatype YearMonth = YearMonth(year: int, month: Month)

  const MS_PER_DAY := 86_400_000

  function NextMonth(m: Month): Month {
    match m
    case January => February
    case February => March
    case March => April
    case April => May
    case May => June
    case June => July
    case July => August
    case August => September
    case September => October
    case October => November
    case November => December
    case December => January
  }

  function PreviousMonth(m: Month): (p: Month)
    ensures NextMonth(p) == m
  {
    match m
    case January => December
    case February => January
    case March => February
    case April => March
    case May => April
    case June => May
    case July => June
    case August => July
    case September => August
    case October => September
    case November => October
    case December => November
  }

  function Next(ym: YearMonth): YearMonth {
    YearMonth(if ym.month.December? then ym.year + 1 else ym.year, NextMonth(ym.month))
  }

  function Previous(ym: YearMonth): (p: YearMonth)
    ensures Next(p) == ym
  {
    YearMonth(if ym.month.January? then ym.year - 1 else ym.year, PreviousMonth(ym.month))
  }

  // ----- the Gregorian calendar ---------------------------------------------------------------

  predicate Leap(year: int) {
    year % 4 == 0 && (year % 100 != 0 || year % 400 == 0)
  }

  /** The month lengths: with `FirstDay(1970 January) == 0`, the reference that determines `FirstDay`. */
  function DaysIn(ym: YearMonth): nat {
    match ym.month
    case February => if Leap(ym.year) then 29 else 28
    case April => 30
    case June => 30
    case September => 30
    case November => 30
    case _ => 31
  }

  /** Leap years from year 1 up to, but not including, `year`; divisions round down. */
  function LeapsBefore(year: int): int {
    (year - 1) / 4 - (year - 1) / 100 + (year - 1) / 400
  }

  function DaysBeforeYear(year: int): int {
    365 * (year - 1970) + LeapsBefore(year) - LeapsBefore(1970)
  }

  function DaysBeforeMonth(m: Month): nat {
    match m
    case January => 0
    case February => 31
    case March => 59
    case April => 90
    case May => 120
    case June => 151
    case July => 181
    case August => 212
    case September => 243
    case October => 273
    case November => 304
    case December => 334
  }

  /** Days from 1970-01-01 to the first day of the month. */
  function FirstDay(ym: YearMonth): int {
    DaysBeforeYear(ym.year) + DaysBeforeMonth(ym.month)
    + (if Leap(ym.year) && !ym.month.January? && !ym.month.February? then 1 else 0)
  }

  lemma FourthStep(year: int)
    ensures year / 4 - (year - 1) / 4 == if year % 4 == 0 then 1 else 0
  {
  }

  lemma CenturyStep(year: int)
    ensures year / 100 - (year - 1) / 100 == if year % 100 == 0 then 1 else 0
  {
  }

  lemma FourCenturiesStep(year: int)
    ensures year / 400 - (year - 1) / 400 == if year % 400 == 0 then 1 else 0
  {
  }

  lemma CenturiesNest(year: int)
    ensures year % 100 == 0 ==> year % 4 == 0
    ensures year % 400 == 0 ==> year % 100 == 0
  {
    assert year % 100 == 0 ==> year == 4 * (25 * (year / 100));
    assert year % 400 == 0 ==> year == 100 * (4 * (year / 400));
  }

  lemma LeapsStep(year: int)
    ensures LeapsBefore(year + 1) == LeapsBefore(year) + (if Leap(year) then 1 else 0)
  {
    FourthStep(year);
    CenturyStep(year);
    FourCenturiesStep(year);
    CenturiesNest(year);
  }

  /** The closed form agrees with the calendar: each month starts one month length after the one
      before, across February, leap years, centuries and December, in both directions of time. */
  lemma FirstDayStep(ym: YearMonth)
    ensures FirstDay(Next(ym)) == FirstDay(ym) + DaysIn(ym)
    ensures FirstDay(YearMonth(1970, January)) == 0
  {
    if ym.month.December? {
      LeapsStep(ym.year);
    }
  }

  function Ordinal(m: Month): nat {
    match m
    case January => 0
    case February => 1
    case March => 2
    case April => 3
    case May => 4
    case June => 5
    case July => 6
    case August => 7
    case September => 8
    case October => 9
    case November => 10
    case December => 11
  }

  function Index(ym: YearMonth): int {
    12 * ym.year + Ordinal(ym.month)
  }

  lemma {:induction false} FirstDayIncreasing(a: YearMonth, b: YearMonth)
    requires Index(a) <= Index(b)
    ensures FirstDay(a) <= FirstDay(b)
    ensures Index(a) < Index(b) ==> FirstDay(Next(a)) <= FirstDay(b)
    decreases Index(b) - Index(a)
  {
    if Index(a) < Index(b) {
      assert Index(Next(a)) == Index(a) + 1;
      FirstDayIncreasing(Next(a), b);
      FirstDayStep(a);
    } else {
      assert a.year == b.year && Ordinal(a.month) == Ordinal(b.month);
      assert a.month == b.month;
    }
  }

  // ----- the month of a timestamp -------------------------------------------------------------

  function Later(day: int, ym: YearMonth): (r: YearMonth)
    requires FirstDay(ym) <= day
    ensures FirstDay(r) <= day < FirstDay(Next(r))
    decreases day - FirstDay(ym)
  {
    FirstDayStep(ym);
    if day < FirstDay(Next(ym)) then ym else Later(day, Next(ym))
  }

  function Earlier(day: int, ym: YearMonth): (r: YearMonth)
    requires day < FirstDay(ym)
    ensures FirstDay(r) <= day < FirstDay(Next(r))
    decreases FirstDay(ym) - day
  {
    FirstDayStep(Previous(ym));
    if FirstDay(Previous(ym)) <= day then Previous(ym) else Earlier(day, Previous(ym))
  }

  /** The calendar month containing a day. */
  function MonthOfDay(day: int): (r: YearMonth)
    ensures FirstDay(r) <= day < FirstDay(Next(r))
  {
    var epoch := YearMonth(1970, January);
    if FirstDay(epoch) <= day then Later(day, epoch) else Earlier(day, epoch)
  }

  /** UTC midnight of the first day of a month, in Unix milliseconds. */
  function Opens(ym: YearMonth): int {
    FirstDay(ym) * MS_PER_DAY
  }

  const MIN_YEAR := -9999
  const MAX_YEAR := 9999

  /** The timestamps a date-time value can hold: years -9999 to 9999. */
  predicate Representable(t: int) {
    Opens(YearMonth(MIN_YEAR, January)) <= t < Opens(YearMonth(MAX_YEAR + 1, January))
  }

  function Duration(interval: KlineInterval): nat
    requires !interval.Month1?
  {
    match interval
    case Minute1 => 60_000
    case Minute3 => 3 * 60_000
    case Minute5 => 5 * 60_000
    case Minute15 => 15 * 60_000
    case Minute30 => 30 * 60_000
    case Hour1 => 60 * 60_000
    case Hour2 => 120 * 60_000
    case Hour4 => 240 * 60_000
    case Hour6 => 360 * 60_000
    case Hour12 => 720 * 60_000
    case Day1 => 24 * 60 * 60_000
    case Day3 => 3 * 24 * 60 * 60_000
    case Week1 => 7 * 24 * 60 * 60_000
  }

  /** `close_time_ms`. */
  function CloseTime(interval: KlineInterval, t: int): Option<int> {
    if !interval.Month1? then Some(t + Duration(interval) - 1)
    else if !Representable(t) then None
    else
      var ym := MonthOfDay(t / MS_PER_DAY);
      var next := if ym.month.December? then YearMonth(ym.year + 1, January)
                  else YearMonth(ym.year, NextMonth(ym.month));
      if next.year > MAX_YEAR then None else Some(Opens(next) - 1)
  }

  lemma IndexInjective(a: YearMonth, b: YearMonth)
    requires Index(a) == Index(b)
    ensures a == b
  {
    assert a.year == b.year && Ordinal(a.month) == Ordinal(b.month);
  }

  ghost predicate InMonth(t: int, ym: YearMonth) {
    Opens(ym) <= t < Opens(Next(ym))
  }

  /** Months are ordered as the timestamps in them. */
  lemma MonthsOrdered(t: int, a: YearMonth, u: int, b: YearMonth)
    requires InMonth(t, a) && InMonth(u, b) && t <= u
    ensures Index(a) <= Index(b)
  {
    if Index(b) < Index(a) {
      FirstDayIncreasing(b, a);
      assert false;
    }
  }

  /** The month of `t` is the only one whose span holds `t`. */
  lemma MonthOfDayUnique(t: int, ym: YearMonth)
    requires InMonth(t, ym)
    ensures MonthOfDay(t / MS_PER_DAY) == ym
  {
    MonthHoldsTime(t);
    var m := MonthOfDay(t / MS_PER_DAY);
    MonthsOrdered(t, m, t, ym);
    MonthsOrdered(t, ym, t, m);
    IndexInjective(m, ym);
  }

  lemma MonthHoldsTime(t: int)
    ensures InMonth(t, MonthOfDay(t / MS_PER_DAY))
  {
  }

  /** Monthly closes, exactly: inside month `ym` every open time closes with the month, at the
      last millisecond before the next one opens; only December of the last year has no close. */
  lemma MonthlyClose(t: int, ym: YearMonth)
    requires InMonth(t, ym) && Representable(t)
    ensures CloseTime(Month1, t) == (if ym == YearMonth(MAX_YEAR, December) then None else Some(Opens(Next(ym)) - 1))
    ensures MIN_YEAR <= ym.year <= MAX_YEAR
  {
    MonthOfDayUnique(t, ym);
    YearInRange(t, ym);
  }

  lemma YearInRange(t: int, ym: YearMonth)
    requires InMonth(t, ym) && Representable(t)
    ensures MIN_YEAR <= ym.year <= MAX_YEAR
  {
    if ym.year < MIN_YEAR {
      assert Index(ym) < Index(YearMonth(MIN_YEAR, January));
      FirstDayIncreasing(ym, YearMonth(MIN_YEAR, January));
      assert false;
    }
    if ym.year > MAX_YEAR {
      assert Index(YearMonth(MAX_YEAR + 1, January)) <= Index(ym);
      FirstDayIncreasing(YearMonth(MAX_YEAR + 1, January), ym);
      assert false;
    }
  }

  /** No month opens after `t` and up to its close; the next one opens right after it. */
  lemma MonthsTile(t: int, m: YearMonth)
    requires CloseTime(Month1, t).Some?
    ensures var close := CloseTime(Month1, t).value;
            && t <= close
            && !(t < Opens(m) <= close)
            && exists ym :: Opens(ym) <= t && close + 1 == Opens(Next(ym))
  {
    var ym := MonthOfDay(t / MS_PER_DAY);
    MonthlyClose(t, ym);
    if Index(m) <= Index(ym) {
      FirstDayIncreasing(m, ym);
    } else {
      FirstDayIncreasing(ym, m);
    }
  }

  /** For every interval: a candle does not close before it opens, and later candles do not close
      earlier. */
  lemma CloseMonotone(interval: KlineInterval, t: int, u: int)
    requires t <= u && CloseTime(interval, t).Some? && CloseTime(interval, u).Some?
    ensures t <= CloseTime(interval, t).value <= CloseTime(interval, u).value
  {
    if interval.Month1? {
      var a, b := MonthOfDay(t / MS_PER_DAY), MonthOfDay(u / MS_PER_DAY);
      MonthHoldsTime(t);
      MonthHoldsTime(u);
      MonthlyClose(t, a);
      MonthlyClose(u, b);
      MonthEndsOrdered(t, a, u, b);
    }
  }

  lemma MonthEndsOrdered(t: int, a: YearMonth, u: int, b: YearMonth)
    requires InMonth(t, a) && InMonth(u, b) && t <= u
    ensures t < Opens(Next(a)) <= Opens(Next(b))
  {
    MonthsOrdered(t, a, u, b);
    assert Index(Next(a)) == Index(a) + 1 && Index(Next(b)) == Index(b) + 1;
    FirstDayIncreasing(Next(a), Next(b));
  }

  /** When a close time exists. */
  lemma CloseDefined(interval: KlineInterval, t: int)
    ensures CloseTime(interval, t).Some?
       <==> !interval.Month1? || Opens(YearMonth(MIN_YEAR, January)) <= t < Opens(YearMonth(MAX_YEAR, December))
  {
    if interval.Month1? && Representable(t) {
      var ym, last := MonthOfDay(t / MS_PER_DAY), YearMonth(MAX_YEAR, December);
      MonthlyClose(t, ym);
      assert Next(last) == YearMonth(MAX_YEAR + 1, January);
      if Index(ym) < Index(last) {
        FirstDayIncreasing(ym, last);
      } else {
        IndexInjective(ym, last);
      }
    } else if interval.Month1? {
      FirstDayIncreasing(YearMonth(MAX_YEAR, December), YearMonth(MAX_YEAR + 1, January));
    }
  }

  /** The intervals by their names: minutes and hours divide the day, the others are whole days. */
  lemma IntervalsAndDays()
    ensures Duration(Minute1) * 24 * 60 == MS_PER_DAY && Duration(Hour1) * 24 == MS_PER_DAY == Duration(Day1)
    ensures Duration(Minute3) == 3 * Duration(Minute1) && Duration(Minute5) == 5 * Duration(Minute1)
    ensures Duration(Minute15) == 15 * Duration(Minute1) && Duration(Minute30) == 30 * Duration(Minute1)
    ensures Duration(Hour2) == 2 * Duration(Hour1) && Duration(Hour4) == 4 * Duration(Hour1)
    ensures Duration(Hour6) == 6 * Duration(Hour1) && Duration(Hour12) == 12 * Duration(Hour1)
    ensures Duration(Day3) == 3 * MS_PER_DAY && Duration(Week1) == 7 * MS_PER_DAY
  {
  }

  /** A candle of a fixed interval that is the `n`-th since `origin` closes where the next opens: the
      candles tile time, and a day candle spans one UTC day. */
  lemma FixedTile(interval: KlineInterval, origin: int, n: int)
    requires !interval.Month1?
    ensures CloseTime(interval, origin + n * Duration(interval)) == Some(origin + (n + 1) * Duration(interval) - 1)
    ensures interval.Day1? && origin == 0 ==>
              CloseTime(interval, n * MS_PER_DAY).Some?
              && n * MS_PER_DAY / MS_PER_DAY == CloseTime(interval, n * MS_PER_DAY).value / MS_PER_DAY
              && (CloseTime(interval, n * MS_PER_DAY).value + 1) / MS_PER_DAY == n + 1
  {
    var d := Duration(interval);
    assert (n + 1) * d == n * d + d;
  }
}
