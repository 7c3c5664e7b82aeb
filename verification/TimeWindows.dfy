/** Calendar windows on UTC seconds since 1970: the civil calendar, window bounds and window keys. */
module TimeWindows {
  const DAY := 86400

  datatype CalendarUnit = Hour | Day | Week | Month | Year

  datatype TimeWindow = Rolling(seconds: int) | Fixed(unit: CalendarUnit)

  datatype Date = Date(year: int, month: int, day: int)

  datatype Local = Local(date: Date, hour: int, minute: int, second: int)

  /** What a window key spells out. */
  datatype Key =
    | HourKey(date: Date, hour: int)
    | DayKey(date: Date)
    | WeekKey(year: int, week: int)
    | MonthKey(year: int, month: int)
    | YearKey(year: int)
    | RollingKey(starts: int, ends: int)

  datatype Resolved = Resolved(startsAt: int, endsAt: int, key: Key)

  // ---- The civil calendar ----------------------------------------------------------------

  predicate Leap(year: int) { year % 4 == 0 && (year % 100 != 0 || year % 400 == 0) }

  /** The day number of 1 January. */
  function YearStart(year: int): int { 365 * year + (year + 3) / 4 - (year + 99) / 100 + (year + 399) / 400 - 719528 }

  /** Days of the year before month `month`; month 13 is the length of the year. */
  function MonthStart(month: int, leap: bool): int {
    var extra := if leap then 1 else 0;
    if month <= 1 then 0
    else if month == 2 then 31
    else if month == 3 then 59 + extra
    else if month == 4 then 90 + extra
    else if month == 5 then 120 + extra
    else if month == 6 then 151 + extra
    else if month == 7 then 181 + extra
    else if month == 8 then 212 + extra
    else if month == 9 then 243 + extra
    else if month == 10 then 273 + extra
    else if month == 11 then 304 + extra
    else if month == 12 then 334 + extra
    else 365 + extra
  }

  predicate ValidDate(d: Date) {
    1 <= d.month <= 12
    && 1 <= d.day <= MonthStart(d.month + 1, Leap(d.year)) - MonthStart(d.month, Leap(d.year))
  }

  function DayNumber(d: Date): int { YearStart(d.year) + MonthStart(d.month, Leap(d.year)) + d.day - 1 }

  /** The proleptic year estimated from the mean year length, then corrected by at most one. */
  function YearOf(day: int): int {
    var guess := 400 * (day + 719528) / 146097;
    if day < YearStart(guess) then guess - 1 else if YearStart(guess + 1) <= day then guess + 1 else guess
  }

  function MonthFrom(yearDay: int, leap: bool, month: int): (m: int)
    requires 1 <= month <= 12
    ensures month <= m <= 12
    decreases 12 - month
  {
    if month == 12 || yearDay < MonthStart(month + 1, leap) then month else MonthFrom(yearDay, leap, month + 1)
  }

  function CivilOf(day: int): Date {
    var year := YearOf(day);
    var yearDay := day - YearStart(year);
    var month := MonthFrom(yearDay, Leap(year), 1);
    Date(year, month, yearDay - MonthStart(month, Leap(year)) + 1)
  }

  lemma By4(x: int, q: int, r: int)
    requires x == 4 * q + r && 0 <= r < 4
    ensures x / 4 == q && x % 4 == r
  {
  }

  lemma By100(x: int, q: int, r: int)
    requires x == 100 * q + r && 0 <= r < 100
    ensures x / 100 == q && x % 100 == r
  {
  }

  lemma By400(x: int, q: int, r: int)
    requires x == 400 * q + r && 0 <= r < 400
    ensures x / 400 == q && x % 400 == r
  {
  }

  lemma FourthYears(n: int)
    ensures (n + 4) / 4 - (n + 3) / 4 == if n % 4 == 0 then 1 else 0
  {
    var q, r := n / 4, n % 4;
    By4(n + 4, q + 1, r);
    By4(n + 3, if r == 0 then q else q + 1, if r == 0 then 3 else r - 1);
  }

  lemma Centuries(n: int)
    ensures (n + 100) / 100 - (n + 99) / 100 == if n % 100 == 0 then 1 else 0
    ensures n % 100 == 0 ==> n % 4 == 0
  {
    var q, r := n / 100, n % 100;
    By100(n + 100, q + 1, r);
    By100(n + 99, if r == 0 then q else q + 1, if r == 0 then 99 else r - 1);
    if r == 0 { By4(n, 25 * q, 0); }
  }

  lemma FourthCenturies(n: int)
    ensures (n + 400) / 400 - (n + 399) / 400 == if n % 400 == 0 then 1 else 0
    ensures n % 400 == 0 ==> n % 100 == 0
  {
    var q, r := n / 400, n % 400;
    By400(n + 400, q + 1, r);
    By400(n + 399, if r == 0 then q else q + 1, if r == 0 then 399 else r - 1);
    if r == 0 { By100(n, 4 * q, 0); }
  }

  lemma YearStep(year: int)
    ensures YearStart(year + 1) - YearStart(year)
            == 365 + ((year + 4) / 4 - (year + 3) / 4) - ((year + 100) / 100 - (year + 99) / 100)
               + ((year + 400) / 400 - (year + 399) / 400)
  {
  }

  lemma YearLength(year: int)
    ensures YearStart(year + 1) - YearStart(year) == MonthStart(13, Leap(year))
  {
    hide YearStart;
    YearStep(year);
    FourthYears(year);
    Centuries(year);
    FourthCenturies(year);
  }

  lemma {:induction false} YearStartsGrow(a: int, b: int)
    requires a <= b
    ensures YearStart(a) + 365 * (b - a) <= YearStart(b)
    decreases b - a
  {
    hide YearStart;
    if a >= b {
    } else {
      YearStartsGrow(a, b - 1);
      YearLength(b - 1);
    }
  }

  lemma YearBrackets(day: int)
    ensures YearStart(YearOf(day)) <= day < YearStart(YearOf(day) + 1)
  {
    var guess := 400 * (day + 719528) / 146097;
    assert YearStart(guess - 1) <= day;
    assert day < YearStart(guess + 2);
  }

  lemma {:induction false} MonthBrackets(yearDay: int, leap: bool, month: int)
    requires 1 <= month <= 12 && MonthStart(month, leap) <= yearDay < MonthStart(13, leap)
    ensures var m := MonthFrom(yearDay, leap, month); MonthStart(m, leap) <= yearDay < MonthStart(m + 1, leap)
    decreases 12 - month
  {
    if month < 12 && MonthStart(month + 1, leap) <= yearDay { MonthBrackets(yearDay, leap, month + 1); }
  }

  /** Every day number is a date, and reading the date back gives the number. */
  lemma DayRoundTrip(day: int)
    ensures ValidDate(CivilOf(day)) && DayNumber(CivilOf(day)) == day
  {
    hide YearStart, MonthFrom;
    YearBrackets(day);
    YearLength(YearOf(day));
    MonthBrackets(day - YearStart(YearOf(day)), Leap(YearOf(day)), 1);
  }

  lemma {:induction false} MonthStartsGrow(a: int, b: int, leap: bool)
    requires 1 <= a < b <= 13
    ensures MonthStart(a, leap) < MonthStart(b, leap)
    decreases b - a
  {
    if a + 1 >= b {
    } else {
      MonthStartsGrow(a, b - 1, leap);
    }
  }

  /** Dates and day numbers are in the same order, so a date has one number and a number one date. */
  lemma DateUnique(a: Date, b: Date)
    requires ValidDate(a) && ValidDate(b) && DayNumber(a) == DayNumber(b)
    ensures a == b
  {
    hide YearStart, MonthStart;
    InYear(a);
    InYear(b);
    if a.year < b.year { YearStartsGrow(a.year + 1, b.year); }
    if b.year < a.year { YearStartsGrow(b.year + 1, a.year); }
    var leap := Leap(a.year);
    if a.month < b.month && a.month + 1 < b.month { MonthStartsGrow(a.month + 1, b.month, leap); }
    if b.month < a.month && b.month + 1 < a.month { MonthStartsGrow(b.month + 1, a.month, leap); }
  }

  lemma InYear(d: Date)
    requires ValidDate(d)
    ensures YearStart(d.year) <= DayNumber(d) < YearStart(d.year + 1)
  {
    hide YearStart;
    YearLength(d.year);
    if d.month < 12 { MonthStartsGrow(d.month + 1, 13, Leap(d.year)); }
    if 1 < d.month { MonthStartsGrow(1, d.month, Leap(d.year)); }
  }

  /** A date is recovered from its day number. */
  lemma DateRoundTrip(d: Date)
    requires ValidDate(d)
    ensures CivilOf(DayNumber(d)) == d
  {
    hide CivilOf, DayNumber, ValidDate;
    DayRoundTrip(DayNumber(d));
    DateUnique(CivilOf(DayNumber(d)), d);
  }

  /** The leap rule of the Gregorian calendar. */
  predicate Gregorian(year: int) { year % 400 == 0 || (year % 4 == 0 && year % 100 != 0) }

  lemma LeapIsGregorian(year: int)
    ensures Leap(year) <==> Gregorian(year)
  {
    Centuries(year);
    FourthCenturies(year);
  }

  /** The length of a month: thirty days hath September, April, June and November. */
  function DaysIn(year: int, month: int): int {
    if month == 2 then if Gregorian(year) then 29 else 28
    else if month == 4 || month == 6 || month == 9 || month == 11 then 30
    else 31
  }

  /** The date on the next page of the calendar. */
  function NextDay(d: Date): Date {
    if d.day < DaysIn(d.year, d.month) then d.(day := d.day + 1)
    else if d.month < 12 then Date(d.year, d.month + 1, 1)
    else Date(d.year + 1, 1, 1)
  }

  lemma MonthLength(year: int, month: int)
    requires 1 <= month <= 12
    ensures MonthStart(month + 1, Leap(year)) - MonthStart(month, Leap(year)) == DaysIn(year, month)
  {
    hide Leap, Gregorian;
    LeapIsGregorian(year);
  }

  lemma EpochDayNumbers()
    ensures DayNumber(Date(1970, 1, 1)) == 0 && DayNumber(Date(1970, 1, 5)) == 4
    ensures ValidDate(Date(1970, 1, 1)) && ValidDate(Date(1970, 1, 5))
  {
  }

  /** Day 0 is 1 January 1970, day 4 the first Monday after it. */
  lemma EpochDates()
    ensures CivilOf(0) == Date(1970, 1, 1) && CivilOf(4) == Date(1970, 1, 5)
  {
    hide *;
    EpochDayNumbers();
    DateRoundTrip(Date(1970, 1, 1));
    DateRoundTrip(Date(1970, 1, 5));
  }

  /** Each day number is the date after the one before: with the date of day 0 that fixes every date. */
  lemma CalendarSteps(day: int)
    ensures CivilOf(0) == Date(1970, 1, 1) && CivilOf(day + 1) == NextDay(CivilOf(day))
  {
    hide *;
    EpochDates();
    DayRoundTrip(day);
    NextDayNumber(CivilOf(day));
    DateRoundTrip(NextDay(CivilOf(day)));
  }

  lemma NextDayNumber(d: Date)
    requires ValidDate(d)
    ensures ValidDate(NextDay(d)) && DayNumber(NextDay(d)) == DayNumber(d) + 1
  {
    hide YearStart, MonthStart, Leap, Gregorian;
    var next := NextDay(d);
    MonthLength(d.year, d.month);
    MonthLength(next.year, next.month);
    YearLength(d.year);
    FirstMonth(Leap(next.year));
  }

  lemma FirstMonth(leap: bool)
    ensures MonthStart(1, leap) == 0
  {
  }

  // ---- Resolving a window ----------------------------------------------------------------

  function LocalOf(t: int): Local { Local(CivilOf(t / DAY), t % DAY / 3600, t % 3600 / 60, t % 60) }

  function EpochOf(l: Local): int { DayNumber(l.date) * DAY + l.hour * 3600 + l.minute * 60 + l.second }

  function Midnight(d: Date): Local { Local(d, 0, 0, 0) }

  /** Days since Monday; day number 0 was a Thursday. */
  function DaysFromMonday(day: int): int { (day + 3) % 7 }

  /** The start of the window on the wall clock: fields below the unit are set to their least value. */
  function StartLocal(unit: CalendarUnit, local: Local): Local {
    match unit
    case Hour => local.(minute := 0, second := 0)
    case Day => Midnight(local.date)
    case Week =>
      var midnight := Midnight(local.date);
      LocalOf(EpochOf(midnight) - DaysFromMonday(DayNumber(local.date)) * DAY)
    case Month => Midnight(local.date.(day := 1))
    case Year => Midnight(local.date.(month := 1, day := 1))
  }

  function NextBoundary(unit: CalendarUnit, local: Local): int {
    match unit
    case Hour => EpochOf(local) + 3600
    case Day => EpochOf(local) + DAY
    case Week => EpochOf(local) + 7 * DAY
    case Month =>
      EpochOf(Midnight(if local.date.month == 12 then Date(local.date.year + 1, 1, 1)
                       else Date(local.date.year, local.date.month + 1, 1)))
    case Year => EpochOf(Midnight(Date(local.date.year + 1, 1, 1)))
  }

  /** The week of the year that starts its weeks on Monday; days before the first Monday are in week 0. */
  function WeekNumber(d: Date): int {
    (DayNumber(d) - YearStart(d.year) + 7 - DaysFromMonday(DayNumber(d))) / 7
  }

  function KeyOf(unit: CalendarUnit, start: Local): Key {
    match unit
    case Hour => HourKey(start.date, start.hour)
    case Day => DayKey(start.date)
    case Week => WeekKey(start.date.year, WeekNumber(start.date))
    case Month => MonthKey(start.date.year, start.date.month)
    case Year => YearKey(start.date.year)
  }

  function ResolveFixed(unit: CalendarUnit, t: int): Resolved {
    var start := StartLocal(unit, LocalOf(t));
    Resolved(EpochOf(start), NextBoundary(unit, start), KeyOf(unit, start))
  }

  function Resolve(window: TimeWindow, t: int): Resolved {
    match window
    case Rolling(seconds) =>
      var length := if seconds < 1 then 1 else seconds;
      Resolved(t - length, t, RollingKey(t - length, t))
    case Fixed(unit) => ResolveFixed(unit, t)
  }

  /** A rolling window ends at its instant and is at least a second long; its key names both ends. */
  lemma RollingWindow(seconds: int, t: int)
    ensures var r := Resolve(Rolling(seconds), t);
            && r.endsAt == t && r.endsAt - r.startsAt == (if seconds >= 1 then seconds else 1)
            && r.key == RollingKey(r.startsAt, r.endsAt)
  {
  }

  // ---- Windows partition time ------------------------------------------------------------

  lemma DayParts(t: int)
    ensures t == t / DAY * DAY + t % DAY / 3600 * 3600 + t % 3600 / 60 * 60 + t % 60
    ensures 0 <= t % DAY / 3600 < 24 && 0 <= t % 3600 / 60 < 60
  {
    HourParts(t);
    var seconds := t % 3600;
    assert seconds == seconds / 60 * 60 + seconds % 60;
    assert seconds % 60 == t % 60 by { MinuteOfHour(t); }
  }

  lemma HourParts(t: int)
    ensures t == t / DAY * DAY + t % DAY / 3600 * 3600 + t % 3600
  {
    var q, r := t / DAY, t % DAY;
    HourOf(t, 24 * q + r / 3600, r % 3600);
  }

  lemma MinuteOfHour(t: int)
    ensures t % 3600 % 60 == t % 60
  {
    var r := t % 3600;
    MinuteOf(t, 60 * (t / 3600) + r / 60, r % 60);
  }

  lemma DayOf(t: int, q: int, r: int)
    requires t == 86400 * q + r && 0 <= r < 86400
    ensures t / 86400 == q && t % 86400 == r
  {
  }

  lemma HourOf(t: int, q: int, r: int)
    requires t == 3600 * q + r && 0 <= r < 3600
    ensures t / 3600 == q && t % 3600 == r
  {
  }

  lemma MinuteOf(t: int, q: int, r: int)
    requires t == 60 * q + r && 0 <= r < 60
    ensures t / 60 == q && t % 60 == r
  {
  }

  lemma EpochRoundTrip(t: int)
    ensures EpochOf(LocalOf(t)) == t && ValidDate(LocalOf(t).date) && DayNumber(LocalOf(t).date) == t / DAY
  {
    hide CivilOf, DayNumber, ValidDate;
    DayRoundTrip(t / DAY);
    DayParts(t);
  }

  /** Where the window of each unit begins, as a day number or an hour number. */
  lemma StartOf(unit: CalendarUnit, t: int)
    ensures var day, date := t / DAY, CivilOf(t / DAY);
            var start := ResolveFixed(unit, t).startsAt;
            match unit
            case Hour => start == t / 3600 * 3600
            case Day => start == day * DAY
            case Week => start == (day - DaysFromMonday(day)) * DAY
            case Month => start == (YearStart(date.year) + MonthStart(date.month, Leap(date.year))) * DAY
            case Year => start == YearStart(date.year) * DAY
  {
    hide CivilOf, ValidDate, YearStart, MonthStart;
    EpochRoundTrip(t);
    if unit.Week? { EpochRoundTrip((t / DAY - DaysFromMonday(t / DAY)) * DAY); }
    if unit.Year? { FirstMonth(Leap(LocalOf(t).date.year)); }
  }

  lemma EndOf(unit: CalendarUnit, t: int)
    ensures var date := CivilOf(t / DAY);
            var r := ResolveFixed(unit, t);
            match unit
            case Hour => r.endsAt == r.startsAt + 3600
            case Day => r.endsAt == r.startsAt + DAY
            case Week => r.endsAt == r.startsAt + 7 * DAY
            case Month => r.endsAt == (YearStart(date.year) + MonthStart(date.month + 1, Leap(date.year))) * DAY
            case Year => r.endsAt == YearStart(date.year + 1) * DAY
  {
    hide CivilOf, YearStart, MonthStart;
    var date := CivilOf(t / DAY);
    EpochRoundTrip(t);
    FirstMonth(Leap(date.year));
    FirstMonth(Leap(date.year + 1));
    if unit.Month? && date.month == 12 { YearLength(date.year); }
  }

  /** How long the window of every instant is. */
  lemma WindowLength(unit: CalendarUnit, t: int)
    ensures var date, r := CivilOf(t / 86400), ResolveFixed(unit, t);
            r.endsAt - r.startsAt ==
            match unit
            case Hour => 3600
            case Day => 86400
            case Week => 7 * 86400
            case Month => DaysIn(date.year, date.month) * 86400
            case Year => (if Gregorian(date.year) then 366 else 365) * 86400
  {
    hide CivilOf, ResolveFixed, YearStart, Leap, Gregorian, DaysIn;
    var date := CivilOf(t / DAY);
    StartOf(unit, t);
    EndOf(unit, t);
    DayRoundTrip(t / DAY);
    MonthLength(date.year, date.month);
    LeapIsGregorian(date.year);
    YearLength(date.year);
  }

  /** The first instant of the window of every instant: an hour, a day, a Monday, a first of the month, a 1 January. */
  lemma WindowOpens(unit: CalendarUnit, t: int)
    ensures Opens(unit, CivilOf(t / DAY), ResolveFixed(unit, t).startsAt)
  {
    hide *;
    match unit {
      case Hour => HourOpens(t);
      case Day => DayOpens(t);
      case Week => WeekOpens(t);
      case Month => MonthOpens(t);
      case Year => YearOpens(t);
    }
  }

  /** Day 4 was the first Monday, by `EpochDates`. */
  predicate Opens(unit: CalendarUnit, date: Date, start: int) {
    match unit
    case Hour => start % 3600 == 0
    case Day => start % 86400 == 0 && CivilOf(start / 86400) == date
    case Week => start % 86400 == 0 && start / 86400 % 7 == 4
    case Month => start % 86400 == 0 && CivilOf(start / 86400) == Date(date.year, date.month, 1)
    case Year => start % 86400 == 0 && CivilOf(start / 86400) == Date(date.year, 1, 1)
  }

  lemma HourOpens(t: int)
    ensures Opens(Hour, CivilOf(t / DAY), ResolveFixed(Hour, t).startsAt)
  {
    hide CivilOf, ResolveFixed;
    StartOf(Hour, t);
    HourOf(t / 3600 * 3600, t / 3600, 0);
  }

  lemma DayOpens(t: int)
    ensures Opens(Day, CivilOf(t / DAY), ResolveFixed(Day, t).startsAt)
  {
    hide CivilOf, ResolveFixed;
    StartOf(Day, t);
    WholeDays(t / DAY);
  }

  lemma WeekOpens(t: int)
    ensures Opens(Week, CivilOf(t / DAY), ResolveFixed(Week, t).startsAt)
  {
    hide CivilOf, ResolveFixed, DaysFromMonday;
    StartOf(Week, t);
    WholeDays(MondayOf(t / DAY));
    MondayIsFour(t / DAY);
  }

  lemma MonthOpens(t: int)
    ensures Opens(Month, CivilOf(t / DAY), ResolveFixed(Month, t).startsAt)
  {
    hide CivilOf, ResolveFixed, YearStart, MonthStart, Leap;
    var date := CivilOf(t / DAY);
    StartOf(Month, t);
    WholeDays(YearStart(date.year) + MonthStart(date.month, Leap(date.year)));
    FirstOfMonth(t / DAY);
  }

  lemma YearOpens(t: int)
    ensures Opens(Year, CivilOf(t / DAY), ResolveFixed(Year, t).startsAt)
  {
    hide CivilOf, ResolveFixed, YearStart, Leap;
    var year := CivilOf(t / DAY).year;
    StartOf(Year, t);
    WholeDays(YearStart(year));
    FirstOfYear(year);
  }

  lemma MondayIsFour(day: int)
    ensures MondayOf(day) % 7 == 4
  {
  }

  lemma FirstOfMonth(day: int)
    ensures var date := CivilOf(day);
            CivilOf(YearStart(date.year) + MonthStart(date.month, Leap(date.year))) == Date(date.year, date.month, 1)
  {
    hide CivilOf, YearStart, MonthStart;
    DayRoundTrip(day);
    DateRoundTrip(Date(CivilOf(day).year, CivilOf(day).month, 1));
  }

  lemma WholeDays(n: int)
    ensures n * 86400 % 3600 == 0 && n * 86400 % 86400 == 0 && n * 86400 / 86400 == n
  {
    HourOf(n * 86400, 24 * n, 0);
    DayOf(n * 86400, n, 0);
  }

  lemma FirstDayOfYear(year: int)
    ensures ValidDate(Date(year, 1, 1)) && DayNumber(Date(year, 1, 1)) == YearStart(year)
  {
    hide YearStart, Leap;
  }

  lemma FirstOfYear(year: int)
    ensures CivilOf(YearStart(year)) == Date(year, 1, 1)
  {
    hide *;
    FirstDayOfYear(year);
    DateRoundTrip(Date(year, 1, 1));
  }

  /** The key of the window of every instant: its hour, day, month or year, or the week of its Monday. */
  lemma KeySays(unit: CalendarUnit, t: int)
    ensures var date, key := CivilOf(t / DAY), ResolveFixed(unit, t).key;
            match unit
            case Hour => key == HourKey(date, t % 86400 / 3600)
            case Day => key == DayKey(date)
            case Week => key.WeekKey? && key.year == CivilOf(t / DAY - DaysFromMonday(t / DAY)).year
            case Month => key == MonthKey(date.year, date.month)
            case Year => key == YearKey(date.year)
  {
    hide CivilOf, WeekNumber, DaysFromMonday;
    if unit.Week? { StartDate(t); }
  }

  /** An instant lies in its own window. */
  lemma WindowContains(unit: CalendarUnit, t: int)
    ensures ResolveFixed(unit, t).startsAt <= t < ResolveFixed(unit, t).endsAt
  {
    hide CivilOf, ResolveFixed, YearStart, MonthStart;
    StartOf(unit, t);
    EndOf(unit, t);
    DayRoundTrip(t / DAY);
    InYear(CivilOf(t / DAY));
  }

  predicate ValidLocal(l: Local) {
    ValidDate(l.date) && 0 <= l.hour < 24 && 0 <= l.minute < 60 && 0 <= l.second < 60
  }

  /** The wall clock is recovered from the instant it stands for. */
  lemma LocalRoundTrip(l: Local)
    requires ValidLocal(l)
    ensures LocalOf(EpochOf(l)) == l
  {
    hide CivilOf, DayNumber, ValidDate;
    DateRoundTrip(l.date);
    var t, day, rest := EpochOf(l), DayNumber(l.date), l.minute * 60 + l.second;
    DayOf(t, day, l.hour * 3600 + rest);
    HourOf(t % DAY, l.hour, rest);
    HourOf(t, day * 24 + l.hour, rest);
    MinuteOf(rest, l.minute, l.second);
    MinuteOf(t, (day * 24 + l.hour) * 60 + l.minute, l.second);
  }

  lemma StartIsLocal(unit: CalendarUnit, t: int)
    ensures ValidLocal(StartLocal(unit, LocalOf(t)))
    ensures LocalOf(ResolveFixed(unit, t).startsAt) == StartLocal(unit, LocalOf(t))
  {
    hide CivilOf, DayNumber, EpochOf;
    EpochRoundTrip(t);
    EpochRoundTrip(EpochOf(Midnight(LocalOf(t).date)) - DaysFromMonday(DayNumber(LocalOf(t).date)) * DAY);
    LocalRoundTrip(StartLocal(unit, LocalOf(t)));
  }

  /** The start of a window fixes its end and its key. */
  lemma StartDecides(unit: CalendarUnit, t: int, u: int)
    requires ResolveFixed(unit, t).startsAt == ResolveFixed(unit, u).startsAt
    ensures ResolveFixed(unit, t) == ResolveFixed(unit, u)
  {
    hide LocalOf, StartLocal;
    StartIsLocal(unit, t);
    StartIsLocal(unit, u);
  }

  lemma SharedYear(year: int, d: Date)
    requires ValidDate(d) && YearStart(year) <= DayNumber(d) < YearStart(year + 1)
    ensures d.year == year
  {
    hide YearStart, MonthStart, DayNumber;
    InYear(d);
    if d.year < year { YearStartsGrow(d.year + 1, year); }
    if year < d.year { YearStartsGrow(year + 1, d.year); }
  }

  lemma SharedMonth(year: int, month: int, d: Date)
    requires ValidDate(d) && 1 <= month <= 12
    requires YearStart(year) + MonthStart(month, Leap(year)) <= DayNumber(d)
             < YearStart(year) + MonthStart(month + 1, Leap(year))
    ensures d.year == year && d.month == month
  {
    hide YearStart, MonthStart;
    FirstMonth(Leap(year));
    YearLength(year);
    if 1 < month { MonthStartsGrow(1, month, Leap(year)); }
    if month < 12 { MonthStartsGrow(month + 1, 13, Leap(year)); }
    SharedYear(year, d);
    if d.month + 1 < month { MonthStartsGrow(d.month + 1, month, Leap(year)); }
    if month + 1 < d.month { MonthStartsGrow(month + 1, d.month, Leap(year)); }
  }

  lemma SharedHourOrDay(t: int, u: int)
    ensures t / 3600 * 3600 <= u < t / 3600 * 3600 + 3600 ==> u / 3600 == t / 3600
    ensures t / DAY * DAY <= u < t / DAY * DAY + DAY ==> u / DAY == t / DAY
  {
  }

  lemma SharedWeek(a: int, b: int)
    requires a - DaysFromMonday(a) <= b < a - DaysFromMonday(a) + 7
    ensures b - DaysFromMonday(b) == a - DaysFromMonday(a)
  {
    assert (a - DaysFromMonday(a) + 3) % 7 == 0;
  }

  lemma DayInside(lo: int, hi: int, u: int)
    requires lo * DAY <= u < hi * DAY
    ensures lo <= u / DAY < hi
  {
  }

  lemma SharedStart(unit: CalendarUnit, t: int, u: int)
    requires ResolveFixed(unit, t).startsAt <= u < ResolveFixed(unit, t).endsAt
    ensures ResolveFixed(unit, u).startsAt == ResolveFixed(unit, t).startsAt
  {
    hide ResolveFixed, CivilOf, YearStart, MonthStart, DayNumber, ValidDate, DaysFromMonday;
    StartOf(unit, t);
    StartOf(unit, u);
    EndOf(unit, t);
    SharedHourOrDay(t, u);
    var day := t / DAY;
    match unit
    case Week =>
      DayInside(day - DaysFromMonday(day), day - DaysFromMonday(day) + 7, u);
      SharedWeek(day, u / DAY);
    case Year => SharedYearStart(t, u);
    case Month => SharedMonthStart(t, u);
    case _ =>
  }

  lemma SharedYearStart(t: int, u: int)
    requires YearStart(CivilOf(t / DAY).year) * DAY <= u < YearStart(CivilOf(t / DAY).year + 1) * DAY
    ensures CivilOf(u / DAY).year == CivilOf(t / DAY).year
  {
    hide CivilOf, YearStart, MonthStart, DayNumber, ValidDate;
    DayRoundTrip(u / DAY);
    DayInside(YearStart(CivilOf(t / DAY).year), YearStart(CivilOf(t / DAY).year + 1), u);
    SharedYear(CivilOf(t / DAY).year, CivilOf(u / DAY));
  }

  lemma SharedMonthStart(t: int, u: int)
    requires var d := CivilOf(t / DAY);
             (YearStart(d.year) + MonthStart(d.month, Leap(d.year))) * DAY <= u
             < (YearStart(d.year) + MonthStart(d.month + 1, Leap(d.year))) * DAY
    ensures CivilOf(u / DAY).year == CivilOf(t / DAY).year && CivilOf(u / DAY).month == CivilOf(t / DAY).month
  {
    hide CivilOf, YearStart, MonthStart, DayNumber, ValidDate;
    DayRoundTrip(t / DAY);
    DayRoundTrip(u / DAY);
    var d := CivilOf(t / DAY);
    DayInside(YearStart(d.year) + MonthStart(d.month, Leap(d.year)),
              YearStart(d.year) + MonthStart(d.month + 1, Leap(d.year)), u);
    SharedMonth(d.year, MonthIn(d), CivilOf(u / DAY));
  }

  function MonthIn(d: Date): (m: int)
    ensures ValidDate(d) ==> m == d.month && 1 <= m <= 12
  {
    d.month
  }

  /** Every instant of a window resolves to that window. */
  lemma WindowShared(unit: CalendarUnit, t: int, u: int)
    requires ResolveFixed(unit, t).startsAt <= u < ResolveFixed(unit, t).endsAt
    ensures ResolveFixed(unit, u) == ResolveFixed(unit, t)
  {
    hide ResolveFixed;
    SharedStart(unit, t, u);
    StartDecides(unit, t, u);
  }

  /** Mondays of one year with the same week number are the same day. */
  lemma WeekKeyDecides(a: Date, b: Date)
    requires DaysFromMonday(DayNumber(a)) == 0 == DaysFromMonday(DayNumber(b))
    requires a.year == b.year && WeekNumber(a) == WeekNumber(b)
    ensures DayNumber(a) == DayNumber(b)
  {
    hide DayNumber, YearStart;
  }

  lemma MondayBefore(day: int)
    ensures DaysFromMonday(day - DaysFromMonday(day)) == 0
  {
  }

  lemma WeekStartsMonday(t: int)
    ensures var start := StartLocal(Week, LocalOf(t));
            DaysFromMonday(DayNumber(start.date)) == 0 && EpochOf(start) == DayNumber(start.date) * DAY
  {
    hide CivilOf, DayNumber, ValidDate, DaysFromMonday;
    EpochRoundTrip(t);
    var day := t / DAY;
    var monday := day - DaysFromMonday(day);
    MondayBefore(day);
    EpochRoundTrip(monday * DAY);
    DayOf(monday * DAY, monday, 0);
    assert EpochOf(Midnight(LocalOf(t).date)) - DaysFromMonday(day) * DAY == monday * DAY;
  }

  lemma KeyDecides(unit: CalendarUnit, t: int, u: int)
    requires ResolveFixed(unit, t).key == ResolveFixed(unit, u).key
    ensures ResolveFixed(unit, t).startsAt == ResolveFixed(unit, u).startsAt
  {
    hide CivilOf, LocalOf, WeekNumber, DayNumber;
    if unit.Week? {
      hide StartLocal;
      WeekStartsMonday(t);
      WeekStartsMonday(u);
      WeekKeyDecides(StartLocal(Week, LocalOf(t)).date, StartLocal(Week, LocalOf(u)).date);
    }
  }

  /** Calendar windows tile the line: two instants share a key exactly when they lie in the same window. */
  lemma WindowsPartition(unit: CalendarUnit, t: int, u: int)
    ensures var w := ResolveFixed(unit, t);
            && (w.key == ResolveFixed(unit, u).key <==> w.startsAt <= u < w.endsAt)
            && (w.startsAt <= u < w.endsAt ==> ResolveFixed(unit, u) == w)
  {
    hide ResolveFixed;
    WindowContains(unit, u);
    if ResolveFixed(unit, t).key == ResolveFixed(unit, u).key {
      KeyDecides(unit, t, u);
      StartDecides(unit, t, u);
    }
    if ResolveFixed(unit, t).startsAt <= u < ResolveFixed(unit, t).endsAt { WindowShared(unit, t, u); }
  }

  /** The end of a window is the start of the next. */
  lemma EndStartsNext(unit: CalendarUnit, t: int)
    ensures ResolveFixed(unit, ResolveFixed(unit, t).endsAt).startsAt == ResolveFixed(unit, t).endsAt
  {
    hide ResolveFixed;
    var end := ResolveFixed(unit, t).endsAt;
    WindowContains(unit, t);
    WindowContains(unit, end);
    if ResolveFixed(unit, end).startsAt < end {
      WindowShared(unit, t, end - 1);
      WindowShared(unit, end, end - 1);
      assert false;
    }
  }

  /** The Monday on or before a day. */
  function MondayOf(day: int): int { day - DaysFromMonday(day) }

  lemma StartDate(t: int)
    ensures StartLocal(Week, LocalOf(t)).date == CivilOf(MondayOf(t / DAY))
  {
    hide CivilOf, DayNumber, ValidDate, DaysFromMonday;
    EpochRoundTrip(t);
    var monday := MondayOf(t / DAY);
    DayOf(monday * DAY, monday, 0);
    assert EpochOf(Midnight(LocalOf(t).date)) - DaysFromMonday(t / DAY) * DAY == monday * DAY;
  }

  lemma WeekOfMonday(date: Date)
    requires ValidDate(date) && DaysFromMonday(DayNumber(date)) == 0
    ensures WeekNumber(date) == (DayNumber(date) - YearStart(date.year)) / 7 + 1
    ensures 1 <= WeekNumber(date) <= 53
    ensures DayNumber(date) + 7 > YearStart(date.year + 1) ==> WeekNumber(date) >= 52
  {
    hide YearStart, DayNumber;
    InYear(date);
    YearLength(date.year);
    var yearDay := DayNumber(date) - YearStart(date.year);
    assert WeekNumber(date) == (yearDay + 7) / 7;
  }

  /**
   * A week is keyed by its Monday: that day's year and the whole weeks before it in that year. A week that spans
   * New Year is therefore week 52 or 53 of the old year for all its days, those of the new year included.
   */
  lemma WeekKeyFollowsMonday(t: int)
    ensures var day, key := t / DAY, ResolveFixed(Week, t).key;
            var monday := CivilOf(MondayOf(day));
            && key == WeekKey(monday.year, (MondayOf(day) - YearStart(monday.year)) / 7 + 1)
            && 1 <= key.week <= 53
            && (CivilOf(day).year != monday.year ==> CivilOf(day).year == monday.year + 1 && key.week >= 52)
  {
    hide YearStart, MonthStart, CivilOf, DayNumber, ValidDate, DaysFromMonday, WeekNumber, LocalOf;
    var day := t / DAY;
    var monday := CivilOf(MondayOf(day));
    DayRoundTrip(day);
    DayRoundTrip(MondayOf(day));
    StartDate(t);
    MondayBefore(day);
    WeekSpan(day);
    WeekOfMonday(monday);
    InYear(CivilOf(day));
    InYear(monday);
    if CivilOf(day).year < monday.year { YearStartsGrow(CivilOf(day).year + 1, monday.year); }
    if monday.year + 1 < CivilOf(day).year {
      YearStartsGrow(monday.year + 2, CivilOf(day).year);
      YearAhead(monday.year + 1);
    }
  }

  lemma WeekSpan(day: int)
    ensures MondayOf(day) <= day < MondayOf(day) + 7
  {
  }

  lemma YearAhead(year: int)
    ensures YearStart(year) + 365 <= YearStart(year + 1)
  {
    hide YearStart;
    YearLength(year);
  }

  /** An example: 1 January 2026 is a Thursday, in the last week of 2025. */
  lemma WeekKeyAcrossYears()
    ensures ResolveFixed(Week, DayNumber(Date(2026, 1, 1)) * DAY).key == WeekKey(2025, 52)
  {
    hide CivilOf, ResolveFixed;
    assert DayNumber(Date(2026, 1, 1)) == 20454 && DayNumber(Date(2025, 12, 29)) == 20451 && YearStart(2025) == 20089;
    DateRoundTrip(Date(2025, 12, 29));
    DayOf(20454 * DAY, 20454, 0);
    WeekKeyFollowsMonday(20454 * DAY);
  }
}
