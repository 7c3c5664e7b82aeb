/** Window keys as the text they are stored and compared as. */
module WindowKeys {
  import opened Decimals
  import opened TimeWindows

  /** Four digits for the years that have them; otherwise a sign and at least four digits. */
  function YearText(year: int): string {
    if 0 <= year <= 9999 then Padded(year, 4)
    else if year < 0 then "-" + Padded(-year, 4)
    else "+" + Padded(year, 4)
  }

  function IntText(n: int): (s: string)
    ensures s != "" && AllDigits(s[1..])
  {
    if n < 0 then "-" + Decimal(-n) else Decimal(n)
  }

  predicate TwoDigit(n: int) { 0 <= n < 100 }

  /** The fields printed with two digits have no more. */
  predicate Printable(key: Key) {
    match key
    case HourKey(d, h) => TwoDigit(d.month) && TwoDigit(d.day) && TwoDigit(h)
    case DayKey(d) => TwoDigit(d.month) && TwoDigit(d.day)
    case WeekKey(_, w) => TwoDigit(w)
    case MonthKey(_, m) => TwoDigit(m)
    case _ => true
  }

  function DateText(d: Date): string
    requires TwoDigit(d.month) && TwoDigit(d.day)
  {
    YearText(d.year) + ("-" + Padded(d.month, 2) + "-" + Padded(d.day, 2))
  }

  function Unit(key: Key): string {
    match key
    case HourKey(_, _) => "hour/"
    case DayKey(_) => "day/"
    case WeekKey(_, _) => "week/"
    case MonthKey(_, _) => "month/"
    case YearKey(_) => "year/"
    case RollingKey(_, _) => "rolling/"
  }

  function Rest(key: Key): string
    requires Printable(key)
  {
    match key
    case HourKey(d, h) => DateText(d) + ("T" + Padded(h, 2))
    case DayKey(d) => DateText(d)
    case WeekKey(y, w) => YearText(y) + ("-" + Padded(w, 2))
    case MonthKey(y, m) => YearText(y) + ("-" + Padded(m, 2))
    case YearKey(y) => YearText(y)
    case RollingKey(starts, ends) => IntText(starts) + ("-" + IntText(ends))
  }

  function Text(key: Key): string
    requires Printable(key)
  {
    Unit(key) + Rest(key)
  }

  // ---- The text determines the key -------------------------------------------------------

  /** Ends of the same length are cut off alike. */
  lemma SameCut(a: string, b: string, m: string, n: string)
    requires a + m == b + n && |m| == |n|
    ensures a == b && m == n
  {
    var x, y := a + m, b + n;
    assert a == x[..|a|] && b == y[..|b|] && m == x[|a|..] && n == y[|b|..];
  }

  lemma SamePadded(m: nat, n: nat, width: nat)
    requires Padded(m, width) == Padded(n, width)
    ensures m == n
  {
    NumberPadded(m, width);
    NumberPadded(n, width);
  }

  lemma SameYear(a: int, b: int)
    requires YearText(a) == YearText(b)
    ensures a == b
  {
    var x, y := YearText(a), YearText(b);
    assert 0 <= a <= 9999 <==> '0' <= x[0] <= '9';
    assert 0 <= b <= 9999 <==> '0' <= y[0] <= '9';
    assert a < 0 <==> x[0] == '-';
    assert b < 0 <==> y[0] == '-';
    if 0 <= a <= 9999 {
      SamePadded(a, b, 4);
    } else {
      assert x[1..] == Padded(if a < 0 then -a else a, 4) && y[1..] == Padded(if b < 0 then -b else b, 4);
      SamePadded(if a < 0 then -a else a, if b < 0 then -b else b, 4);
    }
  }

  lemma SignOf(n: int)
    ensures n < 0 <==> IntText(n)[0] == '-'
    ensures n < 0 ==> IntText(n)[1..] == Decimal(-n)
  {
    hide Decimal;
    if n >= 0 { assert AllDigits(Decimal(n)) && Decimal(n) != "" && '0' <= Decimal(n)[0]; }
  }

  lemma SameInt(a: int, b: int)
    requires IntText(a) == IntText(b)
    ensures a == b
  {
    hide Decimal, Number;
    SignOf(a);
    SignOf(b);
    NumberDecimal(if a < 0 then -a else a);
    NumberDecimal(if b < 0 then -b else b);
  }

  /** A year and a two-digit field. */
  lemma SameYearAnd(a: int, b: int, m: int, n: int)
    requires TwoDigit(m) && TwoDigit(n)
    requires YearText(a) + ("-" + Padded(m, 2)) == YearText(b) + ("-" + Padded(n, 2))
    ensures a == b && m == n
  {
    hide YearText;
    TwoDigits(m);
    TwoDigits(n);
    var x, y := "-" + Padded(m, 2), "-" + Padded(n, 2);
    SameCut(YearText(a), YearText(b), x, y);
    assert x[1..] == Padded(m, 2) && y[1..] == Padded(n, 2);
    SameYear(a, b);
    SamePadded(m, n, 2);
  }

  lemma SameDate(a: Date, b: Date)
    requires TwoDigit(a.month) && TwoDigit(a.day) && TwoDigit(b.month) && TwoDigit(b.day)
    requires DateText(a) == DateText(b)
    ensures a == b
  {
    hide YearText, Padded;
    TwoDigits(a.day);
    TwoDigits(b.day);
    var x, y := YearText(a.year) + ("-" + Padded(a.month, 2)), YearText(b.year) + ("-" + Padded(b.month, 2));
    var m, n := "-" + Padded(a.day, 2), "-" + Padded(b.day, 2);
    assert DateText(a) == x + m && DateText(b) == y + n;
    SameCut(x, y, m, n);
    assert m[1..] == Padded(a.day, 2) && n[1..] == Padded(b.day, 2);
    SameYearAnd(a.year, b.year, a.month, b.month);
    SamePadded(a.day, b.day, 2);
  }

  /** The dash after a number is the first one past its sign. */
  lemma SameAtDash(a: string, b: string, m: string, n: string)
    requires a != "" && b != "" && AllDigits(a[1..]) && AllDigits(b[1..])
    requires a + ("-" + m) == b + ("-" + n)
    ensures a == b && m == n
  {
    var x, y := a + ("-" + m), b + ("-" + n);
    assert x[|a|] == '-' && y[|b|] == '-';
    assert forall i :: 1 <= i < |a| ==> x[i] == a[1..][i - 1] && x[i] != '-';
    assert forall i :: 1 <= i < |b| ==> y[i] == b[1..][i - 1] && y[i] != '-';
    assert !(|a| < |b|) && !(|b| < |a|);
    SameCut(a, b, "-" + m, "-" + n);
    assert ("-" + m)[1..] == m && ("-" + n)[1..] == n;
  }

  lemma SameUnit(k: Key, l: Key)
    requires Printable(k) && Printable(l) && Text(k) == Text(l)
    ensures Unit(k) == Unit(l) && Rest(k) == Rest(l)
  {
    hide Rest;
    assert Text(k)[0] == Unit(k)[0] && Text(l)[0] == Unit(l)[0];
    assert Text(k)[|Unit(k)|..] == Rest(k) && Text(l)[|Unit(l)|..] == Rest(l);
  }

  /** Different keys have different texts. */
  lemma TextInjective(k: Key, l: Key)
    requires Printable(k) && Printable(l) && Text(k) == Text(l)
    ensures k == l
  {
    hide YearText, DateText, Padded, Text, IntText;
    SameUnit(k, l);
    assert Unit(k)[0] == Unit(l)[0];
    match k {
      case HourKey(d, h) =>
        TwoDigits(h);
        TwoDigits(l.hour);
        var m, n := "T" + Padded(h, 2), "T" + Padded(l.hour, 2);
        SameCut(DateText(d), DateText(l.date), m, n);
        assert m[1..] == Padded(h, 2) && n[1..] == Padded(l.hour, 2);
        SamePadded(h, l.hour, 2);
        SameDate(d, l.date);
      case DayKey(d) => SameDate(d, l.date);
      case WeekKey(y, w) => SameYearAnd(y, l.year, w, l.week);
      case MonthKey(y, m) => SameYearAnd(y, l.year, m, l.month);
      case YearKey(y) => SameYear(y, l.year);
      case RollingKey(starts, ends) =>
        SameAtDash(IntText(starts), IntText(l.starts), IntText(ends), IntText(l.ends));
        SameInt(starts, l.starts);
        SameInt(ends, l.ends);
    }
  }

  lemma MonthLength(d: Date)
    requires ValidDate(d)
    ensures TwoDigit(d.month) && TwoDigit(d.day)
  {
  }

  lemma ResolvedPrintable(window: TimeWindow, t: int)
    ensures Printable(Resolve(window, t).key)
  {
    hide CivilOf, DayNumber, ValidDate, LocalOf, EpochOf, WeekNumber;
    if window.Fixed? {
      StartIsLocal(window.unit, t);
      MonthLength(StartLocal(window.unit, LocalOf(t)).date);
      if window.unit.Week? { WeekKeyFollowsMonday(t); }
    }
  }

  /** Two instants have the same stored key exactly when they lie in the same calendar window. */
  lemma TextsPartition(unit: CalendarUnit, t: int, u: int)
    ensures var w, k, l := ResolveFixed(unit, t), Resolve(Fixed(unit), t).key, Resolve(Fixed(unit), u).key;
            && Printable(k) && Printable(l)
            && (Text(k) == Text(l) <==> w.startsAt <= u < w.endsAt)
  {
    hide ResolveFixed, Printable, Text;
    ResolvedPrintable(Fixed(unit), t);
    ResolvedPrintable(Fixed(unit), u);
    WindowsPartition(unit, t, u);
    var k, l := Resolve(Fixed(unit), t).key, Resolve(Fixed(unit), u).key;
    if Text(k) == Text(l) { TextInjective(k, l); }
  }

  // ---- What the text says ----------------------------------------------------------------

  /** A numeral of `n` digits for the value `v`. */
  predicate Digits(s: string, n: nat, v: int) { |s| == n && AllDigits(s) && Number(s) == v }

  lemma TwoSay(v: int)
    requires TwoDigit(v)
    ensures Digits(Padded(v, 2), 2, v)
  {
    TwoDigits(v);
    NumberPadded(v, 2);
  }

  lemma YearSays(year: int)
    requires 0 <= year <= 9999
    ensures Digits(YearText(year), 4, year)
  {
    FourDigits(year);
    NumberPadded(year, 4);
  }

  /** The stored text of a key of the years 0 to 9999, piece by piece. */
  lemma TextSays(key: Key) returns (y: string, a: string, b: string, c: string)
    requires Printable(key)
    requires match key
             case HourKey(d, _) => 0 <= d.year <= 9999
             case DayKey(d) => 0 <= d.year <= 9999
             case WeekKey(year, _) => 0 <= year <= 9999
             case MonthKey(year, _) => 0 <= year <= 9999
             case YearKey(year) => 0 <= year <= 9999
             case RollingKey(_, _) => true
    ensures match key
            case HourKey(d, h) =>
              && Text(key) == "hour/" + y + "-" + a + "-" + b + "T" + c
              && Digits(y, 4, d.year) && Digits(a, 2, d.month) && Digits(b, 2, d.day) && Digits(c, 2, h)
            case DayKey(d) =>
              && Text(key) == "day/" + y + "-" + a + "-" + b
              && Digits(y, 4, d.year) && Digits(a, 2, d.month) && Digits(b, 2, d.day)
            case WeekKey(year, w) => Text(key) == "week/" + y + "-" + a && Digits(y, 4, year) && Digits(a, 2, w)
            case MonthKey(year, m) => Text(key) == "month/" + y + "-" + a && Digits(y, 4, year) && Digits(a, 2, m)
            case YearKey(year) => Text(key) == "year/" + y && Digits(y, 4, year)
            case RollingKey(starts, ends) => Text(key) == "rolling/" + IntText(starts) + "-" + IntText(ends)
  {
    hide YearText, Padded, Digits;
    y, a, b, c := "", "", "", "";
    match key {
      case HourKey(d, h) =>
        YearSays(d.year);
        TwoSay(d.month);
        TwoSay(d.day);
        TwoSay(h);
        y, a, b, c := YearText(d.year), Padded(d.month, 2), Padded(d.day, 2), Padded(h, 2);
        assert Text(key) == "hour/" + y + "-" + a + "-" + b + "T" + c;
      case DayKey(d) =>
        YearSays(d.year);
        TwoSay(d.month);
        TwoSay(d.day);
        y, a, b := YearText(d.year), Padded(d.month, 2), Padded(d.day, 2);
        assert Text(key) == "day/" + y + "-" + a + "-" + b;
      case WeekKey(year, w) =>
        YearSays(year);
        TwoSay(w);
        y, a := YearText(year), Padded(w, 2);
        assert Text(key) == "week/" + y + "-" + a;
      case MonthKey(year, m) =>
        YearSays(year);
        TwoSay(m);
        y, a := YearText(year), Padded(m, 2);
        assert Text(key) == "month/" + y + "-" + a;
      case YearKey(year) =>
        YearSays(year);
        y := YearText(year);
      case RollingKey(starts, ends) =>
        assert Text(key) == "rolling/" + IntText(starts) + "-" + IntText(ends);
    }
  }
}
