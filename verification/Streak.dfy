/** Streaks: one qualifying action at a time, counted by the distance between window keys. */
module Streak {
  import opened Common
  import opened TimeWindows

  datatype StreakSpec = StreakSpec(window: TimeWindow, graceSeconds: int)

  /** `lastKey` is None before the first qualifying action. */
  datatype State = State(current: int, best: int, lastKey: Option<Key>, freezesUsed: int, active: bool)

  datatype Effect = Extended | NoAction | Grace | Broken

  datatype Outcome = Outcome(before: int, after: int, best: int, effect: Effect, key: Key)

  const EMPTY := State(0, 0, None, 0, false)

  // ---- Distances between window keys -----------------------------------------------------

  /** The instant a key is read back as; the key of a week, month or year is not a full date. */
  function KeyEpoch(key: Key): Option<int> {
    match key
    case RollingKey(starts, _) => if starts < 0 then None else Some(starts)
    case DayKey(date) => Some(EpochOf(Local(date, 12, 0, 0)))
    case HourKey(date, _) => Some(EpochOf(Local(date, 12, 0, 0)))
    case _ => None
  }

  function UnitSeconds(window: TimeWindow, t: int): (seconds: int)
    ensures seconds >= 1
  {
    var cur := Resolve(window, t);
    Max(1, cur.endsAt - cur.startsAt)
  }

  function WindowDistance(window: TimeWindow, last: Key, current: Key, t: int): int {
    if last == current then 0
    else
      match (KeyEpoch(last), KeyEpoch(current))
      case (Some(a), Some(b)) =>
        var delta := Max(b - a, 0);
        if window.Fixed? then Max(delta / UnitSeconds(window, t), 1) else 1 + delta / UnitSeconds(window, t)
      case _ => 1
  }

  function PrevWindowEnd(window: TimeWindow, last: Key, t: int): int {
    match KeyEpoch(last)
    case Some(e) => if window.Fixed? then e + UnitSeconds(window, t) / 2 else e + UnitSeconds(window, t)
    case None => Resolve(window, t).startsAt - UnitSeconds(window, t)
  }

  // ---- One qualifying action -------------------------------------------------------------

  function Extend(s: State, key: Key): State {
    s.(current := s.current + 1, best := Max(s.best, s.current + 1), active := true, lastKey := Some(key))
  }

  function Restart(s: State, key: Key): State { State(1, Max(s.best, 1), Some(key), 0, true) }

  function Apply(spec: StreakSpec, s: State, t: int): (State, Effect) {
    var key := Resolve(spec.window, t).key;
    if s.lastKey.None? then
      (s.(current := 1, best := Max(s.best, 1), lastKey := Some(key), active := true), Extended)
    else if s.lastKey.value == key then
      (s, NoAction)
    else
      var gap := Max(WindowDistance(spec.window, s.lastKey.value, key, t), 1);
      if gap == 1 then (Extend(s, key), Extended)
      else if gap == 2 && spec.graceSeconds > 0
              && t - PrevWindowEnd(spec.window, s.lastKey.value, t) <= spec.graceSeconds then
        (Extend(s, key), Grace)
      else (Restart(s, key), Broken)
  }

  class StreakEntry {
    var current: int
    var best: int
    var lastKey: Option<Key>
    var freezesUsed: int
    var active: bool

    constructor ()
      ensures Value() == EMPTY
    {
      current, best, lastKey, freezesUsed, active := 0, 0, None, 0, false;
    }

    function Value(): State
      reads this
    {
      State(current, best, lastKey, freezesUsed, active)
    }

    method Reset(key: Key)
      modifies this
      ensures Value() == Restart(old(Value()), key)
    {
      current := 1;
      best := Max(best, 1);
      lastKey := Some(key);
      active := true;
      freezesUsed := 0;
    }

    method Advance(key: Key)
      modifies this
      ensures Value() == Extend(old(Value()), key)
    {
      current := current + 1;
      best := Max(best, current);
      active := true;
      lastKey := Some(key);
    }

    method ApplyQualifying(spec: StreakSpec, t: int) returns (out: Outcome)
      modifies this
      ensures Value() == Apply(spec, old(Value()), t).0
      ensures out == Outcome(old(current), current, best, Apply(spec, old(Value()), t).1, Resolve(spec.window, t).key)
    {
      var key := Resolve(spec.window, t).key;
      var before, effect := current, NoAction;
      if lastKey.None? {
        current, best, lastKey, active := 1, Max(best, 1), Some(key), true;
        effect := Extended;
      } else if lastKey.value != key {
        var gap := WindowDistance(spec.window, lastKey.value, key, t);
        gap := if gap <= 0 then 1 else gap;
        if gap == 1 {
          Advance(key);
          effect := Extended;
        } else if gap == 2 && spec.graceSeconds > 0
                  && t - PrevWindowEnd(spec.window, lastKey.value, t) <= spec.graceSeconds {
          Advance(key);
          effect := Grace;
        } else {
          Reset(key);
          effect := Broken;
        }
      }
      out := Outcome(before, current, best, effect, key);
    }
  }

  // ---- When an action continues the streak -----------------------------------------------

  /** What tells windows apart: the start of a calendar window, the very second of a rolling one. */
  function Mark(window: TimeWindow, t: int): int {
    if window.Fixed? then ResolveFixed(window.unit, t).startsAt else t
  }

  function Length(seconds: int): int { if seconds < 1 then 1 else seconds }

  /** In plain time: an action at `t` carries on a streak whose last counted window is the one of `last`. */
  predicate Links(spec: StreakSpec, last: int, t: int) {
    var grace := spec.graceSeconds;
    match spec.window
    case Fixed(Day) =>
      t / DAY <= last / DAY + 1
      || (t / DAY == last / DAY + 2 && 0 < grace && t - (last / DAY + 1) * DAY <= grace)
    case Fixed(Hour) => t / DAY <= last / DAY
    case Fixed(_) => true
    case Rolling(seconds) =>
      var length := Length(seconds);
      last < length || t < length || t - last < length
      || (t - last < 2 * length && 0 < grace && t - last <= grace)
  }

  lemma KeyIsMark(window: TimeWindow, t: int, u: int)
    ensures Resolve(window, t).key == Resolve(window, u).key <==> Mark(window, t) == Mark(window, u)
  {
    hide ResolveFixed;
    if window.Fixed? {
      if Mark(window, t) == Mark(window, u) { StartDecides(window.unit, t, u); }
      if Resolve(window, t).key == Resolve(window, u).key { KeyDecides(window.unit, t, u); }
    }
  }

  lemma DayKeyEpoch(unit: CalendarUnit, t: int)
    requires unit.Day? || unit.Hour?
    ensures KeyEpoch(ResolveFixed(unit, t).key) == Some(t / DAY * DAY + DAY / 2)
    ensures UnitSeconds(Fixed(unit), t) == if unit.Day? then DAY else 3600
  {
    hide CivilOf, DayNumber, ValidDate;
    EpochRoundTrip(t);
    EndOf(unit, t);
  }

  lemma DayDistance(last: int, t: int)
    requires ResolveFixed(Day, last).key != ResolveFixed(Day, t).key
    ensures WindowDistance(Fixed(Day), ResolveFixed(Day, last).key, ResolveFixed(Day, t).key, t)
            == Max(Max(t / DAY - last / DAY, 0), 1)
    ensures PrevWindowEnd(Fixed(Day), ResolveFixed(Day, last).key, t) == (last / DAY + 1) * DAY
  {
    hide ResolveFixed, UnitSeconds, KeyEpoch;
    DayKeyEpoch(Day, last);
    DayKeyEpoch(Day, t);
    var days := Max(t / DAY - last / DAY, 0);
    assert Max((t / DAY - last / DAY) * DAY, 0) == days * DAY;
    assert days * DAY / DAY == days;
  }

  lemma HourDistance(last: int, t: int)
    requires ResolveFixed(Hour, last).key != ResolveFixed(Hour, t).key
    ensures WindowDistance(Fixed(Hour), ResolveFixed(Hour, last).key, ResolveFixed(Hour, t).key, t)
            == if t / DAY <= last / DAY then 1 else 24 * (t / DAY - last / DAY)
  {
    hide ResolveFixed, UnitSeconds, KeyEpoch;
    DayKeyEpoch(Hour, last);
    DayKeyEpoch(Hour, t);
    var days := Max(t / DAY - last / DAY, 0);
    assert Max((t / DAY - last / DAY) * DAY, 0) == days * DAY;
    assert days * DAY / 3600 == 24 * days;
  }

  lemma RollingDistance(seconds: int, last: int, t: int)
    requires last != t
    ensures var length, w := Length(seconds), Rolling(seconds);
            WindowDistance(w, Resolve(w, last).key, Resolve(w, t).key, t)
            == if last < length || t < length then 1 else 1 + Max(t - last, 0) / length
    ensures last >= Length(seconds) ==> PrevWindowEnd(Rolling(seconds), Resolve(Rolling(seconds), last).key, t) == last
  {
  }

  lemma Quotient(x: int, k: int)
    requires 0 <= x && 1 <= k
    ensures (x / k == 0 <==> x < k) && (x / k == 1 <==> k <= x < 2 * k)
  {
  }

  /** One action, for every window, any grace and times in any order. */
  lemma StepIs(spec: StreakSpec, s: State, last: int, t: int)
    requires s.lastKey == Some(Resolve(spec.window, last).key)
    ensures var next, key := Apply(spec, s, t).0, Resolve(spec.window, t).key;
            next == if Mark(spec.window, last) == Mark(spec.window, t) then s
                    else if Links(spec, last, t) then Extend(s, key)
                    else Restart(s, key)
    ensures Apply(spec, s, t).1 == if Mark(spec.window, last) == Mark(spec.window, t) then NoAction
                                   else if Links(spec.(graceSeconds := 0), last, t) then Extended
                                   else if Links(spec, last, t) then Grace
                                   else Broken
  {
    hide ResolveFixed, PrevWindowEnd, WindowDistance, Mark, Extend, Restart;
    KeyIsMark(spec.window, last, t);
    if Mark(spec.window, last) != Mark(spec.window, t) {
      match spec.window
      case Fixed(unit) =>
        match unit {
          case Day => DayDistance(last, t);
          case Hour => HourDistance(last, t);
          case _ => LongDistance(unit, last, t);
        }
      case Rolling(seconds) =>
        assert last != t by { RollingMark(seconds, last, t); }
        RollingDistance(seconds, last, t);
        Quotient(Max(t - last, 0), Length(seconds));
    }
  }

  /** What one action leaves in each field: the count goes on, or starts over, or waits for the next window. */
  lemma StepFields(spec: StreakSpec, s: State, last: int, t: int)
    requires s.lastKey == Some(Resolve(spec.window, last).key)
    ensures var next, same := Apply(spec, s, t).0, Mark(spec.window, last) == Mark(spec.window, t);
            && next.current == (if same then s.current else if Links(spec, last, t) then s.current + 1 else 1)
            && next.best == (if same || next.current <= s.best then s.best else next.current)
            && next.lastKey == Some(Resolve(spec.window, t).key)
            && next.active == (s.active || !same)
            && next.freezesUsed == if same || Links(spec, last, t) then s.freezesUsed else 0
  {
    hide Resolve, Mark, Links, Apply;
    StepIs(spec, s, last, t);
    KeyIsMark(spec.window, last, t);
  }

  /** The first action ever counts one, whatever an imported best says. */
  lemma FirstIs(spec: StreakSpec, s: State, t: int)
    requires s.lastKey == None
    ensures Apply(spec, s, t)
            == (State(1, if s.best < 1 then 1 else s.best, Some(Resolve(spec.window, t).key), s.freezesUsed, true),
                Extended)
  {
    hide Resolve;
  }

  lemma RollingMark(seconds: int, last: int, t: int)
    ensures Mark(Rolling(seconds), last) == Mark(Rolling(seconds), t) <==> last == t
  {
  }

  lemma LongDistance(unit: CalendarUnit, last: int, t: int)
    requires unit.Week? || unit.Month? || unit.Year?
    requires ResolveFixed(unit, last).key != ResolveFixed(unit, t).key
    ensures WindowDistance(Fixed(unit), ResolveFixed(unit, last).key, ResolveFixed(unit, t).key, t) == 1
  {
    hide LocalOf, StartLocal, NextBoundary;
  }

  // ---- Whole runs ------------------------------------------------------------------------

  function Run(spec: StreakSpec, times: seq<int>): State {
    if times == [] then EMPTY else Apply(spec, Run(spec, times[..|times| - 1]), times[|times| - 1]).0
  }

  method ApplyAll(spec: StreakSpec, times: seq<int>) returns (entry: StreakEntry)
    ensures fresh(entry) && entry.Value() == Run(spec, times)
  {
    entry := new StreakEntry();
    for i := 0 to |times|
      invariant fresh(entry) && entry.Value() == Run(spec, times[..i])
    {
      assert times[..i + 1][..i] == times[..i];
      var _ := entry.ApplyQualifying(spec, times[i]);
    }
    assert times[..|times|] == times;
  }

  ghost predicate Nondecreasing(times: seq<int>) {
    forall i, j :: 0 <= i < j < |times| ==> times[i] <= times[j]
  }

  predicate Continues(spec: StreakSpec, last: int, t: int) {
    Mark(spec.window, last) == Mark(spec.window, t) || Links(spec, last, t)
  }

  /** Where the chain of actions that reaches the last one begins. */
  function ChainStart(spec: StreakSpec, times: seq<int>): (c: nat)
    requires times != []
    ensures c < |times|
  {
    var n := |times| - 1;
    if n > 0 && Continues(spec, times[n - 1], times[n]) then ChainStart(spec, times[..n]) else n
  }

  /** The chain is unbroken, and cannot be made longer. */
  lemma {:induction false} ChainIs(spec: StreakSpec, times: seq<int>)
    requires times != []
    ensures var c := ChainStart(spec, times);
            && (forall i :: c < i < |times| ==> Continues(spec, times[i - 1], times[i]))
            && (c > 0 ==> !Continues(spec, times[c - 1], times[c]))
  {
    hide Continues;
    var n, c := |times| - 1, ChainStart(spec, times);
    if c >= n {
    } else {
      ChainIs(spec, times[..n]);
      forall i | c < i < |times| ensures Continues(spec, times[i - 1], times[i]) {
        if i < n { assert Continues(spec, times[..n][i - 1], times[..n][i]); }
      }
    }
  }

  /** The windows the actions fall in. */
  function Windows(window: TimeWindow, times: seq<int>): set<int> {
    set i | 0 <= i < |times| :: Mark(window, times[i])
  }

  lemma {:induction false} RunKey(spec: StreakSpec, times: seq<int>)
    requires times != []
    ensures Run(spec, times).lastKey == Some(Resolve(spec.window, times[|times| - 1]).key)
  {
    hide WindowDistance, PrevWindowEnd, Resolve;
    if |times| <= 1 {
    } else {
      RunKey(spec, times[..|times| - 1]);
    }
  }

  lemma RunStep(spec: StreakSpec, times: seq<int>)
    requires |times| > 1
    ensures var n := |times| - 1;
            var s, next, key := Run(spec, times[..n]), Run(spec, times), Resolve(spec.window, times[n]).key;
            next == if Mark(spec.window, times[n - 1]) == Mark(spec.window, times[n]) then s
                    else if Links(spec, times[n - 1], times[n]) then Extend(s, key)
                    else Restart(s, key)
  {
    hide Apply, Resolve, Mark, Links, Extend, Restart;
    var n := |times| - 1;
    RunKey(spec, times[..n]);
    StepIs(spec, Run(spec, times[..n]), times[n - 1], times[n]);
  }

  lemma MarkGrows(window: TimeWindow, t: int, u: int)
    requires t <= u
    ensures Mark(window, t) <= Mark(window, u)
  {
    hide ResolveFixed;
    if window.Fixed? {
      WindowContains(window.unit, t);
      WindowContains(window.unit, u);
      if ResolveFixed(window.unit, u).startsAt <= t { WindowShared(window.unit, u, t); }
    }
  }

  lemma NewWindow(window: TimeWindow, times: seq<int>, c: nat)
    requires Nondecreasing(times) && c + 1 < |times|
    ensures var n := |times| - 1;
            Mark(window, times[n - 1]) != Mark(window, times[n])
            ==> Mark(window, times[n]) !in Windows(window, times[c..n])
  {
    hide Mark;
    var n := |times| - 1;
    MarkGrows(window, times[n - 1], times[n]);
    forall i | 0 <= i < |times[c..n]| ensures Mark(window, times[c..n][i]) <= Mark(window, times[n - 1]) {
      MarkGrows(window, times[c + i], times[n - 1]);
    }
  }

  lemma WindowsLast(window: TimeWindow, times: seq<int>)
    requires times != []
    ensures var n := |times| - 1;
            Windows(window, times) == Windows(window, times[..n]) + {Mark(window, times[n])}
  {
    hide Mark;
    var n := |times| - 1;
    forall x | x in Windows(window, times) ensures x in Windows(window, times[..n]) + {Mark(window, times[n])} {
      var i :| 0 <= i < |times| && x == Mark(window, times[i]);
      if i < n { assert times[..n][i] == times[i]; }
    }
    forall x | x in Windows(window, times[..n]) ensures x in Windows(window, times) {
      var i :| 0 <= i < n && x == Mark(window, times[..n][i]);
      assert times[i] == times[..n][i];
    }
    assert Mark(window, times[n]) in Windows(window, times);
  }

  /** The current streak is the number of different windows in the chain that reaches the last action. */
  lemma {:induction false} CurrentCountsChain(spec: StreakSpec, times: seq<int>)
    requires Nondecreasing(times) && times != []
    ensures Run(spec, times).current == |Windows(spec.window, times[ChainStart(spec, times)..])|
  {
    hide Run, Mark, Links, Windows, Nondecreasing;
    var n, c := |times| - 1, ChainStart(spec, times);
    var chain := times[c..];
    WindowsLast(spec.window, chain);
    assert chain[..|chain| - 1] == times[c..n] && chain[|chain| - 1] == times[n];
    if n == 0 {
      FirstAction(spec, times);
      WindowsNone(spec.window);
    } else {
      RunStep(spec, times);
      PrefixNondecreasing(times);
      if c == n {
        WindowsNone(spec.window);
      } else {
        CurrentCountsChain(spec, times[..n]);
        assert ChainStart(spec, times[..n]) == c;
        assert times[..n][c..] == times[c..n];
        NewWindow(spec.window, times, c);
        LastWindow(spec.window, times, c);
        Insertion(Windows(spec.window, times[c..n]), Mark(spec.window, times[n]));
        assert Continues(spec, times[n - 1], times[n]);
      }
    }
  }

  lemma Insertion(s: set<int>, x: int)
    ensures |s + {x}| == if x in s then |s| else |s| + 1
  {
    if x in s { assert s + {x} == s; }
  }

  lemma FirstAction(spec: StreakSpec, times: seq<int>)
    requires |times| == 1
    ensures Run(spec, times) == Restart(EMPTY, Resolve(spec.window, times[0]).key)
  {
    assert Run(spec, times[..0]) == EMPTY;
  }

  lemma WindowsNone(window: TimeWindow)
    ensures Windows(window, []) == {}
  {
  }

  lemma PrefixNondecreasing(times: seq<int>)
    requires Nondecreasing(times) && times != []
    ensures Nondecreasing(times[..|times| - 1])
  {
  }

  lemma LastWindow(window: TimeWindow, times: seq<int>, c: nat)
    requires c < |times| - 1
    ensures Mark(window, times[|times| - 2]) in Windows(window, times[c..|times| - 1])
  {
    assert times[c..|times| - 1][|times| - 2 - c] == times[|times| - 2];
  }

  ghost predicate Greatest(spec: StreakSpec, times: seq<int>, best: int) {
    && (forall k :: 0 < k <= |times| ==> Run(spec, times[..k]).current <= best)
    && exists k :: 0 < k <= |times| && Run(spec, times[..k]).current == best
  }

  /** For every window, grace and order of times, `best` is the greatest value `current` ever had. */
  lemma {:induction false} BestIsGreatest(spec: StreakSpec, times: seq<int>)
    requires times != []
    ensures Run(spec, times).current >= 1 && Greatest(spec, times, Run(spec, times).best)
  {
    hide Run, Mark, Links, Resolve;
    var n := |times| - 1;
    assert times[..n + 1] == times;
    if n == 0 {
      FirstAction(spec, times);
    } else {
      BestIsGreatest(spec, times[..n]);
      RunStep(spec, times);
      forall k | 0 < k <= n ensures times[..n][..k] == times[..k] { }
      var k :| 0 < k <= n && Run(spec, times[..n][..k]).current == Run(spec, times[..n]).best;
      assert Run(spec, times[..k]).current == Run(spec, times[..n]).best;
    }
  }

  /** Streaks over weeks, months or years never break: they count windows with an action, gaps or not. */
  lemma LongWindowsNeverBreak(spec: StreakSpec, times: seq<int>)
    requires spec.window.Fixed? && (spec.window.unit.Week? || spec.window.unit.Month? || spec.window.unit.Year?)
    requires Nondecreasing(times) && times != []
    ensures Run(spec, times).current == |Windows(spec.window, times)|
  {
    hide Run, Mark, Windows;
    CurrentCountsChain(spec, times);
    ChainIs(spec, times);
    assert ChainStart(spec, times) == 0;
    assert times[0..] == times;
  }

  // ---- When a streak is the run of windows it is meant to be -----------------------------

  /** The same window or the next one. */
  predicate Near(unit: CalendarUnit, last: int, t: int) {
    var w := ResolveFixed(unit, last);
    ResolveFixed(unit, t).startsAt == w.startsAt || ResolveFixed(unit, t).startsAt == w.endsAt
  }

  /** Where the run of adjacent windows that ends at the last action begins. */
  function RunStart(unit: CalendarUnit, times: seq<int>): (a: nat)
    requires times != []
    ensures a < |times|
  {
    var n := |times| - 1;
    if n > 0 && Near(unit, times[n - 1], times[n]) then RunStart(unit, times[..n]) else n
  }

  lemma {:induction false} RunStartIs(unit: CalendarUnit, times: seq<int>)
    requires times != []
    ensures var a := RunStart(unit, times);
            && (forall i :: a < i < |times| ==> Near(unit, times[i - 1], times[i]))
            && (a > 0 ==> !Near(unit, times[a - 1], times[a]))
  {
    hide Near;
    var n, a := |times| - 1, RunStart(unit, times);
    if a >= n {
    } else {
      RunStartIs(unit, times[..n]);
      forall i | a < i < |times| ensures Near(unit, times[i - 1], times[i]) {
        if i < n { assert Near(unit, times[..n][i - 1], times[..n][i]); }
      }
    }
  }

  /** How many adjacent windows with an action end at the last action. */
  function RunOfWindows(unit: CalendarUnit, times: seq<int>): nat
    requires times != []
  {
    |Windows(Fixed(unit), times[RunStart(unit, times)..])|
  }

  /** A shorter end of the run that starts in a new window holds fewer windows. */
  lemma ShorterEnd(window: TimeWindow, times: seq<int>, a: nat, c: nat)
    requires Nondecreasing(times) && a < c < |times| && Mark(window, times[c - 1]) != Mark(window, times[c])
    ensures |Windows(window, times[c..])| < |Windows(window, times[a..])|
  {
    hide Mark;
    var short, long := Windows(window, times[c..]), Windows(window, times[a..]);
    forall x | x in short ensures x in long {
      var i :| 0 <= i < |times[c..]| && x == Mark(window, times[c..][i]);
      assert times[a..][c - a + i] == times[c..][i];
    }
    MarkGrows(window, times[a], times[c - 1]);
    MarkGrows(window, times[c - 1], times[c]);
    forall i | 0 <= i < |times[c..]| ensures Mark(window, times[c..][i]) > Mark(window, times[a]) {
      MarkGrows(window, times[c], times[c + i]);
    }
    assert times[a..][0] == times[a];
    assert Mark(window, times[a]) in long && Mark(window, times[a]) !in short;
    ProperSubset(short, long, Mark(window, times[a]));
  }

  lemma ProperSubset(short: set<int>, long: set<int>, x: int)
    requires short <= long && x in long && x !in short
    ensures |short| < |long|
  {
    var rest := long - short;
    assert long == short + rest && x in rest && |long| == |short| + |rest|;
  }

  lemma NearSameMark(unit: CalendarUnit, last: int, t: int)
    requires !Near(unit, last, t)
    ensures Mark(Fixed(unit), last) != Mark(Fixed(unit), t)
  {
    hide ResolveFixed;
  }

  /**
   * For every calendar unit and any grace: `current` is the run of adjacent windows exactly when every link of
   * its chain joins the same or adjacent windows, and the chain began after a real gap.
   */
  lemma StreakIsRunExactly(spec: StreakSpec, unit: CalendarUnit, times: seq<int>)
    requires spec.window == Fixed(unit) && Nondecreasing(times) && times != []
    ensures var c := ChainStart(spec, times);
            Run(spec, times).current == RunOfWindows(unit, times) <==>
              && (forall i :: c < i < |times| ==> Near(unit, times[i - 1], times[i]))
              && (c > 0 ==> !Near(unit, times[c - 1], times[c]))
  {
    hide Run, Near, Mark, Windows, ChainStart, RunStart;
    var a, c := RunStart(unit, times), ChainStart(spec, times);
    CurrentCountsChain(spec, times);
    ChainIs(spec, times);
    RunStartIs(unit, times);
    if a < c {
      assert !Continues(spec, times[c - 1], times[c]);
      ShorterEnd(spec.window, times, a, c);
    } else if c < a {
      NearSameMark(unit, times[a - 1], times[a]);
      ShorterEnd(spec.window, times, c, a);
    }
  }

  /** Two actions in weeks, months or years with a window missed between: counted two, though the run is one. */
  lemma MissedWindowCounts(spec: StreakSpec, unit: CalendarUnit, t: int, u: int)
    requires spec.window == Fixed(unit) && (unit.Week? || unit.Month? || unit.Year?)
    requires ResolveFixed(unit, t).endsAt < ResolveFixed(unit, u).startsAt
    ensures Run(spec, [t, u]).current == 2 && RunOfWindows(unit, [t, u]) == 1
  {
    hide ResolveFixed, Apply;
    var times := [t, u];
    WindowContains(unit, t);
    assert times[..1] == [t] && times[1..] == [u];
    FirstAction(spec, [t]);
    RunStep(spec, times);
    assert Windows(spec.window, [u]) == {Mark(spec.window, u)};
  }

  /** The last hour of a date and the first of the next: adjacent, counted one. */
  lemma MidnightBreaks(grace: int, day: int)
    ensures var t, u := day * DAY - 1, day * DAY;
            Run(StreakSpec(Fixed(Hour), grace), [t, u]).current == 1 && RunOfWindows(Hour, [t, u]) == 2
  {
    hide ResolveFixed, Apply;
    var spec, times, t, u := StreakSpec(Fixed(Hour), grace), [day * DAY - 1, day * DAY], day * DAY - 1, day * DAY;
    assert times[..1] == [t];
    AcrossMidnight(day);
    StartOf(Hour, t);
    StartOf(Hour, u);
    EndOf(Hour, t);
    FirstAction(spec, [t]);
    RunStep(spec, times);
    assert RunStart(Hour, times) == 0 && times[0..] == times by { assert RunStart(Hour, [t]) == 0; }
    assert times[0] == t && times[1] == u;
    assert Windows(spec.window, times) == {Mark(spec.window, t), Mark(spec.window, u)};
  }

  lemma AcrossMidnight(day: int)
    ensures (day * DAY - 1) / DAY == day - 1 && day * DAY / DAY == day
    ensures (day * DAY - 1) / 3600 == day * 24 - 1 && day * DAY / 3600 == day * 24
  {
    DayOf(day * DAY - 1, day - 1, DAY - 1);
    DayOf(day * DAY, day, 0);
    HourOf(day * DAY - 1, day * 24 - 1, 3599);
    HourOf(day * DAY, day * 24, 0);
  }

  /** A streak over hours counts the hours of the last date that had an action, gaps or not. */
  lemma HourStreakIsWithinTheDay(spec: StreakSpec, times: seq<int>) returns (c: nat)
    requires spec.window == Fixed(Hour) && Nondecreasing(times) && times != []
    ensures c < |times| && Run(spec, times).current == |Windows(spec.window, times[c..])|
    ensures forall i :: 0 <= i < |times| ==> (times[i] / DAY == times[|times| - 1] / DAY <==> c <= i)
  {
    hide Run, Windows, Mark;
    CurrentCountsChain(spec, times);
    c := ChainStart(spec, times);
    SameDayDown(spec, times, c, c);
    forall i | 0 <= i < |times| ensures times[i] / DAY == times[|times| - 1] / DAY <==> c <= i {
      if c <= i { SameDayDown(spec, times, c, i); } else { EarlierDayBefore(spec, times, c, i); }
    }
  }

  lemma HourContinues(spec: StreakSpec, last: int, t: int)
    requires spec.window == Fixed(Hour) && last <= t
    ensures Continues(spec, last, t) <==> last / DAY == t / DAY
  {
    hide ResolveFixed;
    StartOf(Hour, last);
    StartOf(Hour, t);
    HourInDay(last);
    HourInDay(t);
  }

  lemma HourInDay(t: int)
    ensures t / 3600 / 24 == t / DAY
  {
    var q, r := t / DAY, t % DAY;
    HourOf(t, 24 * q + r / 3600, r % 3600);
  }

  lemma {:induction false} SameDayDown(spec: StreakSpec, times: seq<int>, c: nat, i: nat)
    requires spec.window == Fixed(Hour) && Nondecreasing(times) && i < |times| && c == ChainStart(spec, times) <= i
    ensures times[i] / DAY == times[|times| - 1] / DAY
    decreases |times| - i
  {
    hide Continues, ChainStart;
    ChainIs(spec, times);
    if i + 1 >= |times| {
    } else {
      SameDayDown(spec, times, c, i + 1);
      HourContinues(spec, times[i], times[i + 1]);
      assert Continues(spec, times[i + 1 - 1], times[i + 1]);
    }
  }

  lemma EarlierDayBefore(spec: StreakSpec, times: seq<int>, c: nat, i: nat)
    requires spec.window == Fixed(Hour) && Nondecreasing(times) && times != [] && i < c == ChainStart(spec, times)
    ensures times[i] / DAY < times[c] / DAY
  {
    hide Continues, ChainStart;
    ChainIs(spec, times);
    HourContinues(spec, times[c - 1], times[c]);
    DayOrder(times[i], times[c - 1]);
    DayOrder(times[c - 1], times[c]);
  }

  lemma DayOrder(t: int, u: int)
    requires t <= u
    ensures t / DAY <= u / DAY
  {
  }

  // ---- Daily streaks ---------------------------------------------------------------------

  /** The calendar days on which an action happened. */
  function Days(times: seq<int>): set<int> {
    set i | 0 <= i < |times| :: times[i] / DAY
  }

  /** The `n` days up to `d` all had an action. */
  ghost predicate Consecutive(days: set<int>, d: int, n: int) {
    forall k :: d - n < k <= d ==> k in days
  }

  /** The run of consecutive days ending at `d` is `n` days long, no more and no less. */
  ghost predicate RunEnding(days: set<int>, d: int, n: int) {
    Consecutive(days, d, n) && d - n !in days
  }

  ghost predicate LongestRun(days: set<int>, n: int) {
    (exists d :: Consecutive(days, d, n) && d in days) && forall d, m :: Consecutive(days, d, m) ==> m <= n
  }

  lemma DayContinues(spec: StreakSpec, last: int, t: int)
    requires spec.window == Fixed(Day) && spec.graceSeconds < DAY
    ensures Mark(spec.window, last) == Mark(spec.window, t) <==> last / DAY == t / DAY
    ensures Links(spec, last, t) <==> t / DAY <= last / DAY + 1
  {
    hide ResolveFixed;
    StartOf(Day, last);
    StartOf(Day, t);
    if t / DAY == last / DAY + 2 { assert t >= (last / DAY + 2) * DAY; }
  }

  lemma DaysLast(times: seq<int>)
    requires Nondecreasing(times) && |times| > 1
    ensures var n := |times| - 1;
            && Days(times) == Days(times[..n]) + {times[n] / DAY}
            && times[n - 1] / DAY in Days(times[..n])
            && times[n - 1] / DAY <= times[n] / DAY
            && forall d :: d in Days(times[..n]) ==> d <= times[n - 1] / DAY
  {
    var n := |times| - 1;
    forall x | x in Days(times) ensures x in Days(times[..n]) + {times[n] / DAY} {
      var i :| 0 <= i < |times| && x == times[i] / DAY;
      if i < n { assert times[..n][i] == times[i]; }
    }
    forall x | x in Days(times[..n]) ensures x in Days(times) {
      var i :| 0 <= i < n && x == times[..n][i] / DAY;
      assert times[i] == times[..n][i];
    }
    assert times[..n][n - 1] == times[n - 1];
  }

  lemma RunsGrow(days: set<int>, last: int, day: int, current: int, best: int)
    requires last in days && (forall d :: d in days ==> d <= last) && last < day
    requires RunEnding(days, last, current) && LongestRun(days, best) && current >= 1
    ensures var next := if day == last + 1 then current + 1 else 1;
            RunEnding(days + {day}, day, next) && LongestRun(days + {day}, Max(best, next))
  {
    var next, all := if day == last + 1 then current + 1 else 1, days + {day};
    forall d, m | Consecutive(all, d, m) && m > 0 ensures m <= Max(best, next) {
      assert d in all;
      if d == day {
        assert day - next !in all;
        assert !(d - m < day - next <= d);
      } else {
        assert Consecutive(days, d, m);
      }
    }
    forall d, m | Consecutive(all, d, m) ensures m <= Max(best, next) { }
    assert Consecutive(all, day, next);
    var d :| Consecutive(days, d, best) && d in days;
    assert Consecutive(all, d, best) && d in all;
  }

  /** A daily streak is the run of consecutive days ending at the last action; `best` is the longest run ever. */
  lemma {:induction false} DailyStreak(spec: StreakSpec, times: seq<int>)
    requires spec.window == Fixed(Day) && spec.graceSeconds < DAY && Nondecreasing(times) && times != []
    ensures var s := Run(spec, times);
            s.current >= 1 && RunEnding(Days(times), times[|times| - 1] / DAY, s.current)
            && s.best >= 1 && LongestRun(Days(times), s.best)
  {
    hide Run, Mark, Links, RunEnding, LongestRun, Nondecreasing, Days, Resolve;
    var n := |times| - 1;
    if n == 0 {
      FirstAction(spec, times);
      FirstDay(times);
    } else {
      PrefixNondecreasing(times);
      DailyStreak(spec, times[..n]);
      RunStep(spec, times);
      DayContinues(spec, times[n - 1], times[n]);
      DaysLast(times);
      var days, s := Days(times[..n]), Run(spec, times[..n]);
      if times[n - 1] / DAY == times[n] / DAY {
        assert days + {times[n] / DAY} == days;
      } else {
        RunsGrow(days, times[n - 1] / DAY, times[n] / DAY, s.current, s.best);
      }
    }
  }

  lemma FirstDay(times: seq<int>)
    requires |times| == 1
    ensures RunEnding(Days(times), times[0] / DAY, 1) && LongestRun(Days(times), 1)
  {
    var d := times[0] / DAY;
    var days := Days(times);
    assert days == {d};
    assert Consecutive(days, d, 1) && d in days;
    forall e, m | Consecutive(days, e, m) ensures m <= 1 {
      assert !(e in days && e - 1 in days);
    }
  }

  // ---- Grace -----------------------------------------------------------------------------

  /** Grace of less than a day does nothing to a daily streak, whatever order actions come in. */
  lemma {:induction false} ShortGraceIsNone(grace: int, times: seq<int>)
    requires grace < DAY
    ensures Run(StreakSpec(Fixed(Day), grace), times) == Run(StreakSpec(Fixed(Day), 0), times)
  {
    hide Mark, Links, Apply;
    var spec, none := StreakSpec(Fixed(Day), grace), StreakSpec(Fixed(Day), 0);
    if |times| == 1 {
      FirstAction(spec, times);
      FirstAction(none, times);
    } else if |times| > 1 {
      hide Run;
      var n := |times| - 1;
      ShortGraceIsNone(grace, times[..n]);
      RunStep(spec, times);
      RunStep(none, times);
      DayContinues(spec, times[n - 1], times[n]);
      DayContinues(none, times[n - 1], times[n]);
    }
  }

  /** A day of grace or more forgives one missed day, after any run, exactly when the action comes early enough. */
  lemma LongGraceForgives(grace: int, times: seq<int>, t: int)
    requires grace >= DAY && times != [] && t / DAY == times[|times| - 1] / DAY + 2
    ensures var spec, last := StreakSpec(Fixed(Day), grace), times[|times| - 1];
            Run(spec, times + [t]).current
            == if t - (last / DAY + 1) * DAY <= grace then Run(spec, times).current + 1 else 1
  {
    hide Mark, Links, Apply, Run;
    var spec, all := StreakSpec(Fixed(Day), grace), times + [t];
    assert all[..|times|] == times;
    RunStep(spec, all);
    DaysApart(spec, times[|times| - 1], t);
  }

  lemma DaysApart(spec: StreakSpec, last: int, t: int)
    requires spec.window == Fixed(Day) && spec.graceSeconds >= DAY && t / DAY == last / DAY + 2
    ensures Mark(spec.window, last) != Mark(spec.window, t)
    ensures Links(spec, last, t) <==> t - (last / DAY + 1) * DAY <= spec.graceSeconds
  {
    hide ResolveFixed;
    StartOf(Day, last);
    StartOf(Day, t);
  }

  // ---- Rolling streaks -------------------------------------------------------------------

  /**
   * A rolling streak counts the seconds in the chain that reaches the last action. Two actions are chained by a
   * short gap, or because the earlier one's window began before 1970, when its key is not read back.
   */
  lemma RollingChain(spec: StreakSpec, seconds: int, times: seq<int>) returns (c: nat)
    requires spec.window == Rolling(seconds) && Nondecreasing(times) && times != []
    ensures c < |times| && Run(spec, times).current == |set i | c <= i < |times| :: times[i]|
    ensures forall i :: c < i < |times| ==>
              times[i - 1] < Length(seconds) || ShortGap(spec, seconds, times[i] - times[i - 1])
    ensures c > 0 ==> times[c - 1] >= Length(seconds) && !ShortGap(spec, seconds, times[c] - times[c - 1])
  {
    hide Run;
    CurrentCountsChain(spec, times);
    c := ChainStart(spec, times);
    ChainIs(spec, times);
    var seen := set i | c <= i < |times| :: times[i];
    assert Windows(spec.window, times[c..]) == seen by { SameSeconds(spec, seconds, times, c); }
    hide ChainStart;
    forall i | c < i < |times|
      ensures times[i - 1] < Length(seconds) || ShortGap(spec, seconds, times[i] - times[i - 1])
    {
      RollingContinues(spec, seconds, times[i - 1], times[i]);
    }
    if c > 0 { RollingContinues(spec, seconds, times[c - 1], times[c]); }
  }

  lemma RollingContinues(spec: StreakSpec, seconds: int, last: int, t: int)
    requires spec.window == Rolling(seconds) && last <= t
    ensures Continues(spec, last, t) <==> last < Length(seconds) || ShortGap(spec, seconds, t - last)
  {
  }

  /** Shorter than the window, or than twice the window and no longer than the grace. */
  predicate ShortGap(spec: StreakSpec, seconds: int, gap: int) {
    gap < Length(seconds) || (gap < 2 * Length(seconds) && gap <= spec.graceSeconds)
  }

  lemma SameSeconds(spec: StreakSpec, seconds: int, times: seq<int>, c: nat)
    requires spec.window == Rolling(seconds) && c <= |times|
    ensures Windows(spec.window, times[c..]) == set i | c <= i < |times| :: times[i]
  {
    var seen := set i | c <= i < |times| :: times[i];
    forall x | x in seen ensures x in Windows(spec.window, times[c..]) {
      var i :| c <= i < |times| && x == times[i];
      assert times[c..][i - c] == x;
    }
  }
}
