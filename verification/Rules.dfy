/** Rule throttling: cooldowns and daily caps, over events in any time order. */
module Rules {
  import opened TimeWindows

  datatype RuleDef = RuleDef(id: string, priority: int, eventType: string, cooldown: int, cap: int, active: bool)

  /** `holds` are the rules whose condition is true of the event in its context. */
  datatype Event = Event(kind: string, at: int, holds: set<string>)

  datatype State = State(lastFired: map<string, int>, fireCounts: map<string, map<Key, int>>)

  const EMPTY := State(map[], map[])

  function DayOfEvent(t: int): Key { Resolve(Fixed(Day), t).key }

  // ---- The counters ----------------------------------------------------------------------

  function Used(s: State, id: string, key: Key): int {
    if id in s.fireCounts && key in s.fireCounts[id] then s.fireCounts[id][key] else 0
  }

  predicate Cooling(s: State, rule: RuleDef, now: int) {
    rule.cooldown > 0 && rule.id in s.lastFired && now - s.lastFired[rule.id] < rule.cooldown
  }

  predicate Capped(s: State, rule: RuleDef, key: Key) { rule.cap > 0 && Used(s, rule.id, key) >= rule.cap }

  function Counts(s: State, id: string): map<Key, int> {
    if id in s.fireCounts then s.fireCounts[id] else map[]
  }

  function Fire(s: State, id: string, now: int, key: Key): State {
    State(s.lastFired[id := now], s.fireCounts[id := Counts(s, id)[key := Used(s, id, key) + 1]])
  }

  predicate Matches(rule: RuleDef, kind: string) { rule.active && (rule.eventType == "*" || rule.eventType == kind) }

  /** The rule passes its cooldown and its cap and its condition holds. */
  predicate Allowed(s: State, rule: RuleDef, event: Event) {
    !Cooling(s, rule, event.at) && !Capped(s, rule, DayOfEvent(event.at)) && rule.id in event.holds
  }

  // ---- Candidates in priority order ------------------------------------------------------

  function Candidates(rules: seq<RuleDef>, kind: string): seq<RuleDef> {
    if rules == [] then []
    else Candidates(rules[..|rules| - 1], kind)
         + if Matches(rules[|rules| - 1], kind) then [rules[|rules| - 1]] else []
  }

  /** After the rules of the same priority: the sort is stable. */
  function Insert(rules: seq<RuleDef>, r: RuleDef): seq<RuleDef> {
    if rules == [] || rules[|rules| - 1].priority >= r.priority then rules + [r]
    else Insert(rules[..|rules| - 1], r) + [rules[|rules| - 1]]
  }

  function ByPriority(rules: seq<RuleDef>): seq<RuleDef> {
    if rules == [] then [] else Insert(ByPriority(rules[..|rules| - 1]), rules[|rules| - 1])
  }

  datatype Effects = Effects(state: State, matched: seq<string>)

  function Consider(rule: RuleDef, before: Effects, event: Event): Effects {
    if Allowed(before.state, rule, event) then
      Effects(Fire(before.state, rule.id, event.at, DayOfEvent(event.at)), before.matched + [rule.id])
    else before
  }

  function ConsiderAll(rules: seq<RuleDef>, s: State, event: Event): Effects {
    if rules == [] then Effects(s, [])
    else Consider(rules[|rules| - 1], ConsiderAll(rules[..|rules| - 1], s, event), event)
  }

  function Process(rules: seq<RuleDef>, s: State, event: Event): Effects {
    ConsiderAll(ByPriority(Candidates(rules, event.kind)), s, event)
  }

  class RuleState {
    var lastFired: map<string, int>
    var fireCounts: map<string, map<Key, int>>

    constructor ()
      ensures Value() == EMPTY
    {
      lastFired, fireCounts := map[], map[];
    }

    function Value(): State
      reads this
    {
      State(lastFired, fireCounts)
    }

    method CooldownActive(rule: RuleDef, now: int) returns (active: bool)
      ensures active == Cooling(Value(), rule, now)
    {
      if rule.cooldown <= 0 { return false; }
      active := rule.id in lastFired && now - lastFired[rule.id] < rule.cooldown;
    }

    method FrequencyCapped(rule: RuleDef, key: Key) returns (capped: bool)
      ensures capped == Capped(Value(), rule, key)
    {
      if rule.cap <= 0 { return false; }
      var used := 0;
      if rule.id in fireCounts {
        var counts := fireCounts[rule.id];
        if key in counts { used := counts[key]; }
      }
      capped := used >= rule.cap;
    }

    method RecordFire(id: string, now: int, key: Key)
      modifies this
      ensures Value() == Fire(old(Value()), id, now, key)
    {
      lastFired := lastFired[id := now];
      var counts := if id in fireCounts then fireCounts[id] else map[];
      var count := if key in counts then counts[key] + 1 else 1;
      fireCounts := fireCounts[id := counts[key := count]];
    }

    method ProcessRules(rules: seq<RuleDef>, event: Event) returns (matched: seq<string>)
      modifies this
      ensures Effects(Value(), matched) == Process(rules, old(Value()), event)
    {
      var todo := ByPriority(Candidates(rules, event.kind));
      var key := DayOfEvent(event.at);
      matched := [];
      for k := 0 to |todo|
        invariant Effects(Value(), matched) == ConsiderAll(todo[..k], old(Value()), event)
      {
        hide Fire, Cooling, Capped;
        assert todo[..k + 1][..k] == todo[..k];
        var rule := todo[k];
        var cooling := CooldownActive(rule, event.at);
        if cooling { continue; }
        var capped := FrequencyCapped(rule, key);
        if capped { continue; }
        if rule.id !in event.holds { continue; }
        matched := matched + [rule.id];
        RecordFire(rule.id, event.at, key);
      }
      assert todo[..|todo|] == todo;
    }
  }

  // ---- Each rule on its own --------------------------------------------------------------

  ghost predicate DistinctIds(rules: seq<RuleDef>) {
    forall i, j :: 0 <= i < j < |rules| ==> rules[i].id != rules[j].id
  }

  ghost predicate Ordered(rules: seq<RuleDef>) {
    forall i, j :: 0 <= i < j < |rules| ==> rules[i].priority >= rules[j].priority
  }

  lemma {:induction false} CandidatesAre(rules: seq<RuleDef>, kind: string)
    ensures forall r :: r in Candidates(rules, kind) <==> r in rules && Matches(r, kind)
    ensures DistinctIds(rules) ==> DistinctIds(Candidates(rules, kind))
  {
    hide Matches;
    if rules == [] {
    } else {
      var n := |rules| - 1;
      CandidatesAre(rules[..n], kind);
      assert rules == rules[..n] + [rules[n]];
      var front := Candidates(rules[..n], kind);
      if DistinctIds(rules) {
        forall i | 0 <= i < |front| ensures front[i].id != rules[n].id {
          assert front[i] in rules[..n];
        }
      }
    }
  }

  lemma {:induction false} InsertMembers(rules: seq<RuleDef>, r: RuleDef)
    ensures multiset(Insert(rules, r)) == multiset(rules) + multiset{r}
    ensures forall x :: x in Insert(rules, r) <==> x in rules || x == r
  {
    if rules == [] {
    } else {
      var n := |rules| - 1;
      assert rules == rules[..n] + [rules[n]];
      if rules[n].priority < r.priority { InsertMembers(rules[..n], r); }
    }
  }

  lemma {:induction false} InsertOrdered(rules: seq<RuleDef>, r: RuleDef)
    requires Ordered(rules)
    ensures Ordered(Insert(rules, r))
  {
    if rules == [] {
    } else {
      var n := |rules| - 1;
      if rules[n].priority < r.priority {
        InsertOrdered(rules[..n], r);
        InsertMembers(rules[..n], r);
        forall x | x in Insert(rules[..n], r) ensures x.priority >= rules[n].priority { }
      }
    }
  }

  lemma {:induction false} InsertDistinct(rules: seq<RuleDef>, r: RuleDef)
    requires DistinctIds(rules) && forall x :: x in rules ==> x.id != r.id
    ensures DistinctIds(Insert(rules, r))
  {
    if rules == [] {
    } else {
      var n := |rules| - 1;
      if rules[n].priority < r.priority {
        InsertDistinct(rules[..n], r);
        InsertMembers(rules[..n], r);
        forall x | x in Insert(rules[..n], r) ensures x.id != rules[n].id { assert x in rules[..n] || x == r; }
      }
    }
  }

  /** Candidates are considered highest priority first, each once. */
  lemma {:induction false} ByPriorityIs(rules: seq<RuleDef>)
    ensures Ordered(ByPriority(rules)) && multiset(ByPriority(rules)) == multiset(rules)
    ensures forall x :: x in ByPriority(rules) <==> x in rules
  {
    hide Ordered, Insert;
    if rules == [] {
      NoneOrdered();
    } else {
      var n := |rules| - 1;
      ByPriorityIs(rules[..n]);
      InsertOrdered(ByPriority(rules[..n]), rules[n]);
      InsertMembers(ByPriority(rules[..n]), rules[n]);
      assert rules == rules[..n] + [rules[n]];
    }
  }

  lemma {:induction false} ByPriorityDistinct(rules: seq<RuleDef>)
    requires DistinctIds(rules)
    ensures DistinctIds(ByPriority(rules))
  {
    hide Insert;
    if rules == [] {
    } else {
      var n := |rules| - 1;
      ByPriorityDistinct(rules[..n]);
      ByPriorityIs(rules[..n]);
      forall x | x in ByPriority(rules[..n]) ensures x.id != rules[n].id { assert x in rules[..n]; }
      InsertDistinct(ByPriority(rules[..n]), rules[n]);
    }
  }

  lemma NoneOrdered()
    ensures Ordered([])
  {
  }

  /** What the state says of one rule. */
  predicate SameFor(s: State, t: State, id: string) {
    (id in s.lastFired <==> id in t.lastFired) && (id in s.lastFired ==> s.lastFired[id] == t.lastFired[id])
    && Counts(s, id) == Counts(t, id)
  }

  lemma {:induction false} OthersUntouched(rules: seq<RuleDef>, s: State, event: Event, id: string)
    requires forall r :: r in rules ==> r.id != id
    ensures SameFor(s, ConsiderAll(rules, s, event).state, id) && id !in ConsiderAll(rules, s, event).matched
  {
    hide Cooling, Capped;
    if rules == [] {
    } else {
      OthersUntouched(rules[..|rules| - 1], s, event, id);
    }
  }

  lemma AllowedLocal(s: State, t: State, rule: RuleDef, event: Event)
    requires SameFor(s, t, rule.id)
    ensures Allowed(s, rule, event) == Allowed(t, rule, event)
    ensures var day := DayOfEvent(event.at);
            SameFor(Fire(s, rule.id, event.at, day), Fire(t, rule.id, event.at, day), rule.id)
  {
    hide Resolve;
  }

  lemma SameForTrans(a: State, b: State, c: State, id: string)
    requires SameFor(a, b, id) && SameFor(b, c, id)
    ensures SameFor(a, c, id) && SameFor(b, a, id)
  {
  }

  /** One pass decides each candidate by its own counters. */
  lemma {:induction false} PassDecides(rules: seq<RuleDef>, s: State, event: Event, rule: RuleDef)
    requires DistinctIds(rules) && rule in rules
    ensures var r := ConsiderAll(rules, s, event);
            (rule.id in r.matched <==> Allowed(s, rule, event))
            && SameFor(r.state,
                       if Allowed(s, rule, event) then Fire(s, rule.id, event.at, DayOfEvent(event.at)) else s, rule.id)
  {
    hide SameFor, Allowed, Fire;
    var n := |rules| - 1;
    var before := ConsiderAll(rules[..n], s, event);
    if rules[n] == rule {
      forall r | r in rules[..n] ensures r.id != rule.id { }
      OthersUntouched(rules[..n], s, event, rule.id);
      AllowedLocal(s, before.state, rule, event);
      SameRefl(s, rule.id);
      SameForTrans(s, before.state, s, rule.id) by { SameSym(s, before.state, rule.id); }
      if Allowed(s, rule, event) {
        var key := DayOfEvent(event.at);
        SameSym(Fire(s, rule.id, event.at, key), Fire(before.state, rule.id, event.at, key), rule.id);
      }
    } else {
      assert rule in rules[..n];
      PassDecides(rules[..n], s, event, rule);
      assert rules[n].id != rule.id;
      FireElsewhere(before.state, rules[n].id, event, rule.id);
      if Allowed(before.state, rules[n], event) {
        var goal := if Allowed(s, rule, event) then Fire(s, rule.id, event.at, DayOfEvent(event.at)) else s;
        SameForTrans(Fire(before.state, rules[n].id, event.at, DayOfEvent(event.at)), before.state, goal, rule.id);
      }
    }
  }

  lemma SameRefl(s: State, id: string)
    ensures SameFor(s, s, id)
  {
  }

  lemma SameSym(s: State, t: State, id: string)
    requires SameFor(s, t, id)
    ensures SameFor(t, s, id)
  {
  }

  lemma FireElsewhere(s: State, fired: string, event: Event, id: string)
    requires fired != id
    ensures SameFor(Fire(s, fired, event.at, DayOfEvent(event.at)), s, id)
  {
    hide Resolve;
  }

  // ---- Runs ------------------------------------------------------------------------------

  function Run(rules: seq<RuleDef>, events: seq<Event>): State {
    if events == [] then EMPTY else Process(rules, Run(rules, events[..|events| - 1]), events[|events| - 1]).state
  }

  function MatchedLast(rules: seq<RuleDef>, events: seq<Event>): seq<string>
    requires events != []
  {
    Process(rules, Run(rules, events[..|events| - 1]), events[|events| - 1]).matched
  }

  /** The times at which the rule fired. */
  function Fires(rules: seq<RuleDef>, id: string, events: seq<Event>): seq<int> {
    if events == [] then []
    else Fires(rules, id, events[..|events| - 1])
         + if id in MatchedLast(rules, events) then [events[|events| - 1].at] else []
  }

  function OnDay(times: seq<int>, day: int): nat {
    if times == [] then 0
    else OnDay(times[..|times| - 1], day) + if times[|times| - 1] / DAY == day then 1 else 0
  }

  /** May a rule that fired at `fires` fire for this event? Said without the stored counters. */
  predicate MayFire(rule: RuleDef, fires: seq<int>, event: Event) {
    && (rule.cooldown > 0 && fires != [] ==> event.at >= fires[|fires| - 1] + rule.cooldown)
    && (rule.cap > 0 ==> OnDay(fires, event.at / DAY) < rule.cap)
    && rule.id in event.holds
  }

  /** The stored counters say what really happened. */
  ghost predicate Truthful(s: State, id: string, fires: seq<int>) {
    && (id in s.lastFired <==> fires != [])
    && (fires != [] ==> s.lastFired[id] == fires[|fires| - 1])
    && forall t {:trigger DayOfEvent(t)} :: Used(s, id, DayOfEvent(t)) == OnDay(fires, t / DAY)
  }

  lemma DayKeys(t: int, u: int)
    ensures DayOfEvent(t) == DayOfEvent(u) <==> t / DAY == u / DAY
  {
    hide ResolveFixed;
    StartOf(Day, t);
    StartOf(Day, u);
    if t / DAY == u / DAY { StartDecides(Day, t, u); }
    if DayOfEvent(t) == DayOfEvent(u) { KeyDecides(Day, t, u); }
  }

  /** One event for one rule of the configuration. */
  lemma ProcessDecides(rules: seq<RuleDef>, s: State, event: Event, rule: RuleDef)
    requires DistinctIds(rules) && rule in rules
    ensures var r, may := Process(rules, s, event), Matches(rule, event.kind) && Allowed(s, rule, event);
            (rule.id in r.matched <==> may)
            && SameFor(r.state, if may then Fire(s, rule.id, event.at, DayOfEvent(event.at)) else s, rule.id)
  {
    hide SameFor, Allowed, Fire, Matches, DistinctIds;
    var todo := Candidates(rules, event.kind);
    CandidatesAre(rules, event.kind);
    ByPriorityIs(todo);
    ByPriorityDistinct(todo);
    if Matches(rule, event.kind) {
      PassDecides(ByPriority(todo), s, event, rule);
    } else {
      forall r | r in ByPriority(todo) ensures r.id != rule.id { SameId(rules, r, rule); }
      OthersUntouched(ByPriority(todo), s, event, rule.id);
      SameSym(s, Process(rules, s, event).state, rule.id);
    }
  }

  lemma SameId(rules: seq<RuleDef>, a: RuleDef, b: RuleDef)
    requires DistinctIds(rules) && a in rules && b in rules
    ensures a.id == b.id ==> a == b
  {
  }

  lemma TruthfulSame(s: State, t: State, id: string, fires: seq<int>)
    requires Truthful(s, id, fires) && SameFor(t, s, id)
    ensures Truthful(t, id, fires)
  {
    hide DayOfEvent;
    forall k ensures Used(t, id, k) == Used(s, id, k) { UsedIs(s, id, k); UsedIs(t, id, k); }
  }

  lemma UsedIs(s: State, id: string, key: Key)
    ensures Used(s, id, key) == if key in Counts(s, id) then Counts(s, id)[key] else 0
  {
  }

  lemma TruthfulFire(s: State, id: string, fires: seq<int>, now: int)
    requires Truthful(s, id, fires)
    ensures Truthful(Fire(s, id, now, DayOfEvent(now)), id, fires + [now])
  {
    hide DayOfEvent;
    var key, next := DayOfEvent(now), Fire(s, id, now, DayOfEvent(now));
    assert (fires + [now])[..|fires|] == fires;
    forall t ensures Used(next, id, DayOfEvent(t)) == OnDay(fires + [now], t / DAY) {
      DayKeys(now, t);
      assert Used(next, id, DayOfEvent(t)) == Used(s, id, DayOfEvent(t)) + if DayOfEvent(t) == key then 1 else 0;
    }
  }

  lemma AllowedIsMayFire(s: State, rule: RuleDef, fires: seq<int>, event: Event)
    requires Truthful(s, rule.id, fires)
    ensures Allowed(s, rule, event) <==> MayFire(rule, fires, event)
  {
    hide DayOfEvent, OnDay;
  }

  /** Whatever the order of events, the stored last fire and daily counts of every rule are the true ones. */
  lemma {:induction false} CountersTrue(rules: seq<RuleDef>, rule: RuleDef, events: seq<Event>)
    requires DistinctIds(rules) && rule in rules
    ensures Truthful(Run(rules, events), rule.id, Fires(rules, rule.id, events))
  {
    hide Truthful, SameFor, Process, Fire, Allowed, DistinctIds, Matches;
    if events == [] {
      NothingFired(rule.id);
    } else {
      var n := |events| - 1;
      CountersTrue(rules, rule, events[..n]);
      var s, fires, event := Run(rules, events[..n]), Fires(rules, rule.id, events[..n]), events[n];
      ProcessDecides(rules, s, event, rule);
      if Matches(rule, event.kind) && Allowed(s, rule, event) {
        TruthfulFire(s, rule.id, fires, event.at);
        TruthfulSame(Fire(s, rule.id, event.at, DayOfEvent(event.at)), Run(rules, events), rule.id, fires + [event.at]);
      } else {
        TruthfulSame(s, Run(rules, events), rule.id, fires);
        assert Fires(rules, rule.id, events) == fires;
      }
    }
  }

  lemma NothingFired(id: string)
    ensures Truthful(EMPTY, id, [])
  {
  }

  /** A rule fires exactly when it is for this kind of event and its own past fires leave room. */
  lemma FiresExactly(rules: seq<RuleDef>, rule: RuleDef, events: seq<Event>)
    requires DistinctIds(rules) && rule in rules && events != []
    ensures var n := |events| - 1;
            rule.id in MatchedLast(rules, events) <==>
            && rule.active && (rule.eventType == "*" || rule.eventType == events[n].kind)
            && MayFire(rule, Fires(rules, rule.id, events[..n]), events[n])
  {
    hide Truthful, SameFor, Process, Fire, Allowed, DistinctIds, MayFire;
    var n := |events| - 1;
    CountersTrue(rules, rule, events[..n]);
    ProcessDecides(rules, Run(rules, events[..n]), events[n], rule);
    AllowedIsMayFire(Run(rules, events[..n]), rule, Fires(rules, rule.id, events[..n]), events[n]);
  }

  lemma {:induction false} NoFireOnDay(rules: seq<RuleDef>, id: string, events: seq<Event>, day: int)
    requires forall e :: e in events ==> e.at / DAY != day
    ensures OnDay(Fires(rules, id, events), day) == 0
  {
    hide MatchedLast;
    if events == [] {
    } else {
      var n := |events| - 1;
      NoFireOnDay(rules, id, events[..n], day);
      var fires := Fires(rules, id, events[..n]);
      assert Fires(rules, id, events) == fires || Fires(rules, id, events) == fires + [events[n].at];
      assert (fires + [events[n].at])[..|fires|] == fires;
    }
  }

  /** Only the UTC day counts against the cap: on a day without earlier events, no past fire holds a rule back. */
  lemma CapRestartsEachDay(rules: seq<RuleDef>, rule: RuleDef, events: seq<Event>)
    requires DistinctIds(rules) && rule in rules && events != [] && rule.cooldown <= 0
    requires forall i :: 0 <= i < |events| - 1 ==> events[i].at / DAY != events[|events| - 1].at / DAY
    ensures var event := events[|events| - 1];
            rule.id in MatchedLast(rules, events) <==>
            rule.active && (rule.eventType == "*" || rule.eventType == event.kind) && rule.id in event.holds
  {
    hide MatchedLast, DistinctIds, Fires, OnDay;
    var n := |events| - 1;
    FiresExactly(rules, rule, events);
    NoFireOnDay(rules, rule.id, events[..n], events[n].at / DAY);
  }

  ghost predicate Spaced(times: seq<int>, gap: int) {
    forall i :: 0 < i < |times| ==> times[i] >= times[i - 1] + gap
  }

  /** Fires of a rule are a cooldown apart and no day has more of them than its cap. */
  lemma {:induction false} FiresThrottled(rules: seq<RuleDef>, rule: RuleDef, events: seq<Event>)
    requires DistinctIds(rules) && rule in rules
    ensures rule.cooldown > 0 ==> Spaced(Fires(rules, rule.id, events), rule.cooldown)
    ensures rule.cap > 0 ==> forall day :: OnDay(Fires(rules, rule.id, events), day) <= rule.cap
  {
    hide Process, DistinctIds, Matches, MatchedLast;
    if events == [] {
    } else {
      var n := |events| - 1;
      FiresThrottled(rules, rule, events[..n]);
      FiresExactly(rules, rule, events);
      var fires := Fires(rules, rule.id, events[..n]);
      if rule.id in MatchedLast(rules, events) {
        assert Fires(rules, rule.id, events) == fires + [events[n].at];
        assert (fires + [events[n].at])[..|fires|] == fires;
      } else {
        assert Fires(rules, rule.id, events) == fires;
      }
    }
  }

  /** Fires that are a cooldown apart spread out: the k-th after one comes k cooldowns later. */
  lemma {:induction false} SpacedFar(times: seq<int>, gap: int, i: nat, j: nat)
    requires Spaced(times, gap) && gap > 0 && i <= j < |times|
    ensures times[j] >= times[i] + (j - i) * gap
    decreases j - i
  {
    if i >= j {
    } else {
      SpacedFar(times, gap, i, j - 1);
    }
  }

  function Within(times: seq<int>, lo: int, hi: int): nat {
    if times == [] then 0
    else Within(times[..|times| - 1], lo, hi) + if lo <= times[|times| - 1] <= hi then 1 else 0
  }

  /** The positions of the times inside an interval. */
  ghost function Inside(times: seq<int>, lo: int, hi: int): set<int> {
    set i | 0 <= i < |times| && lo <= times[i] <= hi
  }

  lemma InsideLast(times: seq<int>, lo: int, hi: int)
    requires times != []
    ensures var n := |times| - 1;
            && n !in Inside(times[..n], lo, hi)
            && Inside(times, lo, hi) == Inside(times[..n], lo, hi) + if lo <= times[n] <= hi then {n} else {}
  {
    var n := |times| - 1;
    forall i
      ensures i in Inside(times, lo, hi) <==> i in Inside(times[..n], lo, hi) || (i == n && lo <= times[n] <= hi)
    {
      if 0 <= i < n { assert times[..n][i] == times[i]; }
    }
  }

  lemma {:induction false} WithinIs(times: seq<int>, lo: int, hi: int)
    ensures Within(times, lo, hi) == |Inside(times, lo, hi)|
  {
    if times == [] {
    } else {
      InsideLast(times, lo, hi);
      WithinIs(times[..|times| - 1], lo, hi);
      hide Inside;
    }
  }

  /** The most spaced times an interval of this length has room for. */
  function Slots(length: int, gap: int): int
    requires gap > 0
  {
    1 + length / gap
  }

  lemma {:induction false} SpacedSlots(times: seq<int>, gap: int, lo: int, hi: int)
    requires Spaced(times, gap) && gap > 0 && lo <= hi
    ensures Within(times, lo, hi) <= Slots(hi - lo, gap)
  {
    hide Slots;
    if times == [] {
      SlotForOne(hi - lo, gap);
    } else {
      var n := |times| - 1;
      var t := times[n];
      SpacedSlots(times[..n], gap, lo, hi);
      if lo <= t <= hi {
        if t - gap >= lo {
          SpacedSlots(times[..n], gap, lo, t - gap);
          WithinBelow(times[..n], lo, hi, t - gap, gap);
          OneGapMore(t - lo, hi - lo, gap);
        } else {
          WithinNone(times[..n], gap, lo, hi, t);
          SlotForOne(hi - lo, gap);
        }
      }
    }
  }

  lemma SlotForOne(length: int, gap: int)
    requires length >= 0 && gap > 0
    ensures Slots(length, gap) >= 1
  {
    AtLeast(length, 0, gap);
  }

  /** Spaced times inside an interval number at most one more than the gaps that fit into it. */
  lemma SpacedWithin(times: seq<int>, gap: int, lo: int, hi: int)
    requires Spaced(times, gap) && gap > 0 && lo <= hi
    ensures Within(times, lo, hi) <= 1 + (hi - lo) / gap
  {
    SpacedSlots(times, gap, lo, hi);
  }

  lemma OneGapMore(a: int, b: int, gap: int)
    requires 0 < gap <= a <= b
    ensures Slots(a - gap, gap) + 1 <= Slots(b, gap)
  {
    var p := (a - gap) / gap;
    assert p * gap <= a - gap;
    AtLeast(b, p + 1, gap);
  }

  lemma AtLeast(b: int, k: int, gap: int)
    requires gap > 0 && k * gap <= b
    ensures k <= b / gap
  {
    var q := b / gap;
    assert b < q * gap + gap;
    if q < k { TimesGrow(q + 1, k, gap); }
  }

  lemma TimesGrow(a: int, b: int, gap: int)
    requires a <= b && gap > 0
    ensures a * gap <= b * gap
  {
  }

  lemma {:induction false} WithinBelow(times: seq<int>, lo: int, hi: int, top: int, gap: int)
    requires Spaced(times, gap) && gap > 0 && top <= hi
    requires times != [] ==> times[|times| - 1] <= top
    ensures Within(times, lo, hi) == Within(times, lo, top)
  {
    if times == [] {
    } else {
      WithinBelow(times[..|times| - 1], lo, hi, top, gap);
    }
  }

  lemma {:induction false} WithinNone(times: seq<int>, gap: int, lo: int, hi: int, t: int)
    requires Spaced(times, gap) && gap > 0 && t - gap < lo
    requires times != [] ==> times[|times| - 1] + gap <= t
    ensures Within(times, lo, hi) == 0
  {
    if times == [] {
    } else {
      WithinNone(times[..|times| - 1], gap, lo, hi, t);
    }
  }

  /** Any interval of length `length` holds at most 1 + length / cooldown fires. */
  lemma FireRate(rules: seq<RuleDef>, rule: RuleDef, events: seq<Event>, from: int, length: int)
    requires DistinctIds(rules) && rule in rules && rule.cooldown > 0 && length >= 0
    ensures |Inside(Fires(rules, rule.id, events), from, from + length)| <= 1 + length / rule.cooldown
  {
    WithinIs(Fires(rules, rule.id, events), from, from + length);
    hide Fires, Within, Spaced, OnDay, DistinctIds;
    FiresThrottled(rules, rule, events);
    SpacedWithin(Fires(rules, rule.id, events), rule.cooldown, from, from + length);
    assert from + length - from == length;
  }
}
