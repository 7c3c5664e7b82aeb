/** Windowed challenges: progress, completion, reward commands and reward grants. */
module Challenge {
  import opened Common
  import opened TimeWindows
  import Streak

  datatype RewardKind = Xp | Currency | Item | Entitlement

  datatype Reward = Reward(kind: RewardKind, target: string, amount: int)

  datatype ChallengeSpec = ChallengeSpec(
    id: string, triggered: bool, progressType: string, target: int, window: Option<TimeWindow>,
    rewards: seq<Reward>, active: bool)

  datatype Status = Available | InProgress | Completed

  /** A challenge without a window has one window for ever. */
  datatype WindowKey = Ever | In(key: Key)

  /** The identity of one reward grant: the window and the position of the reward. */
  datatype Grant = Grant(key: WindowKey, index: nat)

  datatype Progress = Progress(
    progress: int, target: int, status: Status, key: WindowKey, completions: int, granted: seq<Grant>)

  datatype Outcome = Outcome(
    progressBefore: int, progressAfter: int, statusBefore: Status, statusAfter: Status, completed: bool,
    grants: seq<Grant>, key: WindowKey)

  datatype Event = Event(id: string, kind: string, at: int)

  /** What a reward command does to its actor. */
  datatype Effect =
    | AwardXp(track: string, amount: int)
    | AddCurrency(currency: string, amount: int)
    | GrantItem(item: string, quantity: int)
    | GrantEntitlement(entitlement: string, seconds: int)

  datatype RewardCommand = RewardCommand(challenge: string, event: string, index: nat, effect: Effect)

  function KeyFor(spec: ChallengeSpec, t: int): WindowKey {
    if spec.window.None? then Ever else In(Resolve(spec.window.value, t).key)
  }

  predicate Qualifies(spec: ChallengeSpec, event: Event) {
    spec.active && spec.progressType != "" && spec.progressType == event.kind
  }

  // ---- One progression -------------------------------------------------------------------

  function Initial(spec: ChallengeSpec, key: WindowKey): Progress {
    Progress(0, spec.target, if spec.triggered then Available else InProgress, key, 0, [])
  }

  /** A new window starts over, counting the old one if it was completed. */
  function RollOver(p: Progress, key: WindowKey): Progress {
    if p.key == key then p
    else Progress(0, p.target, InProgress, key, p.completions + (if p.status.Completed? then 1 else 0), [])
  }

  /** The grants of rewards `i..` that were not made before, in order. */
  function NewGrants(key: WindowKey, i: nat, n: nat, granted: seq<Grant>): seq<Grant>
    requires i <= n
    decreases n - i
  {
    if i == n then []
    else if Grant(key, i) in granted then NewGrants(key, i + 1, n, granted)
    else [Grant(key, i)] + NewGrants(key, i + 1, n, granted + [Grant(key, i)])
  }

  lemma GrantStep(key: WindowKey, i: nat, n: nat, granted: seq<Grant>, before: seq<Grant>)
    requires i < n
    ensures var grant := Grant(key, i);
            before + NewGrants(key, i, n, granted)
            == if grant in granted then before + NewGrants(key, i + 1, n, granted)
               else (before + [grant]) + NewGrants(key, i + 1, n, granted + [grant])
  {
    var grant := Grant(key, i);
    if grant !in granted {
      var rest := NewGrants(key, i + 1, n, granted + [grant]);
      assert NewGrants(key, i, n, granted) == [grant] + rest;
      hide NewGrants;
      assert before + ([grant] + rest) == (before + [grant]) + rest;
    }
  }

  function Advance(spec: ChallengeSpec, p: Progress, delta: int): Progress {
    if spec.target > 0 && p.progress + delta >= spec.target then
      p.(progress := spec.target, status := Completed,
         granted := p.granted + NewGrants(p.key, 0, |spec.rewards|, p.granted))
    else
      p.(progress := p.progress + delta, status := InProgress)
  }

  function ApplyProgress(
      spec: ChallengeSpec, entry: Option<Progress>, delta: int, key: WindowKey): (Progress, Outcome)
  {
    var found := if entry.Some? then entry.value else Initial(spec, key);
    var rolled := RollOver(found, key);
    if rolled.status.Completed? then
      (rolled, Outcome(found.progress, rolled.progress, found.status, rolled.status, false, [], key))
    else
      var next := Advance(spec, rolled, delta);
      (next, Outcome(found.progress, next.progress, found.status, next.status, next.status.Completed?,
                     next.granted[|rolled.granted|..], key))
  }

  function Lookup(m: map<string, Progress>, id: string): Option<Progress> { if id in m then Some(m[id]) else None }

  function EffectOf(r: Reward): Effect {
    match r.kind
    case Xp => AwardXp(if r.target == "" then "default" else r.target, r.amount)
    case Currency => AddCurrency(r.target, r.amount)
    case Item => GrantItem(r.target, r.amount)
    case Entitlement => GrantEntitlement(r.target, r.amount)
  }

  /** One command for each reward of the challenge, from the one at `i` on. */
  function RewardCommands(spec: ChallengeSpec, event: string, i: nat): seq<RewardCommand>
    requires i <= |spec.rewards|
    decreases |spec.rewards| - i
  {
    if i == |spec.rewards| then []
    else [RewardCommand(spec.id, event, i, EffectOf(spec.rewards[i]))] + RewardCommands(spec, event, i + 1)
  }

  /** The effect gives what the reward promises; experience without a track goes to the default one. */
  predicate Gives(effect: Effect, r: Reward) {
    match effect
    case AwardXp(track, n) => r.kind == Xp && track == (if r.target == "" then "default" else r.target) && n == r.amount
    case AddCurrency(currency, n) => r.kind == Currency && currency == r.target && n == r.amount
    case GrantItem(item, n) => r.kind == Item && item == r.target && n == r.amount
    case GrantEntitlement(entitlement, n) => r.kind == Entitlement && entitlement == r.target && n == r.amount
  }

  /** Command for command, the rewards of the challenge in order, numbered, for this event. */
  predicate Pay(spec: ChallengeSpec, event: string, commands: seq<RewardCommand>) {
    |commands| == |spec.rewards| && forall i :: 0 <= i < |commands| ==>
      commands[i].challenge == spec.id && commands[i].event == event && commands[i].index == i
      && Gives(commands[i].effect, spec.rewards[i])
  }

  lemma {:induction false} RewardsFrom(spec: ChallengeSpec, event: string, i: nat)
    requires i <= |spec.rewards|
    ensures var cs := RewardCommands(spec, event, i);
            |cs| == |spec.rewards| - i && forall k :: 0 <= k < |cs| ==>
              cs[k] == RewardCommand(spec.id, event, i + k, EffectOf(spec.rewards[i + k]))
    decreases |spec.rewards| - i
  {
    if i >= |spec.rewards| {
    } else {
      RewardsFrom(spec, event, i + 1);
    }
  }

  /** The commands of a paying event are exactly the rewards. */
  lemma RewardsPay(spec: ChallengeSpec, event: string)
    ensures Pay(spec, event, RewardCommands(spec, event, 0))
  {
    hide RewardCommands;
    RewardsFrom(spec, event, 0);
  }

  /** Rewards go out when the progression completes and the stored entry was not completed before it. */
  predicate Pays(spec: ChallengeSpec, entry: Option<Progress>, key: WindowKey) {
    ApplyProgress(spec, entry, 1, key).1.completed && !(entry.Some? && entry.value.status.Completed?)
  }

  datatype Effects = Effects(challenges: map<string, Progress>, completed: seq<string>, commands: seq<RewardCommand>)

  function StepOne(spec: ChallengeSpec, before: Effects, event: Event): Effects {
    if !Qualifies(spec, event) then before
    else
      var key, entry := KeyFor(spec, event.at), Lookup(before.challenges, spec.id);
      var challenges := before.challenges[spec.id := ApplyProgress(spec, entry, 1, key).0];
      if Pays(spec, entry, key) then
        Effects(challenges, before.completed + [spec.id], before.commands + RewardCommands(spec, event.id, 0))
      else before.(challenges := challenges)
  }

  /** The challenges of the configuration, in order. */
  function StepAll(specs: seq<ChallengeSpec>, challenges: map<string, Progress>, event: Event): Effects {
    if specs == [] then Effects(challenges, [], [])
    else StepOne(specs[|specs| - 1], StepAll(specs[..|specs| - 1], challenges, event), event)
  }

  class ActorChallenges {
    var challenges: map<string, Progress>

    constructor ()
      ensures challenges == map[]
    {
      challenges := map[];
    }

    static method IssueGrants(key: WindowKey, n: nat, had: seq<Grant>) returns (grants: seq<Grant>)
      ensures grants == NewGrants(key, 0, n, had)
    {
      var granted := had;
      grants := [];
      for i := 0 to n
        invariant grants + NewGrants(key, i, n, granted) == NewGrants(key, 0, n, had)
      {
        hide NewGrants;
        var grant := Grant(key, i);
        GrantStep(key, i, n, granted, grants);
        if grant !in granted {
          granted, grants := granted + [grant], grants + [grant];
        }
      }
    }

    method ApplyOne(spec: ChallengeSpec, delta: int, key: WindowKey) returns (out: Outcome)
      modifies this
      ensures var r := ApplyProgress(spec, Lookup(old(challenges), spec.id), delta, key);
              challenges == old(challenges)[spec.id := r.0] && out == r.1
    {
      hide NewGrants;
      var entry := if spec.id in challenges then challenges[spec.id] else Initial(spec, key);
      var progressBefore, statusBefore := entry.progress, entry.status;
      if entry.key != key {
        if entry.status.Completed? { entry := entry.(completions := entry.completions + 1); }
        entry := entry.(progress := 0, key := key, status := InProgress, granted := []);
      }
      if entry.status.Completed? {
        challenges := challenges[spec.id := entry];
        return Outcome(progressBefore, entry.progress, statusBefore, entry.status, false, [], key);
      }
      if entry.status.Available? { entry := entry.(status := InProgress); }
      entry := entry.(progress := entry.progress + delta);
      if spec.target > 0 && entry.progress >= spec.target {
        entry := entry.(progress := spec.target, status := Completed);
      }
      var completed := entry.status.Completed?;
      var grants := [];
      if completed {
        grants := IssueGrants(key, |spec.rewards|, entry.granted);
        entry := entry.(granted := entry.granted + grants);
      }
      challenges := challenges[spec.id := entry];
      out := Outcome(progressBefore, entry.progress, statusBefore, entry.status, completed, grants, key);
    }

    method AutoProgress(specs: seq<ChallengeSpec>, event: Event)
      returns (completed: seq<string>, commands: seq<RewardCommand>)
      modifies this
      ensures Effects(challenges, completed, commands) == StepAll(specs, old(challenges), event)
    {
      completed, commands := [], [];
      for k := 0 to |specs|
        invariant Effects(challenges, completed, commands) == StepAll(specs[..k], old(challenges), event)
      {
        var spec := specs[k];
        assert specs[..k + 1][..k] == specs[..k];
        if spec.active && spec.progressType != "" && spec.progressType == event.kind {
          var before := spec.id in challenges && challenges[spec.id].status.Completed?;
          var key := KeyFor(spec, event.at);
          var out := ApplyOne(spec, 1, key);
          if out.completed && !before {
            completed := completed + [spec.id];
            var rewards := BuildRewards(spec, event.id);
            commands := commands + rewards;
          }
        }
      }
      assert specs[..|specs|] == specs;
    }

    static method BuildRewards(spec: ChallengeSpec, event: string) returns (commands: seq<RewardCommand>)
      ensures commands == RewardCommands(spec, event, 0) && Pay(spec, event, commands)
    {
      hide RewardCommands, Pay, EffectOf;
      RewardsFrom(spec, event, 0);
      RewardsPay(spec, event);
      commands := [];
      for i := 0 to |spec.rewards|
        invariant |commands| == i
        invariant forall k :: 0 <= k < i ==> commands[k] == RewardCommands(spec, event, 0)[k]
      {
        commands := commands + [RewardCommand(spec.id, event, i, EffectOf(spec.rewards[i]))];
      }
    }
  }

  // ---- One challenge over a run of qualifying events -------------------------------------

  /** The entry after qualifying events in the windows `keys`, in order. */
  function Entry(spec: ChallengeSpec, keys: seq<WindowKey>): Option<Progress> {
    if keys == [] then None
    else Some(ApplyProgress(spec, Entry(spec, keys[..|keys| - 1]), 1, keys[|keys| - 1]).0)
  }

  /** Whether the last of these events sent rewards. */
  predicate Paid(spec: ChallengeSpec, keys: seq<WindowKey>)
    requires keys != []
  {
    Pays(spec, Entry(spec, keys[..|keys| - 1]), keys[|keys| - 1])
  }

  function Granted(spec: ChallengeSpec, keys: seq<WindowKey>): seq<Grant>
    requires keys != []
  {
    ApplyProgress(spec, Entry(spec, keys[..|keys| - 1]), 1, keys[|keys| - 1]).1.grants
  }

  function Count(keys: seq<WindowKey>, key: WindowKey): nat { multiset(keys)[key] }

  /** The events of a window are not interrupted by events of another. */
  ghost predicate Grouped(keys: seq<WindowKey>) {
    forall i, j, k :: 0 <= i < j < k < |keys| && keys[i] == keys[k] ==> keys[j] == keys[i]
  }

  /** The windows in which events reached the target. */
  function Reached(keys: seq<WindowKey>, target: int): set<WindowKey> {
    set key | key in keys && target > 0 && Count(keys, key) >= target
  }

  function AllGrants(key: WindowKey, n: nat): seq<Grant> { seq(n, i requires 0 <= i < n => Grant(key, i)) }

  /** What an entry is, read off the windows of the events alone. */
  function Expected(spec: ChallengeSpec, keys: seq<WindowKey>): Progress
    requires keys != []
  {
    var key := keys[|keys| - 1];
    var count, done := Count(keys, key), spec.target > 0 && Count(keys, key) >= spec.target;
    Progress(if spec.target > 0 then Min(count, spec.target) else count, spec.target,
             if done then Completed else InProgress, key, |Reached(keys, spec.target) - {key}|,
             if done then AllGrants(key, |spec.rewards|) else [])
  }

  lemma {:induction false} NewGrantsAll(key: WindowKey, i: nat, n: nat, granted: seq<Grant>)
    requires i <= n && forall k :: i <= k ==> Grant(key, k) !in granted
    ensures NewGrants(key, i, n, granted) == AllGrants(key, n)[i..]
    decreases n - i
  {
    if i >= n {
    } else {
      NewGrantsAll(key, i + 1, n, granted + [Grant(key, i)]);
    }
  }

  lemma WholeGrants(key: WindowKey, n: nat)
    ensures NewGrants(key, 0, n, []) == AllGrants(key, n)
  {
    hide NewGrants;
    NewGrantsAll(key, 0, n, []);
    assert AllGrants(key, n)[0..] == AllGrants(key, n);
  }

  lemma CountLast(keys: seq<WindowKey>, key: WindowKey)
    requires keys != []
    ensures Count(keys, key) == Count(keys[..|keys| - 1], key) + if keys[|keys| - 1] == key then 1 else 0
  {
    assert keys == keys[..|keys| - 1] + [keys[|keys| - 1]];
  }

  lemma GroupedPrefix(keys: seq<WindowKey>)
    requires Grouped(keys) && keys != []
    ensures Grouped(keys[..|keys| - 1])
    ensures |keys| > 1 && keys[|keys| - 2] != keys[|keys| - 1] ==> keys[|keys| - 1] !in keys[..|keys| - 1]
  {
  }

  lemma ReachedElse(keys: seq<WindowKey>, target: int)
    requires keys != []
    ensures var n, key := |keys| - 1, keys[|keys| - 1];
            Reached(keys, target) - {key} == Reached(keys[..n], target) - {key}
  {
    var n, key := |keys| - 1, keys[|keys| - 1];
    assert keys == keys[..n] + [key];
    forall k ensures k in Reached(keys, target) - {key} <==> k in Reached(keys[..n], target) - {key} {
      if k != key { CountLast(keys, k); }
    }
  }

  /** Moving to a new window adds the old one to the finished ones if its target was reached. */
  lemma ReachedMoves(keys: seq<WindowKey>, target: int)
    requires |keys| > 1 && keys[|keys| - 1] !in keys[..|keys| - 1]
    ensures var n := |keys| - 1;
            var key, old_ := keys[n], keys[n - 1];
            |Reached(keys, target) - {key}|
            == |Reached(keys[..n], target) - {old_}|
               + if target > 0 && Count(keys[..n], old_) >= target then 1 else 0
  {
    var n := |keys| - 1;
    var key, last, before := keys[n], keys[n - 1], Reached(keys[..n], target);
    ReachedElse(keys, target);
    assert key !in before;
    assert before - {key} == before;
    assert last in keys[..n] by { assert keys[..n][n - 1] == last; }
    if last in before {
      assert before == before - {last} + {last};
    } else {
      assert before == before - {last};
    }
  }

  lemma StepExpected(spec: ChallengeSpec, keys: seq<WindowKey>)
    requires Grouped(keys) && |keys| > 1
    ensures var n := |keys| - 1;
            ApplyProgress(spec, Some(Expected(spec, keys[..n])), 1, keys[n]).0 == Expected(spec, keys)
  {
    hide Grouped, ApplyProgress, Expected;
    GroupedPrefix(keys);
    if keys[|keys| - 1] == keys[|keys| - 2] {
      StepSameWindow(spec, keys);
    } else {
      StepNewWindow(spec, keys);
    }
  }

  lemma StepSameWindow(spec: ChallengeSpec, keys: seq<WindowKey>)
    requires |keys| > 1 && keys[|keys| - 1] == keys[|keys| - 2]
    ensures var n := |keys| - 1;
            ApplyProgress(spec, Some(Expected(spec, keys[..n])), 1, keys[n]).0 == Expected(spec, keys)
  {
    hide Reached, Count, NewGrants, AllGrants;
    CountLast(keys, keys[|keys| - 1]);
    WholeGrants(keys[|keys| - 1], |spec.rewards|);
    ReachedElse(keys, spec.target);
  }

  lemma StepNewWindow(spec: ChallengeSpec, keys: seq<WindowKey>)
    requires |keys| > 1 && keys[|keys| - 1] !in keys[..|keys| - 1]
    ensures var n := |keys| - 1;
            ApplyProgress(spec, Some(Expected(spec, keys[..n])), 1, keys[n]).0 == Expected(spec, keys)
  {
    hide Reached, Count, NewGrants, AllGrants;
    var n := |keys| - 1;
    assert keys[n - 1] in keys[..n] by { assert keys[..n][n - 1] == keys[n - 1]; }
    CountLast(keys, keys[n]);
    CountAbsent(keys[..n], keys[n]);
    WholeGrants(keys[n], |spec.rewards|);
    ReachedMoves(keys, spec.target);
  }

  lemma CountAbsent(keys: seq<WindowKey>, key: WindowKey)
    requires key !in keys
    ensures Count(keys, key) == 0
  {
  }

  /** Progress, status, completions and grants of a challenge, for a whole run. */
  lemma {:induction false} EntryIs(spec: ChallengeSpec, keys: seq<WindowKey>)
    requires Grouped(keys) && keys != []
    ensures Entry(spec, keys) == Some(Expected(spec, keys))
  {
    hide Grouped, ApplyProgress, Expected;
    if |keys| == 1 {
      FirstExpected(spec, keys);
    } else {
      GroupedPrefix(keys);
      EntryIs(spec, keys[..|keys| - 1]);
      StepExpected(spec, keys);
    }
  }

  lemma FirstExpected(spec: ChallengeSpec, keys: seq<WindowKey>)
    requires |keys| == 1
    ensures ApplyProgress(spec, None, 1, keys[0]).0 == Expected(spec, keys)
    ensures Entry(spec, keys[..0]) == None
  {
    hide NewGrants;
    WholeGrants(keys[0], |spec.rewards|);
    assert keys == [keys[0]] && Count(keys, keys[0]) == 1;
    assert Reached(keys, spec.target) - {keys[0]} == {};
  }

  lemma OutcomeOfNext(spec: ChallengeSpec, p: Progress, key: WindowKey)
    ensures var rolled, r := RollOver(p, key), ApplyProgress(spec, Some(p), 1, key);
            r.1.completed == (!rolled.status.Completed? && spec.target > 0 && rolled.progress + 1 >= spec.target)
            && r.1.grants == if r.1.completed then NewGrants(key, 0, |spec.rewards|, rolled.granted) else []
  {
    hide NewGrants;
  }

  /** Rewards are sent by the very event that brings its window to the target; a target of one pays only once ever. */
  lemma PaidExactly(spec: ChallengeSpec, keys: seq<WindowKey>)
    requires Grouped(keys) && keys != []
    ensures Paid(spec, keys) <==>
            (spec.target >= 2 && Count(keys, keys[|keys| - 1]) == spec.target) || (spec.target == 1 && |keys| == 1)
    ensures Granted(spec, keys)
            == if spec.target >= 1 && Count(keys, keys[|keys| - 1]) == spec.target
               then AllGrants(keys[|keys| - 1], |spec.rewards|) else []
  {
    hide Grouped, Count, Reached, NewGrants, AllGrants, ApplyProgress;
    var n, key := |keys| - 1, keys[|keys| - 1];
    WholeGrants(key, |spec.rewards|);
    CountLast(keys, key);
    if n == 0 {
      assert Count(keys[..n], key) == 0 by { CountAbsent(keys[..n], key); }
      FirstOutcome(spec, key);
    } else {
      GroupedPrefix(keys);
      EntryIs(spec, keys[..n]);
      OutcomeOfNext(spec, Expected(spec, keys[..n]), key);
      CountLast(keys[..n], keys[n - 1]);
      if key != keys[n - 1] { CountAbsent(keys[..n], key); }
    }
  }

  lemma FirstOutcome(spec: ChallengeSpec, key: WindowKey)
    ensures var out := ApplyProgress(spec, None, 1, key).1;
            out.completed == (spec.target == 1)
            && out.grants == if spec.target == 1 then NewGrants(key, 0, |spec.rewards|, []) else []
  {
    hide NewGrants;
  }

  /** How many of the events in window `key` sent rewards. */
  function Payments(spec: ChallengeSpec, keys: seq<WindowKey>, key: WindowKey): nat {
    if keys == [] then 0
    else Payments(spec, keys[..|keys| - 1], key) + if keys[|keys| - 1] == key && Paid(spec, keys) then 1 else 0
  }

  /** With a target of two or more: one payment in each window that reaches the target and none in any other. */
  lemma {:induction false} OncePerWindow(spec: ChallengeSpec, keys: seq<WindowKey>, key: WindowKey)
    requires Grouped(keys)
    ensures spec.target >= 2 ==> Payments(spec, keys, key) == if Count(keys, key) >= spec.target then 1 else 0
    ensures spec.target == 1 ==> Payments(spec, keys, key) == if keys != [] && keys[0] == key then 1 else 0
    ensures spec.target <= 0 ==> Payments(spec, keys, key) == 0
  {
    hide Paid, Count, Grouped;
    if keys == [] {
      assert Count(keys, key) == 0 by { CountAbsent(keys, key); }
    } else {
      GroupedPrefix(keys);
      OncePerWindow(spec, keys[..|keys| - 1], key);
      PaidExactly(spec, keys);
      CountLast(keys, key);
      if |keys| == 1 { CountAbsent(keys[..0], key); }
    }
  }

  /** How many events of the run sent rewards. */
  function AllPayments(spec: ChallengeSpec, keys: seq<WindowKey>): nat {
    if keys == [] then 0
    else AllPayments(spec, keys[..|keys| - 1]) + if Paid(spec, keys) then 1 else 0
  }

  lemma ReachedGrows(keys: seq<WindowKey>, target: int)
    requires keys != [] && target > 0
    ensures var n := |keys| - 1;
            |Reached(keys, target)|
            == |Reached(keys[..n], target)| + if Count(keys, keys[n]) == target then 1 else 0
  {
    var n, key := |keys| - 1, keys[|keys| - 1];
    var before, after := Reached(keys[..n], target), Reached(keys, target);
    ReachedElse(keys, target);
    CountLast(keys, key);
    assert key in after <==> Count(keys, key) >= target;
    assert key in before <==> Count(keys, key) - 1 >= target by {
      if key !in keys[..n] { CountAbsent(keys[..n], key); }
    }
    if key in after { assert after == (after - {key}) + {key}; } else { assert after == after - {key}; }
    if key in before { assert before == (before - {key}) + {key}; } else { assert before == before - {key}; }
  }

  /**
   * The window alone makes a challenge repeat: rewards are sent once for every window that reached its target,
   * whatever repetition is configured. So "once" is what happens exactly when at most one window did.
   */
  lemma {:induction false} RepeatsEachWindow(spec: ChallengeSpec, keys: seq<WindowKey>)
    requires Grouped(keys)
    ensures spec.target >= 2 ==> AllPayments(spec, keys) == |Reached(keys, spec.target)|
    ensures spec.target == 1 ==> AllPayments(spec, keys) == if keys == [] then 0 else 1
    ensures spec.target <= 0 ==> AllPayments(spec, keys) == 0
  {
    hide Paid, Count, Grouped, Reached;
    if keys == [] {
      NoneReached(spec.target);
    } else {
      GroupedPrefix(keys);
      RepeatsEachWindow(spec, keys[..|keys| - 1]);
      PaidExactly(spec, keys);
      if spec.target > 0 { ReachedGrows(keys, spec.target); }
    }
  }

  lemma NoneReached(target: int)
    ensures Reached([], target) == {}
  {
  }

  /** A target of one, reached in two windows: both complete and grant, only the first pays. */
  lemma TargetOnePaysOnce(spec: ChallengeSpec, first: WindowKey, second: WindowKey)
    requires spec.target == 1 && first != second
    ensures Paid(spec, [first]) && !Paid(spec, [first, second])
    ensures Granted(spec, [first, second]) == AllGrants(second, |spec.rewards|)
  {
    hide Paid, Granted;
    PaidExactly(spec, [first]);
    PaidExactly(spec, [first, second]);
    assert Count([first], first) == 1 && Count([first, second], second) == 1;
  }

  // ---- Many challenges, any events -------------------------------------------------------

  /** An active challenge is progressed by events of its own kind; one without a kind by none. */
  predicate Progresses(spec: ChallengeSpec, event: Event) {
    event.kind == spec.progressType && event.kind != "" && spec.active
  }

  lemma QualifiesIs(spec: ChallengeSpec, event: Event)
    ensures Qualifies(spec, event) <==> Progresses(spec, event)
  {
  }

  /** The windows of the events that progress the challenge, in order. */
  function KeysOf(spec: ChallengeSpec, events: seq<Event>): seq<WindowKey> {
    if events == [] then []
    else KeysOf(spec, events[..|events| - 1])
         + if Progresses(spec, events[|events| - 1]) then [KeyFor(spec, events[|events| - 1].at)] else []
  }

  function RunAll(specs: seq<ChallengeSpec>, events: seq<Event>): map<string, Progress> {
    if events == [] then map[]
    else StepAll(specs, RunAll(specs, events[..|events| - 1]), events[|events| - 1]).challenges
  }

  function CommandsFor(commands: seq<RewardCommand>, id: string): seq<RewardCommand> {
    if commands == [] then []
    else CommandsFor(commands[..|commands| - 1], id)
         + if commands[|commands| - 1].challenge == id then [commands[|commands| - 1]] else []
  }

  ghost predicate DistinctIds(specs: seq<ChallengeSpec>) {
    forall i, j :: 0 <= i < j < |specs| ==> specs[i].id != specs[j].id
  }

  lemma {:induction false} CommandsForSum(a: seq<RewardCommand>, b: seq<RewardCommand>, id: string)
    ensures CommandsFor(a + b, id) == CommandsFor(a, id) + CommandsFor(b, id)
  {
    if b == [] {
      assert a + b == a;
    } else {
      CommandsForSum(a, b[..|b| - 1], id);
      assert (a + b)[..|a + b| - 1] == a + b[..|b| - 1];
    }
  }

  lemma CommandsForOne(command: RewardCommand, id: string)
    ensures CommandsFor([command], id) == if command.challenge == id then [command] else []
  {
    assert [command][..0] == [];
  }

  lemma {:induction false} RewardsAreFor(spec: ChallengeSpec, event: string, i: nat, id: string)
    requires i <= |spec.rewards|
    ensures CommandsFor(RewardCommands(spec, event, i), id)
            == if spec.id == id then RewardCommands(spec, event, i) else []
    decreases |spec.rewards| - i
  {
    if i >= |spec.rewards| {
      assert CommandsFor([], id) == [];
    } else {
      hide CommandsFor;
      var first := RewardCommand(spec.id, event, i, EffectOf(spec.rewards[i]));
      RewardsAreFor(spec, event, i + 1, id);
      CommandsForSum([first], RewardCommands(spec, event, i + 1), id);
      CommandsForOne(first, id);
    }
  }

  /** One challenge's step, seen through the eyes of the challenge `id`. */
  lemma StepOneFor(spec: ChallengeSpec, before: Effects, event: Event, id: string)
    ensures var r, key, entry := StepOne(spec, before, event), KeyFor(spec, event.at), Lookup(before.challenges, id);
            if spec.id == id && Qualifies(spec, event) then
              && Lookup(r.challenges, id) == Some(ApplyProgress(spec, entry, 1, key).0)
              && CommandsFor(r.commands, id)
                 == CommandsFor(before.commands, id)
                    + if Pays(spec, entry, key) then RewardCommands(spec, event.id, 0) else []
            else
              Lookup(r.challenges, id) == entry && CommandsFor(r.commands, id) == CommandsFor(before.commands, id)
  {
    hide ApplyProgress, Qualifies, Pays, KeyFor, CommandsFor, RewardCommands;
    RewardsAreFor(spec, event.id, 0, id);
    CommandsForSum(before.commands, RewardCommands(spec, event.id, 0), id);
  }

  /** What one event does to one of many challenges is what it does to that challenge alone. */
  lemma {:induction false} StepAllAt(specs: seq<ChallengeSpec>, j: nat, challenges: map<string, Progress>, event: Event)
    requires DistinctIds(specs) && j < |specs|
    ensures var spec, r := specs[j], StepAll(specs, challenges, event);
            var entry, key := Lookup(challenges, spec.id), KeyFor(spec, event.at);
            Lookup(r.challenges, spec.id)
            == (if Qualifies(spec, event) then Some(ApplyProgress(spec, entry, 1, key).0) else entry)
            && CommandsFor(r.commands, spec.id)
            == if Qualifies(spec, event) && Pays(spec, entry, key) then RewardCommands(spec, event.id, 0) else []
  {
    hide ApplyProgress, Qualifies, Pays, KeyFor, StepOne, CommandsFor, Lookup, RewardCommands;
    var n := |specs| - 1;
    StepOneFor(specs[n], StepAll(specs[..n], challenges, event), event, specs[j].id);
    if j < n {
      StepAllAt(specs[..n], j, challenges, event);
    } else {
      StepAllElse(specs[..n], specs[j].id, challenges, event);
    }
  }

  lemma {:induction false} StepAllElse(
      specs: seq<ChallengeSpec>, id: string, challenges: map<string, Progress>, event: Event)
    requires forall i :: 0 <= i < |specs| ==> specs[i].id != id
    ensures var r := StepAll(specs, challenges, event);
            Lookup(r.challenges, id) == Lookup(challenges, id) && CommandsFor(r.commands, id) == []
  {
    hide ApplyProgress, Qualifies, Pays, KeyFor, StepOne, Lookup, RewardCommands;
    if specs == [] {
    } else {
      var n := |specs| - 1;
      StepAllElse(specs[..n], id, challenges, event);
      StepOneFor(specs[n], StepAll(specs[..n], challenges, event), event, id);
    }
  }

  /** Whether the event sends this challenge's rewards, judged on the entries before the event. */
  predicate PaysNow(spec: ChallengeSpec, challenges: map<string, Progress>, event: Event) {
    Progresses(spec, event) && Pays(spec, Lookup(challenges, spec.id), KeyFor(spec, event.at))
  }

  /** The paying challenges in configuration order, and all of their rewards. */
  function Paying(specs: seq<ChallengeSpec>, challenges: map<string, Progress>, event: Event): seq<ChallengeSpec> {
    if specs == [] then []
    else
      Paying(specs[..|specs| - 1], challenges, event)
      + if PaysNow(specs[|specs| - 1], challenges, event) then [specs[|specs| - 1]] else []
  }

  function AllRewards(specs: seq<ChallengeSpec>, event: string): seq<RewardCommand> {
    if specs == [] then [] else AllRewards(specs[..|specs| - 1], event) + RewardCommands(specs[|specs| - 1], event, 0)
  }

  /** What one event reports as completed, and every command it brings, in order. */
  lemma {:induction false} StepReports(specs: seq<ChallengeSpec>, challenges: map<string, Progress>, event: Event)
    requires DistinctIds(specs)
    ensures var r, paying := StepAll(specs, challenges, event), Paying(specs, challenges, event);
            && |r.completed| == |paying| && (forall i :: 0 <= i < |paying| ==> r.completed[i] == paying[i].id)
            && r.commands == AllRewards(paying, event.id)
  {
    hide PaysNow, RewardCommands, StepOne;
    if specs == [] {
    } else {
      var n := |specs| - 1;
      var before, paying := StepAll(specs[..n], challenges, event), Paying(specs[..n], challenges, event);
      StepReports(specs[..n], challenges, event);
      StepAllElse(specs[..n], specs[n].id, challenges, event);
      StepOneReports(specs[n], before, challenges, event);
      AllRewardsMore(paying, specs[n], event.id);
      hide AllRewards;
    }
  }

  lemma StepOneReports(spec: ChallengeSpec, before: Effects, challenges: map<string, Progress>, event: Event)
    requires Lookup(before.challenges, spec.id) == Lookup(challenges, spec.id)
    ensures var r, pays := StepOne(spec, before, event), PaysNow(spec, challenges, event);
            && r.completed == before.completed + (if pays then [spec.id] else [])
            && r.commands == before.commands + if pays then RewardCommands(spec, event.id, 0) else []
  {
    hide Qualifies, Progresses, Pays, KeyFor, RewardCommands, Lookup, ApplyProgress;
    QualifiesIs(spec, event);
  }

  lemma AllRewardsMore(specs: seq<ChallengeSpec>, spec: ChallengeSpec, event: string)
    ensures AllRewards(specs + [spec], event) == AllRewards(specs, event) + RewardCommands(spec, event, 0)
    ensures AllRewards(specs + [], event) == AllRewards(specs, event)
  {
    hide RewardCommands;
    assert (specs + [spec])[..|specs|] == specs && specs + [] == specs;
  }

  /** Over any run, each challenge sees exactly its own qualifying events. */
  lemma {:induction false} RunAllAt(specs: seq<ChallengeSpec>, j: nat, events: seq<Event>)
    requires DistinctIds(specs) && j < |specs|
    ensures Lookup(RunAll(specs, events), specs[j].id) == Entry(specs[j], KeysOf(specs[j], events))
  {
    hide StepAll, ApplyProgress, Qualifies, KeyFor;
    if events == [] {
    } else {
      var n, spec := |events| - 1, specs[j];
      RunAllAt(specs, j, events[..n]);
      StepAllAt(specs, j, RunAll(specs, events[..n]), events[n]);
      var before, keys := KeysOf(spec, events[..n]), KeysOf(spec, events);
      QualifiesIs(spec, events[n]);
      if Qualifies(spec, events[n]) {
        assert keys == before + [KeyFor(spec, events[n].at)];
        assert keys[..|keys| - 1] == before;
      } else {
        assert keys == before;
      }
    }
  }

  /** Without a window all instants are one; with one, exactly those that lie in the same window. */
  lemma KeysTellWindows(spec: ChallengeSpec, a: int, b: int)
    ensures KeyFor(spec, a) == KeyFor(spec, b) <==>
            match spec.window
            case None => true
            case Some(Fixed(unit)) => ResolveFixed(unit, a).startsAt <= b < ResolveFixed(unit, a).endsAt
            case Some(Rolling(_)) => a == b
  {
    if spec.window.Some? {
      var w := spec.window.value;
      if w.Fixed? {
        WindowsPartition(w.unit, a, b);
        hide ResolveFixed;
      }
    }
  }

  /** What one progression reports: where the entry stood, where it stands, and whether this event completed it. */
  lemma OutcomeReports(spec: ChallengeSpec, entry: Option<Progress>, delta: int, key: WindowKey)
    ensures var (after, out) := ApplyProgress(spec, entry, delta, key);
            && out.progressBefore == (if entry.Some? then entry.value.progress else 0)
            && out.statusBefore == (match entry case Some(p) => p.status
                                                case None => if spec.triggered then Available else InProgress)
            && out.progressAfter == after.progress && out.statusAfter == after.status && out.key == after.key == key
            && (out.completed <==>
                  after.status.Completed? && !(entry.Some? && entry.value.status.Completed? && entry.value.key == key))
            && (entry.Some? ==> after.target == entry.value.target) && (entry.None? ==> after.target == spec.target)
  {
    hide NewGrants;
  }

  ghost predicate InTimeOrder(events: seq<Event>) {
    forall i, j :: 0 <= i < j < |events| ==> events[i].at <= events[j].at
  }

  lemma KeysBetween(spec: ChallengeSpec, a: int, b: int, c: int)
    requires a <= b <= c && KeyFor(spec, a) == KeyFor(spec, c)
    ensures KeyFor(spec, b) == KeyFor(spec, a)
  {
    hide Resolve;
    if spec.window.Some? {
      var w := spec.window.value;
      Streak.KeyIsMark(w, a, c);
      Streak.KeyIsMark(w, a, b);
      Streak.MarkGrows(w, a, b);
      Streak.MarkGrows(w, b, c);
    }
  }

  /** The windows of the qualifying events of a run come with times that only grow. */
  lemma {:induction false} KeysHaveTimes(spec: ChallengeSpec, events: seq<Event>) returns (times: seq<int>)
    requires InTimeOrder(events)
    ensures |times| == |KeysOf(spec, events)| && Streak.Nondecreasing(times)
    ensures forall i :: 0 <= i < |times| ==> KeysOf(spec, events)[i] == KeyFor(spec, times[i])
    ensures times != [] ==> events != [] && times[|times| - 1] <= events[|events| - 1].at
  {
    hide KeyFor, Progresses;
    times := [];
    if events == [] {
    } else {
      var n := |events| - 1;
      times := KeysHaveTimes(spec, events[..n]);
      if Progresses(spec, events[n]) { times := times + [events[n].at]; }
    }
  }

  lemma KeysGrouped(spec: ChallengeSpec, events: seq<Event>)
    requires InTimeOrder(events)
    ensures Grouped(KeysOf(spec, events))
  {
    hide KeyFor, KeysOf, InTimeOrder;
    var keys := KeysOf(spec, events);
    var times := KeysHaveTimes(spec, events);
    forall i, j, k | 0 <= i < j < k < |keys| && keys[i] == keys[k] ensures keys[j] == keys[i] {
      KeysBetween(spec, times[i], times[j], times[k]);
    }
  }

  /**
   * The whole configuration, events in time order: the rewards the last event brings for one challenge, and its
   * entry after it.
   */
  lemma ChallengeRewards(specs: seq<ChallengeSpec>, j: nat, events: seq<Event>)
    requires DistinctIds(specs) && j < |specs| && InTimeOrder(events) && events != []
    requires Progresses(specs[j], events[|events| - 1])
    ensures var n, spec, keys := |events| - 1, specs[j], KeysOf(specs[j], events);
            var count := Count(keys, KeyFor(spec, events[n].at));
            var r := StepAll(specs, RunAll(specs, events[..n]), events[n]);
            && (if (spec.target >= 2 && count == spec.target) || (spec.target == 1 && |keys| == 1)
                then Pay(spec, events[n].id, CommandsFor(r.commands, spec.id))
                else CommandsFor(r.commands, spec.id) == [])
            && keys != [] && Lookup(r.challenges, spec.id) == Some(Expected(spec, keys))
  {
    hide StepAll, Qualifies, Progresses, KeyFor, Count, Grouped, InTimeOrder, DistinctIds, ApplyProgress;
    hide Expected, Pays, Pay;
    hide RewardCommands;
    var n, spec := |events| - 1, specs[j];
    var keys := KeysOf(spec, events);
    assert keys[|keys| - 1] == KeyFor(spec, events[n].at) && keys[..|keys| - 1] == KeysOf(spec, events[..n]);
    KeysGrouped(spec, events);
    RunAllAt(specs, j, events[..n]);
    RunAllAt(specs, j, events);
    StepAllAt(specs, j, RunAll(specs, events[..n]), events[n]);
    QualifiesIs(spec, events[n]);
    PaidExactly(spec, keys);
    EntryIs(spec, keys);
    RewardsPay(spec, events[n].id);
  }
}
